/** The life of one run: the engine (src/aitp_playground/runner/engine.py) against
    `POST /runs` and `/runs/{id}/cancel` (src/aitp_playground/api/runs.py). The engine is
    atomic between two awaits; the other parties step in between. */
module RunLifecycles {
  import opened RunStores
  import opened Wrappers

  /** What identifies a run: its id and the request fields the engine records. */
  datatype Job = Job(id: string, scenario: string, runLabel: string)

  // ---- terminal events and statuses ----

  const TERMINAL_STATUSES := {"success", "failed", "cancelled"}

  predicate IsTerminal(kind: string) {
    kind == "run.complete" || kind == "run.failed" || kind == "run.cancelled"
  }

  predicate IsMilestone(kind: string) {
    kind == "run.started" || IsTerminal(kind)
  }

  function StatusFor(kind: string): string
    requires IsTerminal(kind)
  {
    if kind == "run.complete" then "success" else if kind == "run.failed" then "failed" else "cancelled"
  }

  /** The start and the endings of a run, in the order the log has them. */
  function Milestones(events: seq<Event>): seq<string> {
    if events == [] then []
    else
      var last := events[|events| - 1];
      Milestones(events[..|events| - 1]) + if IsMilestone(last.kind) then [last.kind] else []
  }

  predicate IsCancelled(s: Store, id: string) {
    StatusOf(s, id) == Some("cancelled")
  }

  // ---- the writes of the engine and of the routes ----

  function RunEvent(job: Job, kind: string, code: Option<string>): Event {
    Event(kind, Some(job.id), code, None)
  }

  function Emit(s: Store, job: Job, kind: string, code: Option<string>, now: string): Store {
    AppendEvent(s, job.id, RunEvent(job, kind, code), now).0
  }

  function Pending(job: Job): Record {
    Record(map["run_id" := job.id, "status" := "pending", "scenario_ref" := job.scenario,
               "run_label" := job.runLabel, "outputs" := "{}", "error" := "null"], [])
  }

  function Running(job: Job): Record {
    Record(Pending(job).scalars["status" := "running"], [])
  }

  function Succeeded(job: Job, outputs: string): Record {
    Record(map["run_id" := job.id, "status" := "success", "scenario_ref" := job.scenario,
               "outputs" := outputs, "error" := "null"], [])
  }

  function Failed(job: Job, error: string): Record {
    Record(map["run_id" := job.id, "status" := "failed", "outputs" := "{}", "error" := error], [])
  }

  const CANCELLED := Record(map["status" := "cancelled"], [])

  /** What the engine does between two awaits: emit an event of its own, or annotate the
      record with fields other than the status. */
  datatype Action = Note(event: Event) | Annotate(fields: map<string, string>)

  predicate Harmless(a: Action) {
    match a
    case Note(event) => !IsMilestone(event.kind)
    case Annotate(fields) => "status" !in fields
  }

  datatype Ending =
    | Waits
    | Raises(code: Option<string>, error: string)
    | Finishes(outputs: string)

  /** One stretch of engine code inside the `try`, up to the next await or to its end. */
  datatype Stretch = Stretch(actions: seq<Action>, ending: Ending)

  datatype Opening =
    | Refused(code: Option<string>, error: string)
    | BadInputs(error: string)
    | Proceeds(stretch: Stretch)

  function Act(s: Store, job: Job, a: Action, now: string): Store {
    match a
    case Note(event) => AppendEvent(s, job.id, event, now).0
    case Annotate(fields) => Upsert(s, job.id, Record(fields, []), now)
  }

  function ActAll(s: Store, job: Job, actions: seq<Action>, now: string): Store {
    if actions == [] then s
    else Act(ActAll(s, job, actions[..|actions| - 1], now), job, actions[|actions| - 1], now)
  }

  function FinalizeFailure(s: Store, job: Job, error: string, now: string): Store {
    if IsCancelled(s, job.id) then s else Upsert(s, job.id, Failed(job, error), now)
  }

  function Fail(s: Store, job: Job, code: Option<string>, error: string, now: string): Store {
    var reported := if IsCancelled(s, job.id) then s else Emit(s, job, "run.failed", code, now);
    FinalizeFailure(reported, job, error, now)
  }

  function Finish(s: Store, job: Job, outputs: string, now: string): Store {
    var (written, completed) := UpsertUnlessCancelled(s, job.id, Succeeded(job, outputs), now);
    if completed then Emit(written, job, "run.complete", None, now) else written
  }

  datatype Phase = Fresh | Queued | Suspended | Done

  function Proceed(s: Store, job: Job, st: Stretch, now: string): (Store, Phase) {
    var acted := ActAll(s, job, st.actions, now);
    match st.ending
    case Waits => (acted, Suspended)
    case Raises(code, error) => (Fail(acted, job, code, error, now), Done)
    case Finishes(outputs) => (Finish(acted, job, outputs, now), Done)
  }

  function Begin(s: Store, job: Job, opening: Opening, now: string): (Store, Phase) {
    var (begun, written) := UpsertUnlessCancelled(s, job.id, Running(job), now);
    if !written then (begun, Done)
    else if opening.Refused? then (Fail(begun, job, opening.code, opening.error, now), Done)
    else if IsCancelled(begun, job.id) then (FinalizeFailure(begun, job, "cancelled before start", now), Done)
    else
      var started := Emit(begun, job, "run.started", None, now);
      match opening
      case BadInputs(error) =>
        var reported := Emit(started, job, "run.failed", Some("inputs_invalid"), now);
        (FinalizeFailure(reported, job, error, now), Done)
      case Proceeds(stretch) => Proceed(started, job, stretch, now)
  }

  predicate Cancellable(s: Store, id: string) {
    id in s.runs && !(StatusOf(s, id).Some? && StatusOf(s, id).value in TERMINAL_STATUSES)
  }

  function Cancel(s: Store, job: Job, now: string): Store {
    if Cancellable(s, job.id)
    then Emit(Upsert(s, job.id, CANCELLED, now), job, "run.cancelled", None, now)
    else s
  }

  // ---- runs of the whole system ----

  datatype Step =
    | Create(now: string)
    | Start(opening: Opening, now: string)
    | Resume(stretch: Stretch, now: string)
    | CancelRun(now: string)
    | Telemetry(event: Event, now: string)
    | Elsewhere(other: string, write: Write, now: string)

  datatype World = World(store: Store, phase: Phase)

  ghost predicate Tame(st: Stretch) {
    forall i :: 0 <= i < |st.actions| ==> Harmless(st.actions[i])
  }

  ghost predicate Enabled(w: World, job: Job, step: Step) {
    match step
    case Create(_) => w.phase.Fresh?
    case Start(opening, _) => (w.phase.Fresh? || w.phase.Queued?) && (opening.Proceeds? ==> Tame(opening.stretch))
    case Resume(stretch, _) => w.phase.Suspended? && Tame(stretch)
    case CancelRun(_) => true
    case Telemetry(event, _) => !w.phase.Fresh? && !IsMilestone(event.kind)
    case Elsewhere(other, _, _) => other != job.id
  }

  function Next(w: World, job: Job, step: Step): World {
    match step
    case Create(now) => World(Upsert(w.store, job.id, Pending(job), now), Queued)
    case Start(opening, now) => var (s, phase) := Begin(w.store, job, opening, now); World(s, phase)
    case Resume(stretch, now) => var (s, phase) := Proceed(w.store, job, stretch, now); World(s, phase)
    case CancelRun(now) => w.(store := Cancel(w.store, job, now))
    case Telemetry(event, now) => w.(store := AppendEvent(w.store, job.id, event, now).0)
    case Elsewhere(other, write, now) => w.(store := Apply(w.store, other, write, now))
  }

  function After(job: Job, steps: seq<Step>, k: nat): World
    requires k <= |steps|
  {
    if k == 0 then World(EMPTY, Fresh) else Next(After(job, steps, k - 1), job, steps[k - 1])
  }

  ghost predicate Legal(job: Job, steps: seq<Step>) {
    forall i :: 0 <= i < |steps| ==> Enabled(After(job, steps, i), job, steps[i])
  }

  // ---- what every step keeps ----

  /** The run has not ended: no terminal event, no terminal status. */
  ghost predicate Open(s: Store, id: string, started: bool) {
    && Milestones(EventsOf(s, id)) == (if started then ["run.started"] else [])
    && !(StatusOf(s, id).Some? && StatusOf(s, id).value in TERMINAL_STATUSES)
  }

  /** The run ended with `kind`: its only terminal event, its last milestone, and the
      event its status tells of. */
  ghost predicate Ended(s: Store, id: string, started: bool, kind: string) {
    && IsTerminal(kind)
    && Milestones(EventsOf(s, id)) == (if started then ["run.started", kind] else [kind])
    && StatusOf(s, id) == Some(StatusFor(kind))
  }

  ghost predicate Consistent(w: World, id: string) {
    match w.phase
    case Fresh => id !in w.store.runs
    case Queued => id in w.store.runs && (Open(w.store, id, false) || Ended(w.store, id, false, "run.cancelled"))
    case Suspended => id in w.store.runs && (Open(w.store, id, true) || Ended(w.store, id, true, "run.cancelled"))
    case Done =>
      && id in w.store.runs
      && exists started, kind :: Ended(w.store, id, started, kind) && (kind == "run.complete" ==> started)
  }

  lemma MilestonesAppend(events: seq<Event>, e: Event)
    ensures Milestones(events + [e]) == Milestones(events) + if IsMilestone(e.kind) then [e.kind] else []
  {
    assert (events + [e])[..|events|] == events;
  }

  /** Everything an emitted event changes about its run. */
  lemma EmitFacts(s: Store, id: string, e: Event, now: string)
    ensures var t := AppendEvent(s, id, e, now).0;
            && id in t.runs
            && EventsOf(t, id) == EventsOf(s, id) + [e]
            && Milestones(EventsOf(t, id)) == Milestones(EventsOf(s, id)) + (if IsMilestone(e.kind) then [e.kind] else [])
            && StatusOf(t, id) == (if id in s.runs then StatusOf(s, id) else Some("running"))
  {
    MilestonesAppend(EventsOf(s, id), e);
    assert EventsOf(AppendEvent(s, id, e, now).0, id) == EventsOf(s, id) + [e];
  }

  lemma UpsertFacts(s: Store, id: string, update: Record, now: string)
    requires update.events == []
    ensures var t := Upsert(s, id, update, now);
            && id in t.runs
            && EventsOf(t, id) == EventsOf(s, id)
            && StatusOf(t, id) == (if "status" in update.scalars then Some(update.scalars["status"]) else StatusOf(s, id))
  {
  }

  /** Harmless actions leave the milestones and the status alone. */
  lemma {:induction false} ActAllKeeps(s: Store, job: Job, actions: seq<Action>, now: string)
    requires job.id in s.runs
    requires forall i :: 0 <= i < |actions| ==> Harmless(actions[i])
    ensures var t := ActAll(s, job, actions, now);
            && job.id in t.runs
            && Milestones(EventsOf(t, job.id)) == Milestones(EventsOf(s, job.id))
            && StatusOf(t, job.id) == StatusOf(s, job.id)
  {
    hide AppendEvent, Upsert, StatusOf, EventsOf, Milestones;
    if actions != [] {
      var n := |actions| - 1;
      ActAllKeeps(s, job, actions[..n], now);
      var t := ActAll(s, job, actions[..n], now);
      match actions[n]
      case Note(event) => EmitFacts(t, job.id, event, now);
      case Annotate(fields) => UpsertFacts(t, job.id, Record(fields, []), now);
    }
  }

  lemma FailEnds(s: Store, job: Job, started: bool, code: Option<string>, error: string, now: string)
    requires job.id in s.runs
    requires Open(s, job.id, started) || Ended(s, job.id, started, "run.cancelled")
    ensures var t := Fail(s, job, code, error, now);
            && job.id in t.runs
            && Ended(t, job.id, started, if IsCancelled(s, job.id) then "run.cancelled" else "run.failed")
  {
    hide AppendEvent, Upsert, StatusOf, EventsOf, Milestones;
    var failed := RunEvent(job, "run.failed", code);
    EmitFacts(s, job.id, failed, now);
    UpsertFacts(AppendEvent(s, job.id, failed, now).0, job.id, Failed(job, error), now);
  }

  lemma FinishEnds(s: Store, job: Job, outputs: string, now: string)
    requires job.id in s.runs
    requires Open(s, job.id, true) || Ended(s, job.id, true, "run.cancelled")
    ensures var t := Finish(s, job, outputs, now);
            && job.id in t.runs
            && Ended(t, job.id, true, if IsCancelled(s, job.id) then "run.cancelled" else "run.complete")
  {
    hide AppendEvent, Upsert, StatusOf, EventsOf, Milestones;
    UpsertFacts(s, job.id, Succeeded(job, outputs), now);
    EmitFacts(Upsert(s, job.id, Succeeded(job, outputs), now), job.id, RunEvent(job, "run.complete", None), now);
  }

  /** A stretch keeps the run consistent, and cancelled exactly when it was. */
  lemma ProceedKeeps(s: Store, job: Job, st: Stretch, now: string)
    requires job.id in s.runs && Tame(st)
    requires Open(s, job.id, true) || Ended(s, job.id, true, "run.cancelled")
    ensures var (t, phase) := Proceed(s, job, st, now);
            && Consistent(World(t, phase), job.id)
            && (IsCancelled(t, job.id) <==> IsCancelled(s, job.id))
  {
    hide Finish, Fail, StatusOf, EventsOf, Milestones, ActAll;
    ActAllKeeps(s, job, st.actions, now);
    var acted := ActAll(s, job, st.actions, now);
    match st.ending
    case Waits =>
    case Raises(code, error) => FailEnds(acted, job, true, code, error, now);
    case Finishes(outputs) => FinishEnds(acted, job, outputs, now);
  }

  lemma BadInputsEnds(s: Store, job: Job, error: string, now: string)
    requires job.id in s.runs && Open(s, job.id, true)
    ensures var t := FinalizeFailure(Emit(s, job, "run.failed", Some("inputs_invalid"), now), job, error, now);
            job.id in t.runs && Ended(t, job.id, true, "run.failed")
  {
    hide AppendEvent, Upsert, StatusOf, EventsOf, Milestones;
    var failed := RunEvent(job, "run.failed", Some("inputs_invalid"));
    EmitFacts(s, job.id, failed, now);
    UpsertFacts(AppendEvent(s, job.id, failed, now).0, job.id, Failed(job, error), now);
  }

  /** A run cancelled before it started writes nothing; any other gets under way. */
  lemma BeginKeeps(w: World, job: Job, opening: Opening, now: string)
    requires w.phase.Fresh? || w.phase.Queued?
    requires Consistent(w, job.id)
    requires opening.Proceeds? ==> Tame(opening.stretch)
    ensures var (t, phase) := Begin(w.store, job, opening, now);
            && Consistent(World(t, phase), job.id)
            && (IsCancelled(t, job.id) <==> IsCancelled(w.store, job.id))
            && (IsCancelled(w.store, job.id) ==> t == w.store)
  {
    hide AppendEvent, Upsert, EventsOf, Milestones, Fail, Proceed, FinalizeFailure;
    FreshFacts(w.store, job.id);
    var begun := Upsert(w.store, job.id, Running(job), now);
    UpsertFacts(w.store, job.id, Running(job), now);
    if !IsCancelled(w.store, job.id) {
      assert Open(begun, job.id, false);
      var started := Emit(begun, job, "run.started", None, now);
      EmitFacts(begun, job.id, RunEvent(job, "run.started", None), now);
      assert Open(started, job.id, true);
      match opening
      case Refused(code, error) => FailEnds(begun, job, false, code, error, now);
      case BadInputs(error) => BadInputsEnds(started, job, error, now);
      case Proceeds(stretch) => ProceedKeeps(started, job, stretch, now);
    }
  }

  lemma FreshFacts(s: Store, id: string)
    ensures id !in s.runs ==> EventsOf(s, id) == [] && Milestones(EventsOf(s, id)) == [] && StatusOf(s, id) == None
  {
  }

  lemma CancelKeeps(w: World, job: Job, now: string)
    requires Consistent(w, job.id)
    ensures var w' := w.(store := Cancel(w.store, job, now));
            && Consistent(w', job.id)
            && (IsCancelled(w'.store, job.id) <==> IsCancelled(w.store, job.id) || w.phase.Queued? || w.phase.Suspended?)
            && (w.phase.Done? ==> w' == w)
  {
    hide AppendEvent, Upsert, EventsOf, Milestones, StatusOf;
    FreshFacts(w.store, job.id);
    UpsertFacts(w.store, job.id, CANCELLED, now);
    EmitFacts(Upsert(w.store, job.id, CANCELLED, now), job.id, RunEvent(job, "run.cancelled", None), now);
  }

  lemma ElsewhereKeeps(s: Store, id: string, other: string, write: Write, now: string)
    requires other != id
    ensures var t := Apply(s, other, write, now);
            && (id in t.runs <==> id in s.runs)
            && EventsOf(t, id) == EventsOf(s, id) && StatusOf(t, id) == StatusOf(s, id)
  {
  }

  lemma SameViewKeeps(w: World, t: Store, id: string)
    requires Consistent(w, id) && (id in t.runs <==> id in w.store.runs)
    requires StatusOf(t, id) == StatusOf(w.store, id)
    requires Milestones(EventsOf(t, id)) == Milestones(EventsOf(w.store, id))
    ensures Consistent(w.(store := t), id)
  {
    hide EventsOf, Milestones, StatusOf;
    if w.phase.Done? {
      var started, kind :| Ended(w.store, id, started, kind) && (kind == "run.complete" ==> started);
      assert Ended(t, id, started, kind);
    }
  }

  /** A cancel that reaches a run which exists and has not ended. */
  predicate Lands(w: World, step: Step) {
    step.CancelRun? && (w.phase.Queued? || w.phase.Suspended?)
  }

  lemma NextKeeps(w: World, job: Job, step: Step)
    requires Consistent(w, job.id) && Enabled(w, job, step)
    ensures var w' := Next(w, job, step);
            && Consistent(w', job.id)
            && (IsCancelled(w'.store, job.id) <==> IsCancelled(w.store, job.id) || Lands(w, step))
            && (w.phase.Done? ==> w'.phase.Done?
                                  && StatusOf(w'.store, job.id) == StatusOf(w.store, job.id)
                                  && Milestones(EventsOf(w'.store, job.id)) == Milestones(EventsOf(w.store, job.id)))
  {
    hide AppendEvent, Upsert, EventsOf, Milestones, StatusOf, Begin, Proceed, Cancel, Apply;
    var w' := Next(w, job, step);
    match step
    case Create(now) =>
      FreshFacts(w.store, job.id);
      UpsertFacts(w.store, job.id, Pending(job), now);
    case Start(opening, now) => BeginKeeps(w, job, opening, now);
    case Resume(stretch, now) => ProceedKeeps(w.store, job, stretch, now);
    case CancelRun(now) => CancelKeeps(w, job, now);
    case Telemetry(event, now) =>
      EmitFacts(w.store, job.id, event, now);
      SameViewKeeps(w, w'.store, job.id);
    case Elsewhere(other, write, now) =>
      ElsewhereKeeps(w.store, job.id, other, write, now);
      SameViewKeeps(w, w'.store, job.id);
  }

  lemma {:induction false} RunIsConsistent(job: Job, steps: seq<Step>, k: nat)
    requires k <= |steps| && Legal(job, steps)
    ensures Consistent(After(job, steps, k), job.id)
  {
    hide Next, Enabled;
    if k > 0 {
      RunIsConsistent(job, steps, k - 1);
      var m := k - 1;
      assert Enabled(After(job, steps, m), job, steps[m]);
      NextKeeps(After(job, steps, m), job, steps[m]);
    }
  }

  // ---- main results ----

  /** Every finished run has exactly one terminal event in its log, which is its last
      milestone (so no `run.started` follows it), and a status that matches it. */
  lemma OneTerminalOutcome(job: Job, steps: seq<Step>, k: nat)
    requires k <= |steps| && Legal(job, steps) && After(job, steps, k).phase.Done?
    ensures var s := After(job, steps, k).store;
            exists started, kind :: Ended(s, job.id, started, kind) && (kind == "run.complete" ==> started)
  {
    hide After;
    RunIsConsistent(job, steps, k);
  }

  /** The outcome of a finished run is never written again. */
  lemma {:induction false} OutcomeIsFinal(job: Job, steps: seq<Step>, j: nat, k: nat)
    requires j <= k <= |steps| && Legal(job, steps) && After(job, steps, j).phase.Done?
    ensures var before, after := After(job, steps, j).store, After(job, steps, k).store;
            && StatusOf(after, job.id) == StatusOf(before, job.id)
            && Milestones(EventsOf(after, job.id)) == Milestones(EventsOf(before, job.id))
            && After(job, steps, k).phase.Done?
  {
    hide Next, Enabled, StatusOf, EventsOf, Milestones;
    if j < k {
      var m := k - 1;
      OutcomeIsFinal(job, steps, j, m);
      RunIsConsistent(job, steps, m);
      assert Enabled(After(job, steps, m), job, steps[m]);
      NextKeeps(After(job, steps, m), job, steps[m]);
    }
  }

  /** Some cancel among the first k steps reached the run before it ended. */
  ghost predicate HasLanded(job: Job, steps: seq<Step>, k: nat)
    requires k <= |steps|
  {
    exists i :: 0 <= i < k && Lands(After(job, steps, i), steps[i])
  }

  lemma HasLandedStep(job: Job, steps: seq<Step>, k: nat)
    requires k < |steps|
    ensures HasLanded(job, steps, k + 1) <==> HasLanded(job, steps, k) || Lands(After(job, steps, k), steps[k])
  {
    hide After, Lands;
  }

  /** A run is cancelled exactly when some cancel reached it before it ended: neither the
      engine's own writes nor its failures take the cancellation back. */
  lemma {:induction false} CancelledIffACancelLanded(job: Job, steps: seq<Step>, k: nat)
    requires k <= |steps| && Legal(job, steps)
    ensures IsCancelled(After(job, steps, k).store, job.id) <==> HasLanded(job, steps, k)
  {
    hide Next, Enabled, HasLanded, Lands, Consistent;
    if k == 0 {
      NoneYet(job, steps);
    } else {
      var m := k - 1;
      CancelledIffACancelLanded(job, steps, m);
      HasLandedStep(job, steps, m);
      RunIsConsistent(job, steps, m);
      assert Enabled(After(job, steps, m), job, steps[m]);
      NextKeeps(After(job, steps, m), job, steps[m]);
    }
  }

  lemma NoneYet(job: Job, steps: seq<Step>)
    ensures !HasLanded(job, steps, 0) && !IsCancelled(After(job, steps, 0).store, job.id)
  {
  }

  // ---- what is written and what is logged ----

  /** The log entry of a lifecycle event of this run. */
  function Entry(job: Job, kind: string, code: Option<string>): Event {
    Event(kind, Some(job.id), code, None)
  }

  /** Field by field: the given ones, and the others as they were. */
  ghost predicate Writes(s: Store, t: Store, id: string, fields: map<string, string>) {
    && (forall field :: field in fields ==> FieldOf(t, id, field) == Some(fields[field]))
    && (forall field :: field !in fields && field != "created_at" ==> FieldOf(t, id, field) == FieldOf(s, id, field))
    && (FieldOf(s, id, "created_at").Some? && "created_at" !in fields ==> FieldOf(t, id, "created_at") == FieldOf(s, id, "created_at"))
    && (forall other :: other != id ==> EventsOf(t, other) == EventsOf(s, other))
    && (forall other, field :: other != id ==> FieldOf(t, other, field) == FieldOf(s, other, field))
  }

  lemma UpsertWrites(s: Store, id: string, fields: map<string, string>, now: string)
    ensures var t := Upsert(s, id, Record(fields, []), now);
            Writes(s, t, id, fields) && EventsOf(t, id) == EventsOf(s, id) && id in t.runs
  {
    hide Upsert, FieldOf, EventsOf;
    var t := Upsert(s, id, Record(fields, []), now);
    forall other, field
      ensures FieldOf(t, other, field)
              == (if other == id && field in fields then Some(fields[field])
                  else if FieldOf(s, other, field).Some? then FieldOf(s, other, field)
                  else if other == id && field == "created_at" then Some(now) else None)
      ensures EventsOf(t, other) == EventsOf(s, other)
    {
      UpsertOverlays(s, id, Record(fields, []), now, other, field);
      assert EventsOf(s, other) + [] == EventsOf(s, other);
    }
    UpsertFacts(s, id, Record(fields, []), now);
  }

  lemma AppendWrites(s: Store, id: string, e: Event, now: string)
    requires id in s.runs
    ensures var t := AppendEvent(s, id, e, now).0;
            Writes(s, t, id, map[]) && EventsOf(t, id) == EventsOf(s, id) + [e] && id in t.runs
  {
    hide AppendEvent, FieldOf, EventsOf;
    var t := AppendEvent(s, id, e, now).0;
    forall other, field
      ensures FieldOf(t, other, field) == FieldOf(s, other, field)
    {
      AppendLaw(s, id, e, now, other, field);
    }
    forall other | other != id
      ensures EventsOf(t, other) == EventsOf(s, other)
    {
      AppendLaw(s, id, e, now, other, "");
      assert EventsOf(s, other) + [] == EventsOf(s, other);
    }
    EmitFacts(s, id, e, now);
  }

  lemma WritesChain(s: Store, t: Store, u: Store, id: string, fields: map<string, string>)
    requires (Writes(s, t, id, fields) && Writes(t, u, id, map[])) || (Writes(s, t, id, map[]) && Writes(t, u, id, fields))
    ensures Writes(s, u, id, fields)
  {
    hide FieldOf, EventsOf;
  }

  /** A run that finishes uncancelled records its outputs and no error, and logs its completion. */
  lemma FinishWrites(s: Store, job: Job, outputs: string, now: string)
    requires job.id in s.runs
    ensures var t := Finish(s, job, outputs, now);
            if IsCancelled(s, job.id) then t == s
            else Writes(s, t, job.id, map["run_id" := job.id, "status" := "success", "scenario_ref" := job.scenario,
                                          "outputs" := outputs, "error" := "null"])
                 && EventsOf(t, job.id) == EventsOf(s, job.id) + [Entry(job, "run.complete", None)]
  {
    hide Writes, Upsert, AppendEvent, EventsOf;
    var fields := Succeeded(job, outputs).scalars;
    UpsertWrites(s, job.id, fields, now);
    var t := Upsert(s, job.id, Succeeded(job, outputs), now);
    AppendWrites(t, job.id, Entry(job, "run.complete", None), now);
    WritesChain(s, t, AppendEvent(t, job.id, Entry(job, "run.complete", None), now).0, job.id, fields);
  }

  /** A run that fails uncancelled records the error and no outputs, and logs the given code. */
  lemma FailWrites(s: Store, job: Job, code: Option<string>, error: string, now: string)
    requires job.id in s.runs
    ensures var t := Fail(s, job, code, error, now);
            if IsCancelled(s, job.id) then t == s
            else Writes(s, t, job.id, map["run_id" := job.id, "status" := "failed", "outputs" := "{}", "error" := error])
                 && EventsOf(t, job.id) == EventsOf(s, job.id) + [Entry(job, "run.failed", code)]
  {
    hide Writes, Upsert, AppendEvent, EventsOf, StatusOf;
    var fields := Failed(job, error).scalars;
    EmitFacts(s, job.id, Entry(job, "run.failed", code), now);
    AppendWrites(s, job.id, Entry(job, "run.failed", code), now);
    var t := AppendEvent(s, job.id, Entry(job, "run.failed", code), now).0;
    UpsertWrites(t, job.id, fields, now);
    WritesChain(s, t, Upsert(t, job.id, Failed(job, error), now), job.id, fields);
  }

  /** A cancel that lands changes the status alone, and logs it. */
  lemma CancelWrites(s: Store, job: Job, now: string)
    ensures var t := Cancel(s, job, now);
            if Cancellable(s, job.id)
            then Writes(s, t, job.id, map["status" := "cancelled"])
                 && EventsOf(t, job.id) == EventsOf(s, job.id) + [Entry(job, "run.cancelled", None)]
            else t == s
  {
    hide Writes, Upsert, AppendEvent, EventsOf, StatusOf;
    var fields := CANCELLED.scalars;
    UpsertWrites(s, job.id, fields, now);
    var t := Upsert(s, job.id, CANCELLED, now);
    AppendWrites(t, job.id, Entry(job, "run.cancelled", None), now);
    WritesChain(s, t, AppendEvent(t, job.id, Entry(job, "run.cancelled", None), now).0, job.id, fields);
  }

  function RunningFields(job: Job): map<string, string> {
    map["run_id" := job.id, "status" := "running", "scenario_ref" := job.scenario, "run_label" := job.runLabel,
        "outputs" := "{}", "error" := "null"]
  }

  /** A run that starts uncancelled records what was asked for and logs its start, and only
      then goes on; with bad inputs it logs the failure with its code right after. */
  lemma StartWrites(s: Store, job: Job, opening: Opening, now: string) returns (started: Store)
    requires !IsCancelled(s, job.id) && !opening.Refused?
    ensures job.id in started.runs && Writes(s, started, job.id, RunningFields(job))
    ensures EventsOf(started, job.id) == EventsOf(s, job.id) + [Entry(job, "run.started", None)]
    ensures opening.Proceeds? ==> Begin(s, job, opening, now) == Proceed(started, job, opening.stretch, now)
    ensures opening.BadInputs? ==>
              && EventsOf(Begin(s, job, opening, now).0, job.id)
                 == EventsOf(started, job.id) + [Entry(job, "run.failed", Some("inputs_invalid"))]
              && Begin(s, job, opening, now).1.Done?
  {
    hide Writes, Upsert, AppendEvent, EventsOf, StatusOf, Proceed;
    var begun := Upsert(s, job.id, Running(job), now);
    assert Running(job).scalars == RunningFields(job);
    UpsertWrites(s, job.id, RunningFields(job), now);
    UpsertFacts(s, job.id, Running(job), now);
    AppendWrites(begun, job.id, Entry(job, "run.started", None), now);
    started := AppendEvent(begun, job.id, Entry(job, "run.started", None), now).0;
    WritesChain(s, begun, started, job.id, RunningFields(job));
    EmitFacts(begun, job.id, Entry(job, "run.started", None), now);
    var failed := Entry(job, "run.failed", Some("inputs_invalid"));
    EmitFacts(started, job.id, failed, now);
    if opening.BadInputs? {
      UpsertFacts(AppendEvent(started, job.id, failed, now).0, job.id, Failed(job, opening.error), now);
    }
  }

  /** `POST /runs` records what was asked for as pending, and logs nothing. */
  lemma CreateWrites(w: World, job: Job, now: string)
    ensures var w' := Next(w, job, Create(now));
            && Writes(w.store, w'.store, job.id, RunningFields(job)["status" := "pending"])
            && EventsOf(w'.store, job.id) == EventsOf(w.store, job.id) && w'.phase == Queued
  {
    hide Writes, Upsert, EventsOf;
    assert Pending(job).scalars == RunningFields(job)["status" := "pending"];
    UpsertWrites(w.store, job.id, Pending(job).scalars, now);
  }

  /** The events among the actions, in order. */
  function Noted(actions: seq<Action>): seq<Event> {
    if actions == [] then []
    else
      var last := actions[|actions| - 1];
      Noted(actions[..|actions| - 1]) + if last.Note? then [last.event] else []
  }

  /** A stretch of the engine logs every one of its events once, in order. */
  lemma {:induction false} ActAllLogs(s: Store, job: Job, actions: seq<Action>, now: string)
    ensures EventsOf(ActAll(s, job, actions, now), job.id) == EventsOf(s, job.id) + Noted(actions)
  {
    hide AppendEvent, Upsert, EventsOf;
    if actions == [] {
      assert EventsOf(s, job.id) + [] == EventsOf(s, job.id);
    } else {
      var n := |actions| - 1;
      ActAllLogs(s, job, actions[..n], now);
      var t := ActAll(s, job, actions[..n], now);
      match actions[n]
      case Note(event) => EmitFacts(t, job.id, event, now);
      case Annotate(fields) =>
        UpsertFacts(t, job.id, Record(fields, []), now);
        assert Noted(actions) == Noted(actions[..n]);
    }
  }

  // ---- the engine and the cancel route on the store object ----

  datatype CancelAnswer = NotFound | AlreadyTerminal(status: string) | Cancelled

  method CancelRoute(store: RunStore, job: Job, now: string) returns (answer: CancelAnswer)
    modifies store`runs
    ensures store.State() == Cancel(old(store.State()), job, now)
    ensures answer.NotFound? <==> job.id !in old(store.runs)
    ensures answer.Cancelled? <==> Cancellable(old(store.State()), job.id)
    ensures answer.AlreadyTerminal? ==> StatusOf(store.State(), job.id) == Some(answer.status)
  {
    if job.id !in store.runs {
      return NotFound;
    }
    var scalars := store.runs[job.id].scalars;
    if "status" in scalars && scalars["status"] in TERMINAL_STATUSES {
      return AlreadyTerminal(scalars["status"]);
    }
    store.Merge(job.id, CANCELLED, now);
    var notify := store.Append(job.id, RunEvent(job, "run.cancelled", None), now);
    answer := Cancelled;
  }

  class ScenarioRunner {
    const store: RunStore

    constructor (store: RunStore)
      ensures this.store == store
    {
      this.store := store;
    }

    method Report(job: Job, kind: string, code: Option<string>, now: string)
      modifies store`runs
      ensures store.State() == Emit(old(store.State()), job, kind, code, now)
    {
      var notify := store.Append(job.id, RunEvent(job, kind, code), now);
    }

    method WasCancelled(job: Job) returns (yes: bool)
      ensures yes == IsCancelled(store.State(), job.id)
    {
      yes := job.id in store.runs && "status" in store.runs[job.id].scalars
             && store.runs[job.id].scalars["status"] == "cancelled";
    }

    method Conclude(job: Job, error: string, now: string)
      modifies store`runs
      ensures store.State() == FinalizeFailure(old(store.State()), job, error, now)
    {
      var cancelled := WasCancelled(job);
      if !cancelled {
        store.Merge(job.id, Failed(job, error), now);
      }
    }

    method ReportFailure(job: Job, code: Option<string>, error: string, now: string)
      modifies store`runs
      ensures store.State() == Fail(old(store.State()), job, code, error, now)
    {
      var cancelled := WasCancelled(job);
      if !cancelled {
        Report(job, "run.failed", code, now);
      }
      Conclude(job, error, now);
    }

    method Perform(job: Job, actions: seq<Action>, now: string)
      modifies store`runs
      ensures store.State() == ActAll(old(store.State()), job, actions, now)
    {
      for i := 0 to |actions|
        invariant store.State() == ActAll(old(store.State()), job, actions[..i], now)
      {
        assert actions[..i + 1][..i] == actions[..i];
        match actions[i] {
          case Note(event) => var notify := store.Append(job.id, event, now);
          case Annotate(fields) => store.Merge(job.id, Record(fields, []), now);
        }
      }
      assert actions[..|actions|] == actions;
    }

    /** From one await inside the `try` to the next, or to the end of the run. */
    method Go(job: Job, st: Stretch, now: string) returns (phase: Phase)
      modifies store`runs
      ensures (store.State(), phase) == Proceed(old(store.State()), job, st, now)
    {
      Perform(job, st.actions, now);
      match st.ending {
        case Waits =>
          phase := Suspended;
        case Raises(code, error) =>
          ReportFailure(job, code, error, now);
          phase := Done;
        case Finishes(outputs) =>
          var completed := store.MergeUnlessCancelled(job.id, Succeeded(job, outputs), now);
          if completed {
            Report(job, "run.complete", None, now);
          }
          phase := Done;
      }
    }

    method Run(job: Job, opening: Opening, now: string) returns (phase: Phase)
      modifies store`runs
      ensures (store.State(), phase) == Begin(old(store.State()), job, opening, now)
    {
      var written := store.MergeUnlessCancelled(job.id, Running(job), now);
      if !written {
        return Done;
      }
      if opening.Refused? {
        ReportFailure(job, opening.code, opening.error, now);
        return Done;
      }
      var cancelled := WasCancelled(job);
      if cancelled {
        Conclude(job, "cancelled before start", now);
        return Done;
      }
      Report(job, "run.started", None, now);
      if opening.BadInputs? {
        Report(job, "run.failed", Some("inputs_invalid"), now);
        Conclude(job, opening.error, now);
        return Done;
      }
      phase := Go(job, opening.stretch, now);
    }
  }
}
