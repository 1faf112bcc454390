/** A whole run against any number of `/runs/{id}/cancel` requests, at full thread
    granularity: every visit to the store is a step of its own
    (src/aitp_playground/runner/engine.py, src/aitp_playground/api/runs.py). A step reads or
    writes under the store's lock; what it read may be stale by the next one. */
module RunRaces {
  import opened RunStores
  import opened RunLifecycles
  import opened Wrappers

  /** How the engine would end the run if no cancel were there: refused before it starts,
      started on bad inputs, raising inside the `try`, or finishing. */
  datatype Plan =
    | ToRefuse(code: Option<string>, error: string)
    | ToBadInputs(error: string)
    | ToFail(code: Option<string>, error: string)
    | ToFinish(outputs: string)

  /** The engine's next visit to the store. */
  datatype Stage =
    | Opens            // the conditional `running` write
    | Looks            // `_is_cancelled`, before reporting a refusal or before starting
    | Starts           // emits `run.started`
    | Decides          // the look at the record after an exception
    | Completes        // the conditional `success` write
    | Reports          // emits `run.failed`
    | ReportsSuccess   // emits `run.complete`
    | LooksAgain       // `_is_cancelled` in `_finalize_failure`
    | Concludes        // the `failed` write
    | Over

  function Rank(s: Stage): nat {
    match s
    case Opens => 0
    case Looks => 1
    case Starts => 2
    case Decides => 3
    case Completes => 3
    case Reports => 4
    case ReportsSuccess => 4
    case LooksAgain => 5
    case Concludes => 6
    case Over => 7
  }

  /** One cancel request: it checks the status, writes `cancelled`, logs `run.cancelled`.
      It lands when its check found the record open; the stages are the engine's at the
      time of the write and of the event. */
  datatype Canceller = Canceller(pc: nat, lands: bool, markedAt: Stage, loggedAt: Stage)

  datatype Race = Race(store: Store, engine: Stage, started: bool, emits: bool, writes: bool, cancels: seq<Canceller>)

  /** An aside is any harmless write about the run by the engine, an agent or a webhook. */
  datatype Turn = Engine | Cancel(c: nat) | Aside(action: Action)

  /** The engine's last visit that can still see a cancel before it settles the ending. */
  function SettlesAt(plan: Plan): nat {
    if plan.ToRefuse? || plan.ToBadInputs? then 1 else 3
  }

  function EndingOf(plan: Plan): string {
    if plan.ToFinish? then "run.complete" else "run.failed"
  }

  function CodeFor(plan: Plan): Option<string> {
    match plan
    case ToRefuse(code, _) => code
    case ToBadInputs(_) => Some("inputs_invalid")
    case ToFail(code, _) => code
    case ToFinish(_) => None
  }

  function ErrorFor(plan: Plan): string {
    match plan
    case ToRefuse(_, error) => error
    case ToBadInputs(error) => error
    case ToFail(_, error) => error
    case ToFinish(_) => "cancelled before start"
  }

  function EngineMove(r: Race, job: Job, plan: Plan, now: string): Race {
    var cancelled := RunLifecycles.IsCancelled(r.store, job.id);
    match r.engine
    case Opens =>
      var (s, written) := UpsertUnlessCancelled(r.store, job.id, Running(job), now);
      r.(store := s, engine := if written then Looks else Over)
    case Looks =>
      if plan.ToRefuse? then r.(engine := Reports, emits := !cancelled)
      else r.(engine := if cancelled then LooksAgain else Starts)
    case Starts =>
      r.(store := Emit(r.store, job, "run.started", None, now), started := true,
         emits := plan.ToBadInputs?,
         engine := if plan.ToBadInputs? then Reports else if plan.ToFinish? then Completes else Decides)
    case Decides => r.(engine := Reports, emits := !cancelled)
    case Completes =>
      var outputs := if plan.ToFinish? then plan.outputs else "";
      var (s, written) := UpsertUnlessCancelled(r.store, job.id, Succeeded(job, outputs), now);
      r.(store := s, engine := ReportsSuccess, emits := written)
    case Reports =>
      r.(store := if r.emits then Emit(r.store, job, "run.failed", CodeFor(plan), now) else r.store, engine := LooksAgain)
    case ReportsSuccess =>
      r.(store := if r.emits then Emit(r.store, job, "run.complete", None, now) else r.store, engine := Over)
    case LooksAgain => r.(engine := Concludes, writes := !cancelled)
    case Concludes =>
      r.(store := if r.writes then Upsert(r.store, job.id, Failed(job, ErrorFor(plan)), now) else r.store, engine := Over)
    case Over => r
  }

  function CancelMove(r: Race, job: Job, c: nat, now: string): Race {
    if c >= |r.cancels| then r
    else
      var t := r.cancels[c];
      if t.pc == 0 then r.(cancels := r.cancels[c := t.(pc := 1, lands := Cancellable(r.store, job.id))])
      else if t.pc == 1 then
        r.(store := if t.lands then Upsert(r.store, job.id, CANCELLED, now) else r.store,
           cancels := r.cancels[c := t.(pc := 2, markedAt := r.engine)])
      else if t.pc == 2 then
        r.(store := if t.lands then Emit(r.store, job, "run.cancelled", None, now) else r.store,
           cancels := r.cancels[c := t.(pc := 3, loggedAt := r.engine)])
      else r
  }

  function Next(r: Race, job: Job, plan: Plan, turn: Turn, now: string): Race {
    match turn
    case Engine => EngineMove(r, job, plan, now)
    case Cancel(c) => CancelMove(r, job, c, now)
    case Aside(action) => if Harmless(action) then r.(store := Act(r.store, job, action, now)) else r
  }

  function Initial(s: Store, n: nat): Race {
    Race(s, Opens, false, false, false, seq(n, _ => Canceller(0, false, Opens, Opens)))
  }

  function After(s: Store, job: Job, plan: Plan, n: nat, turns: seq<Turn>, k: nat, now: string): Race
    requires k <= |turns|
  {
    if k == 0 then Initial(s, n) else Next(After(s, job, plan, n, turns, k - 1, now), job, plan, turns[k - 1], now)
  }

  /** All threads through, the run must have one outcome. */
  ghost predicate OneOutcome(s: Store, id: string) {
    exists started, kind :: Ended(s, id, started, kind)
  }

  predicate AllThrough(r: Race) {
    r.engine.Over? && forall c :: 0 <= c < |r.cancels| ==> r.cancels[c].pc == 3
  }

  /** How many cancels landed and got at least as far as `pc`. */
  function Landed(cancels: seq<Canceller>, pc: nat): nat {
    if cancels == [] then 0
    else
      var last := cancels[|cancels| - 1];
      Landed(cancels[..|cancels| - 1], pc) + if last.lands && last.pc >= pc then 1 else 0
  }

  predicate Marked(t: Canceller) {
    t.lands && t.pc >= 2
  }

  predicate AnyMarked(cancels: seq<Canceller>) {
    exists c :: 0 <= c < |cancels| && Marked(cancels[c])
  }

  /** Some cancel wrote its status while the engine was at that visit or before it. */
  predicate MarkedBy(cancels: seq<Canceller>, rank: nat) {
    exists c :: 0 <= c < |cancels| && Marked(cancels[c]) && Rank(cancels[c].markedAt) <= rank
  }

  /** Some landed cancel logged its event before the engine's visit that emits `run.started`. */
  predicate LoggedBeforeStart(cancels: seq<Canceller>) {
    exists c :: 0 <= c < |cancels| && cancels[c].lands && cancels[c].pc >= 3 && Rank(cancels[c].loggedAt) <= 2
  }

  // ---- counting ----

  lemma {:induction false} LandedUpdate(cancels: seq<Canceller>, c: nat, t: Canceller, pc: nat)
    requires c < |cancels|
    ensures Landed(cancels[c := t], pc)
            == Landed(cancels, pc) - (if cancels[c].lands && cancels[c].pc >= pc then 1 else 0)
               + if t.lands && t.pc >= pc then 1 else 0
  {
    var n := |cancels| - 1;
    if c == n {
      assert cancels[c := t][..n] == cancels[..n];
    } else {
      LandedUpdate(cancels[..n], c, t, pc);
      assert cancels[c := t][..n] == cancels[..n][c := t];
    }
  }

  lemma {:induction false} NoneLanded(cancels: seq<Canceller>, pc: nat)
    ensures Landed(cancels, pc) == 0 <==> forall c :: 0 <= c < |cancels| ==> !(cancels[c].lands && cancels[c].pc >= pc)
  {
    if cancels != [] {
      var n := |cancels| - 1;
      NoneLanded(cancels[..n], pc);
      assert forall c :: 0 <= c < n ==> cancels[..n][c] == cancels[c];
    }
  }

  // ---- what every step keeps ----

  predicate Closed(engine: Stage) {
    engine.ReportsSuccess? || engine.Over?
  }

  /** The engine has emitted its own terminal event. */
  predicate HasReported(r: Race) {
    r.emits && Rank(r.engine) >= 5
  }

  ghost predicate LogTells(r: Race, job: Job, plan: Plan) {
    var log := Milestones(EventsOf(r.store, job.id));
    var mine, theirs := HasReported(r), Landed(r.cancels, 3);
    && |log| == (if r.started then 1 else 0) + (if mine then 1 else 0) + theirs
    && (!r.started ==> "run.started" !in log)
    && (theirs == 0 ==> log == (if r.started then ["run.started"] else []) + (if mine then [EndingOf(plan)] else []))
    && (theirs == 1 && !mine ==>
          log == if !r.started then ["run.cancelled"]
                 else if LoggedBeforeStart(r.cancels) then ["run.cancelled", "run.started"]
                 else ["run.started", "run.cancelled"])
  }

  ghost predicate StatusTells(r: Race, job: Job, plan: Plan) {
    var status := StatusOf(r.store, job.id);
    && (MarkedBy(r.cancels, SettlesAt(plan)) ==> status == Some("cancelled"))
    && (!AnyMarked(r.cancels) && Closed(r.engine) ==> status == Some(StatusFor(EndingOf(plan))))
    && (status.Some? && status.value in TERMINAL_STATUSES <==> AnyMarked(r.cancels) || Closed(r.engine))
    && (!Closed(r.engine) ==> (status == Some("cancelled") <==> AnyMarked(r.cancels)))
  }

  /** The stages a plan goes through, and what the engine has decided at each. */
  ghost predicate EngineTells(r: Race, plan: Plan) {
    var early, seen := MarkedBy(r.cancels, SettlesAt(plan)), MarkedBy(r.cancels, 1);
    && (r.engine.Starts? ==> !plan.ToRefuse? && !r.started && !seen)
    && (r.engine.Decides? ==> plan.ToFail? && r.started)
    && ((r.engine.Completes? || r.engine.ReportsSuccess?) ==> plan.ToFinish? && r.started)
    && (r.engine.Reports? ==> !plan.ToFinish?)
    && (Rank(r.engine) <= 2 ==> !r.started) && (Rank(r.engine) <= 3 ==> !r.emits)
    && (r.started ==> !plan.ToRefuse? && !seen)
    && (Rank(r.engine) >= 4 ==> (r.emits <==> !early))
    && (Rank(r.engine) >= 3 && !seen && !plan.ToRefuse? ==> r.started)
    && (plan.ToFinish? && (r.engine.LooksAgain? || r.engine.Concludes?) ==> seen)
    && (r.engine.Concludes? ==> (early ==> !r.writes) && (!r.writes ==> AnyMarked(r.cancels)))
  }

  ghost predicate CancelsTell(cancels: seq<Canceller>, engine: Stage) {
    forall c :: 0 <= c < |cancels| ==>
      var t := cancels[c];
      && t.pc <= 3 && (t.lands ==> t.pc >= 1)
      && (t.pc >= 2 ==> Rank(t.markedAt) <= Rank(engine))
      && (t.pc >= 3 ==> Rank(t.loggedAt) <= Rank(engine))
  }

  ghost predicate Inv(r: Race, job: Job, plan: Plan) {
    job.id in r.store.runs && EngineTells(r, plan) && CancelsTell(r.cancels, r.engine) && LogTells(r, job, plan) && StatusTells(r, job, plan)
  }

  /** Every mark so far was made by the engine's present stage. */
  lemma MarksAreByNow(r: Race)
    requires CancelsTell(r.cancels, r.engine)
    ensures forall rank: nat :: Rank(r.engine) <= rank ==> (MarkedBy(r.cancels, rank) <==> AnyMarked(r.cancels))
    ensures forall low: nat, high: nat :: low <= high && MarkedBy(r.cancels, low) ==> MarkedBy(r.cancels, high)
    ensures forall rank: nat :: MarkedBy(r.cancels, rank) ==> AnyMarked(r.cancels)
  {
    forall rank: nat | Rank(r.engine) <= rank && AnyMarked(r.cancels)
      ensures MarkedBy(r.cancels, rank)
    {
      var c :| 0 <= c < |r.cancels| && Marked(r.cancels[c]);
    }
  }

  lemma LogsAreByNow(r: Race)
    requires CancelsTell(r.cancels, r.engine)
    ensures Landed(r.cancels, 3) > 0 && Rank(r.engine) <= 2 ==> LoggedBeforeStart(r.cancels)
  {
    NoneLanded(r.cancels, 3);
  }

  lemma TellsAhead(cancels: seq<Canceller>, engine: Stage, later: Stage)
    requires CancelsTell(cancels, engine) && Rank(engine) <= Rank(later)
    ensures CancelsTell(cancels, later)
  {
  }

  lemma OpeningKeeps(r: Race, job: Job, plan: Plan, now: string)
    requires Inv(r, job, plan) && (r.engine.Opens?)
    ensures Inv(EngineMove(r, job, plan, now), job, plan)
  {
    hide AppendEvent, Upsert, StatusOf, EventsOf, Milestones, Landed, Marked, AnyMarked, MarkedBy, LoggedBeforeStart, CancelsTell;
    MarksAreByNow(r);
    TellsAhead(r.cancels, r.engine, EngineMove(r, job, plan, now).engine);
    UpsertFacts(r.store, job.id, Running(job), now);
  }

  /** The three looks write nothing. */
  lemma LooksKeep(r: Race, job: Job, plan: Plan, now: string)
    requires Inv(r, job, plan) && (r.engine.Looks? || r.engine.Decides? || r.engine.LooksAgain? || r.engine.Over?)
    ensures Inv(EngineMove(r, job, plan, now), job, plan)
  {
    hide AppendEvent, Upsert, StatusOf, EventsOf, Milestones, Landed, Marked, AnyMarked, MarkedBy, LoggedBeforeStart, CancelsTell;
    MarksAreByNow(r);
    TellsAhead(r.cancels, r.engine, EngineMove(r, job, plan, now).engine);
  }

  lemma StartKeeps(r: Race, job: Job, plan: Plan, now: string)
    requires Inv(r, job, plan) && (r.engine.Starts?)
    ensures Inv(EngineMove(r, job, plan, now), job, plan)
  {
    hide AppendEvent, Upsert, StatusOf, EventsOf, Milestones, Landed, Marked, AnyMarked, MarkedBy, LoggedBeforeStart, CancelsTell;
    MarksAreByNow(r);
    TellsAhead(r.cancels, r.engine, EngineMove(r, job, plan, now).engine);
    LogsAreByNow(r);
    EmitFacts(r.store, job.id, RunLifecycles.RunEvent(job, "run.started", None), now);
  }

  lemma CompletionKeeps(r: Race, job: Job, plan: Plan, now: string)
    requires Inv(r, job, plan) && (r.engine.Completes?)
    ensures Inv(EngineMove(r, job, plan, now), job, plan)
  {
    hide AppendEvent, Upsert, StatusOf, EventsOf, Milestones, Landed, Marked, AnyMarked, MarkedBy, LoggedBeforeStart, CancelsTell;
    MarksAreByNow(r);
    TellsAhead(r.cancels, r.engine, EngineMove(r, job, plan, now).engine);
    UpsertFacts(r.store, job.id, Succeeded(job, plan.outputs), now);
  }

  lemma ReportKeeps(r: Race, job: Job, plan: Plan, now: string)
    requires Inv(r, job, plan) && (r.engine.Reports? || r.engine.ReportsSuccess?)
    ensures Inv(EngineMove(r, job, plan, now), job, plan)
  {
    hide AppendEvent, Upsert, StatusOf, EventsOf, Milestones, Landed, Marked, AnyMarked, MarkedBy, LoggedBeforeStart, CancelsTell;
    MarksAreByNow(r);
    TellsAhead(r.cancels, r.engine, EngineMove(r, job, plan, now).engine);
    EmitFacts(r.store, job.id, RunLifecycles.RunEvent(job, "run.failed", CodeFor(plan)), now);
    EmitFacts(r.store, job.id, RunLifecycles.RunEvent(job, "run.complete", None), now);
  }

  lemma ConclusionKeeps(r: Race, job: Job, plan: Plan, now: string)
    requires Inv(r, job, plan) && (r.engine.Concludes?)
    ensures Inv(EngineMove(r, job, plan, now), job, plan)
  {
    hide AppendEvent, Upsert, StatusOf, EventsOf, Milestones, Landed, Marked, AnyMarked, MarkedBy, LoggedBeforeStart, CancelsTell;
    MarksAreByNow(r);
    TellsAhead(r.cancels, r.engine, EngineMove(r, job, plan, now).engine);
    UpsertFacts(r.store, job.id, Failed(job, ErrorFor(plan)), now);
  }

  lemma EngineKeeps(r: Race, job: Job, plan: Plan, now: string)
    requires Inv(r, job, plan)
    ensures Inv(EngineMove(r, job, plan, now), job, plan)
  {
    hide Inv, EngineMove;
    match r.engine
    case Opens => OpeningKeeps(r, job, plan, now);
    case Starts => StartKeeps(r, job, plan, now);
    case Completes => CompletionKeeps(r, job, plan, now);
    case Reports => ReportKeeps(r, job, plan, now);
    case ReportsSuccess => ReportKeeps(r, job, plan, now);
    case Concludes => ConclusionKeeps(r, job, plan, now);
    case _ => LooksKeep(r, job, plan, now);
  }

  lemma MarksUpdate(cancels: seq<Canceller>, c: nat, t: Canceller)
    requires c < |cancels| && (Marked(cancels[c]) ==> Marked(t) && t.markedAt == cancels[c].markedAt)
    ensures AnyMarked(cancels[c := t]) <==> AnyMarked(cancels) || Marked(t)
    ensures forall rank: nat :: MarkedBy(cancels[c := t], rank) <==> MarkedBy(cancels, rank) || (Marked(t) && Rank(t.markedAt) <= rank)
  {
    hide Marked, Rank;
    var after := cancels[c := t];
    assert forall d :: 0 <= d < |cancels| && d != c ==> after[d] == cancels[d];
    assert after[c] == t;
    if AnyMarked(cancels) {
      var d :| 0 <= d < |cancels| && Marked(cancels[d]);
      assert Marked(after[d]);
    }
    forall rank: nat | MarkedBy(cancels, rank)
      ensures MarkedBy(after, rank)
    {
      var d :| 0 <= d < |cancels| && Marked(cancels[d]) && Rank(cancels[d].markedAt) <= rank;
      assert Marked(after[d]) && Rank(after[d].markedAt) <= rank;
    }
  }

  lemma LogsUpdate(cancels: seq<Canceller>, c: nat, t: Canceller)
    requires c < |cancels| && cancels[c].pc < 3
    ensures LoggedBeforeStart(cancels[c := t])
            <==> LoggedBeforeStart(cancels) || (t.lands && t.pc >= 3 && Rank(t.loggedAt) <= 2)
  {
    hide Rank;
    var after := cancels[c := t];
    assert forall d :: 0 <= d < |cancels| && d != c ==> after[d] == cancels[d];
    assert after[c] == t;
    if LoggedBeforeStart(cancels) {
      var d :| 0 <= d < |cancels| && cancels[d].lands && cancels[d].pc >= 3 && Rank(cancels[d].loggedAt) <= 2;
      assert after[d].lands && after[d].pc >= 3 && Rank(after[d].loggedAt) <= 2;
    }
  }

  lemma CancelsTellUpdate(cancels: seq<Canceller>, engine: Stage, c: nat, t: Canceller)
    requires CancelsTell(cancels, engine) && c < |cancels|
    requires t.pc <= 3 && (t.lands ==> t.pc >= 1)
    requires (t.pc >= 2 ==> Rank(t.markedAt) <= Rank(engine)) && (t.pc >= 3 ==> Rank(t.loggedAt) <= Rank(engine))
    ensures CancelsTell(cancels[c := t], engine)
  {
    hide Rank;
  }

  /** The check moves nothing but the canceller. */
  lemma CheckKeeps(r: Race, job: Job, plan: Plan, c: nat, now: string)
    requires Inv(r, job, plan) && c < |r.cancels| && r.cancels[c].pc == 0
    ensures Inv(CancelMove(r, job, c, now), job, plan)
  {
    hide StatusOf, EventsOf, Milestones, Landed, AnyMarked, MarkedBy, LoggedBeforeStart, CancelsTell, Cancellable;
    var t := r.cancels[c].(pc := 1, lands := Cancellable(r.store, job.id));
    CancelsTellAt(r, c);
    CancelsTellUpdate(r.cancels, r.engine, c, t);
    LandedUpdate(r.cancels, c, t, 3);
    MarksUpdate(r.cancels, c, t);
    LogsUpdate(r.cancels, c, t);
  }

  lemma CancelsTellAt(r: Race, c: nat)
    requires CancelsTell(r.cancels, r.engine) && c < |r.cancels|
    ensures r.cancels[c].pc <= 3 && (r.cancels[c].pc == 0 ==> !r.cancels[c].lands)
    ensures r.cancels[c].pc >= 2 ==> Rank(r.cancels[c].markedAt) <= Rank(r.engine)
  {
  }

  lemma MarkKeeps(r: Race, job: Job, plan: Plan, c: nat, now: string)
    requires Inv(r, job, plan) && c < |r.cancels| && r.cancels[c].pc == 1
    ensures Inv(CancelMove(r, job, c, now), job, plan)
  {
    hide StatusOf, EventsOf, Milestones, Landed, AnyMarked, MarkedBy, LoggedBeforeStart, CancelsTell, Upsert;
    var t := r.cancels[c].(pc := 2, markedAt := r.engine);
    CancelsTellUpdate(r.cancels, r.engine, c, t);
    LandedUpdate(r.cancels, c, t, 3);
    MarksUpdate(r.cancels, c, t);
    LogsUpdate(r.cancels, c, t);
    UpsertFacts(r.store, job.id, CANCELLED, now);
  }

  lemma LogKeeps(r: Race, job: Job, plan: Plan, c: nat, now: string)
    requires Inv(r, job, plan) && c < |r.cancels| && r.cancels[c].pc == 2
    ensures Inv(CancelMove(r, job, c, now), job, plan)
  {
    hide StatusOf, EventsOf, Milestones, Landed, AnyMarked, MarkedBy, LoggedBeforeStart, CancelsTell, AppendEvent;
    var t := r.cancels[c].(pc := 3, loggedAt := r.engine);
    CancelsTellAt(r, c);
    CancelsTellUpdate(r.cancels, r.engine, c, t);
    LandedUpdate(r.cancels, c, t, 3);
    MarksUpdate(r.cancels, c, t);
    LogsUpdate(r.cancels, c, t);
    MarkedSoFar(r.cancels, c);
    NoneLogged(r.cancels);
    EmitFacts(r.store, job.id, RunLifecycles.RunEvent(job, "run.cancelled", None), now);
  }

  lemma MarkedSoFar(cancels: seq<Canceller>, c: nat)
    requires c < |cancels|
    ensures Marked(cancels[c]) ==> AnyMarked(cancels) && forall rank: nat :: Rank(cancels[c].markedAt) <= rank ==> MarkedBy(cancels, rank)
  {
  }

  lemma NoneLogged(cancels: seq<Canceller>)
    ensures Landed(cancels, 3) == 0 ==> !LoggedBeforeStart(cancels)
  {
    NoneLanded(cancels, 3);
  }

  lemma CancelKeepsRace(r: Race, job: Job, plan: Plan, c: nat, now: string)
    requires Inv(r, job, plan)
    ensures Inv(CancelMove(r, job, c, now), job, plan)
  {
    hide Inv;
    if c < |r.cancels| {
      if r.cancels[c].pc == 0 {
        CheckKeeps(r, job, plan, c, now);
      } else if r.cancels[c].pc == 1 {
        MarkKeeps(r, job, plan, c, now);
      } else if r.cancels[c].pc == 2 {
        LogKeeps(r, job, plan, c, now);
      }
    }
  }

  lemma AsideKeeps(r: Race, job: Job, plan: Plan, action: Action, now: string)
    requires Inv(r, job, plan) && Harmless(action)
    ensures Inv(r.(store := Act(r.store, job, action, now)), job, plan)
  {
    hide AppendEvent, Upsert, StatusOf, EventsOf, Milestones, Landed, AnyMarked, MarkedBy, LoggedBeforeStart;
    match action
    case Note(event) => EmitFacts(r.store, job.id, event, now);
    case Annotate(fields) => UpsertFacts(r.store, job.id, Record(fields, []), now);
  }

  lemma {:induction false} RaceKeeps(s: Store, job: Job, plan: Plan, n: nat, turns: seq<Turn>, k: nat, now: string)
    requires k <= |turns| && job.id in s.runs && Open(s, job.id, false)
    ensures Inv(After(s, job, plan, n, turns, k, now), job, plan)
  {
    hide EngineMove, CancelMove, Act, Inv, Initial;
    if k == 0 {
      RaceStarts(s, job, plan, n);
    } else {
      RaceKeeps(s, job, plan, n, turns, k - 1, now);
      var r := After(s, job, plan, n, turns, k - 1, now);
      match turns[k - 1]
      case Engine => EngineKeeps(r, job, plan, now);
      case Cancel(c) => CancelKeepsRace(r, job, plan, c, now);
      case Aside(action) => if Harmless(action) { AsideKeeps(r, job, plan, action, now); }
    }
  }

  lemma RaceStarts(s: Store, job: Job, plan: Plan, n: nat)
    requires job.id in s.runs && Open(s, job.id, false)
    ensures Inv(Initial(s, n), job, plan)
  {
    hide Landed, StatusOf, EventsOf, Milestones;
    NoneLanded(Initial(s, n).cancels, 3);
  }

  // ---- main results ----

  /** When a cancel lands: no other has written `cancelled` yet, and the engine's terminal
      status is not there yet. */
  lemma LandsIff(s: Store, job: Job, plan: Plan, n: nat, turns: seq<Turn>, k: nat, c: nat, now: string)
    requires k <= |turns| && job.id in s.runs && Open(s, job.id, false)
    requires var r := After(s, job, plan, n, turns, k, now); c < |r.cancels| && r.cancels[c].pc == 0
    ensures var r := After(s, job, plan, n, turns, k, now);
            CancelMove(r, job, c, now).cancels[c].lands <==> !AnyMarked(r.cancels) && !Closed(r.engine)
  {
    hide After, StatusOf, EventsOf, Milestones, Landed, AnyMarked, MarkedBy;
    RaceKeeps(s, job, plan, n, turns, k, now);
  }

  /** The engine saw the only cancel in time, and that cancel's event came after `run.started`
      if the run started at all. */
  predicate OneCancelInTime(r: Race, plan: Plan) {
    && Landed(r.cancels, 1) == 1 && MarkedBy(r.cancels, SettlesAt(plan))
    && !(r.started && LoggedBeforeStart(r.cancels))
  }

  /** Main result: from the pending record on, whatever the schedule, however many cancels
      and however the engine would end the run, the run gets one terminal event, as its last
      milestone, and the status that matches it exactly when no cancel landed, or a single
      one did, wrote its status before the engine's settling look, and did not log its event
      between the engine's look and its `run.started`. */
  lemma OneOutcomeIff(s: Store, job: Job, plan: Plan, n: nat, turns: seq<Turn>, now: string)
    requires job.id in s.runs && Open(s, job.id, false)
    requires AllThrough(After(s, job, plan, n, turns, |turns|, now))
    ensures var r := After(s, job, plan, n, turns, |turns|, now);
            OneOutcome(r.store, job.id) <==> Landed(r.cancels, 1) == 0 || OneCancelInTime(r, plan)
    ensures var r := After(s, job, plan, n, turns, |turns|, now);
            |Milestones(EventsOf(r.store, job.id))|
            == (if r.started then 1 else 0) + Landed(r.cancels, 1) + if MarkedBy(r.cancels, SettlesAt(plan)) then 0 else 1
  {
    hide After, StatusOf, EventsOf, Milestones, Landed, MarkedBy, AnyMarked, LoggedBeforeStart;
    RaceKeeps(s, job, plan, n, turns, |turns|, now);
    var r := After(s, job, plan, n, turns, |turns|, now);
    AllThroughLanded(r.cancels);
    if Landed(r.cancels, 1) == 0 {
      UnmarkedWithoutLanding(r.cancels);
      assert Ended(r.store, job.id, r.started, EndingOf(plan));
    } else if OneCancelInTime(r, plan) {
      assert Ended(r.store, job.id, r.started, "run.cancelled");
    } else {
      TwoEndings(r, job, plan);
    }
  }

  lemma TwoEndings(r: Race, job: Job, plan: Plan)
    requires Inv(r, job, plan) && r.engine.Over? && Landed(r.cancels, 1) == Landed(r.cancels, 3) >= 1 && !OneCancelInTime(r, plan)
    ensures !OneOutcome(r.store, job.id)
  {
    hide StatusOf, EventsOf, Milestones, Landed, MarkedBy, AnyMarked, LoggedBeforeStart;
    var log := Milestones(EventsOf(r.store, job.id));
    assert forall kind :: ["run.started", kind][0] == "run.started";
  }

  lemma {:induction false} AllThroughLanded(cancels: seq<Canceller>)
    requires forall c :: 0 <= c < |cancels| ==> cancels[c].pc == 3
    ensures Landed(cancels, 1) == Landed(cancels, 3)
  {
    if cancels != [] {
      AllThroughLanded(cancels[..|cancels| - 1]);
    }
  }

  lemma UnmarkedWithoutLanding(cancels: seq<Canceller>)
    requires Landed(cancels, 1) == 0
    ensures !AnyMarked(cancels) && forall rank: nat :: !MarkedBy(cancels, rank)
  {
    NoneLanded(cancels, 1);
  }

  // ---- schedules that fail ----

  /** What a run with one cancel comes to, the store left out. */
  datatype Shadow = Shadow(engine: Stage, started: bool, cancel: Canceller)

  function ShadowEngine(plan: Plan, h: Shadow): Shadow {
    var marked := Marked(h.cancel);
    match h.engine
    case Opens => h.(engine := if marked then Over else Looks)
    case Looks => h.(engine := if plan.ToRefuse? then Reports else if marked then LooksAgain else Starts)
    case Starts => h.(started := true, engine := if plan.ToBadInputs? then Reports else if plan.ToFinish? then Completes else Decides)
    case Decides => h.(engine := Reports)
    case Completes => h.(engine := ReportsSuccess)
    case Reports => h.(engine := LooksAgain)
    case ReportsSuccess => h.(engine := Over)
    case LooksAgain => h.(engine := Concludes)
    case Concludes => h.(engine := Over)
    case Over => h
  }

  function ShadowCancel(h: Shadow): Shadow {
    var t := h.cancel;
    if t.pc == 0 then h.(cancel := t.(pc := 1, lands := !Closed(h.engine)))
    else if t.pc == 1 then h.(cancel := t.(pc := 2, markedAt := h.engine))
    else if t.pc == 2 then h.(cancel := t.(pc := 3, loggedAt := h.engine))
    else h
  }

  function ShadowAfter(plan: Plan, turns: seq<Turn>, k: nat): Shadow
    requires k <= |turns|
  {
    if k == 0 then Shadow(Opens, false, Canceller(0, false, Opens, Opens))
    else
      var h := ShadowAfter(plan, turns, k - 1);
      match turns[k - 1]
      case Engine => ShadowEngine(plan, h)
      case Cancel(c) => if c == 0 then ShadowCancel(h) else h
      case Aside(_) => h
  }

  lemma OnlyOne(cancels: seq<Canceller>)
    requires |cancels| == 1
    ensures AnyMarked(cancels) <==> Marked(cancels[0])
    ensures forall rank: nat :: MarkedBy(cancels, rank) <==> Marked(cancels[0]) && Rank(cancels[0].markedAt) <= rank
    ensures Landed(cancels, 1) == if cancels[0].lands && cancels[0].pc >= 1 then 1 else 0
    ensures LoggedBeforeStart(cancels) <==> cancels[0].lands && cancels[0].pc >= 3 && Rank(cancels[0].loggedAt) <= 2
  {
  }

  lemma ShadowStep(r: Race, job: Job, plan: Plan, turn: Turn, now: string)
    requires Inv(r, job, plan) && |r.cancels| == 1
    ensures var r' := Next(r, job, plan, turn, now);
            var h := Shadow(r.engine, r.started, r.cancels[0]);
            |r'.cancels| == 1 && Shadow(r'.engine, r'.started, r'.cancels[0])
                                 == match turn
                                    case Engine => ShadowEngine(plan, h)
                                    case Cancel(c) => if c == 0 then ShadowCancel(h) else h
                                    case Aside(_) => h
  {
    hide AppendEvent, Upsert, StatusOf, EventsOf, Milestones, Landed, AnyMarked, MarkedBy, LoggedBeforeStart, Marked;
    OnlyOne(r.cancels);
    NotMarkedAtFirst(r.cancels[0]);
  }

  lemma NotMarkedAtFirst(t: Canceller)
    ensures t.pc < 2 ==> !Marked(t)
  {
  }

  lemma {:induction false} ShadowAgrees(s: Store, job: Job, plan: Plan, turns: seq<Turn>, k: nat, now: string)
    requires k <= |turns| && job.id in s.runs && Open(s, job.id, false)
    ensures var r := After(s, job, plan, 1, turns, k, now);
            |r.cancels| == 1 && Shadow(r.engine, r.started, r.cancels[0]) == ShadowAfter(plan, turns, k)
  {
    hide Next, Inv, ShadowEngine, ShadowCancel;
    if k > 0 {
      ShadowAgrees(s, job, plan, turns, k - 1, now);
      RaceKeeps(s, job, plan, 1, turns, k - 1, now);
      ShadowStep(After(s, job, plan, 1, turns, k - 1, now), job, plan, turns[k - 1], now);
    }
  }

  /** One cancel that landed, and was not in time or logged before `run.started`. */
  predicate Fails(plan: Plan, h: Shadow) {
    && h.engine.Over? && h.cancel.pc == 3 && h.cancel.lands
    && (Rank(h.cancel.markedAt) > SettlesAt(plan) || (h.started && Rank(h.cancel.loggedAt) <= 2))
  }

  lemma FailingSchedule(s: Store, job: Job, plan: Plan, turns: seq<Turn>, now: string)
    requires job.id in s.runs && Open(s, job.id, false) && Fails(plan, ShadowAfter(plan, turns, |turns|))
    ensures !OneOutcome(After(s, job, plan, 1, turns, |turns|, now).store, job.id)
  {
    hide After, OneOutcome, Landed, MarkedBy, LoggedBeforeStart, ShadowAfter;
    ShadowAgrees(s, job, plan, turns, |turns|, now);
    OnlyOne(After(s, job, plan, 1, turns, |turns|, now).cancels);
    OneOutcomeIff(s, job, plan, 1, turns, now);
  }

  lemma ShadowTurn(plan: Plan, turns: seq<Turn>, k: nat)
    requires k < |turns|
    ensures ShadowAfter(plan, turns, 0) == Shadow(Opens, false, Canceller(0, false, Opens, Opens))
    ensures ShadowAfter(plan, turns, k + 1)
            == match turns[k]
               case Engine => ShadowEngine(plan, ShadowAfter(plan, turns, k))
               case Cancel(c) => if c == 0 then ShadowCancel(ShadowAfter(plan, turns, k)) else ShadowAfter(plan, turns, k)
               case Aside(_) => ShadowAfter(plan, turns, k)
  {
  }

  /** The cancel checks the status, the run completes, the cancel writes: two endings. */
  lemma CancelOverSuccess(s: Store, job: Job, outputs: string, now: string)
    requires job.id in s.runs && Open(s, job.id, false)
    ensures var turns := [Engine, Engine, Engine, Cancel(0), Engine, Engine, Cancel(0), Cancel(0)];
            !OneOutcome(After(s, job, ToFinish(outputs), 1, turns, 8, now).store, job.id)
  {
    hide After, OneOutcome, ShadowAfter, Open;
    var plan, turns := ToFinish(outputs), [Engine, Engine, Engine, Cancel(0), Engine, Engine, Cancel(0), Cancel(0)];
    ShadowTurn(plan, turns, 0);
    ShadowTurn(plan, turns, 1);
    ShadowTurn(plan, turns, 2);
    ShadowTurn(plan, turns, 3);
    ShadowTurn(plan, turns, 4);
    ShadowTurn(plan, turns, 5);
    ShadowTurn(plan, turns, 6);
    ShadowTurn(plan, turns, 7);
    assert ShadowAfter(plan, turns, 8) == Shadow(Over, true, Canceller(3, true, Over, Over));
    FailingSchedule(s, job, plan, turns, now);
  }

  /** The engine is about to write `failed`, having found no cancel: what a cancel does now
      is overwritten. */
  lemma ConclusionOverwrites(s: Store, job: Job, plan: Plan, turns: seq<Turn>, k: nat, now: string)
    requires job.id in s.runs && Open(s, job.id, false) && !plan.ToFinish?
    requires |turns| == k + 4 && turns[k..] == [Cancel(0), Cancel(0), Cancel(0), Engine]
    requires ShadowAfter(plan, turns, k).engine.Concludes? && ShadowAfter(plan, turns, k).cancel.pc == 0
    ensures StatusOf(After(s, job, plan, 1, turns, k + 4, now).store, job.id) == Some("failed")
  {
    hide StatusOf, EventsOf, Milestones, AppendEvent, Upsert, ShadowAfter, Landed, Cancellable;
    ShadowAgrees(s, job, plan, turns, k, now);
    RaceKeeps(s, job, plan, 1, turns, k, now);
    var r := After(s, job, plan, 1, turns, k, now);
    OnlyOne(r.cancels);
    NotMarkedAtFirst(r.cancels[0]);
    assert r.writes;
    assert forall i :: 0 <= i < 4 ==> turns[k + i] == turns[k..][i];
    var r1, r2, r3 := CancelMove(r, job, 0, now), CancelMove(CancelMove(r, job, 0, now), job, 0, now), After(s, job, plan, 1, turns, k + 3, now);
    assert After(s, job, plan, 1, turns, k + 1, now) == r1;
    assert After(s, job, plan, 1, turns, k + 2, now) == r2;
    assert r3 == CancelMove(r2, job, 0, now);
    assert After(s, job, plan, 1, turns, k + 4, now) == EngineMove(r3, job, plan, now);
    UpsertFacts(r3.store, job.id, Failed(job, ErrorFor(plan)), now);
  }

  /** `_finalize_failure` looks and writes in two visits: a cancel in between is overwritten,
      although its event is in the log. */
  lemma FailureOverCancel(s: Store, job: Job, code: Option<string>, error: string, now: string)
    requires job.id in s.runs && Open(s, job.id, false)
    ensures var turns := [Engine, Engine, Engine, Engine, Engine, Engine, Cancel(0), Cancel(0), Cancel(0), Engine];
            var t := After(s, job, ToFail(code, error), 1, turns, 10, now).store;
            !OneOutcome(t, job.id) && StatusOf(t, job.id) == Some("failed")
  {
    hide After, OneOutcome, ShadowAfter, Open, StatusOf;
    var plan := ToFail(code, error);
    var turns := [Engine, Engine, Engine, Engine, Engine, Engine, Cancel(0), Cancel(0), Cancel(0), Engine];
    ShadowTurn(plan, turns, 0);
    ShadowTurn(plan, turns, 1);
    ShadowTurn(plan, turns, 2);
    ShadowTurn(plan, turns, 3);
    ShadowTurn(plan, turns, 4);
    ShadowTurn(plan, turns, 5);
    assert ShadowAfter(plan, turns, 6) == Shadow(Concludes, true, Canceller(0, false, Opens, Opens));
    ConclusionOverwrites(s, job, plan, turns, 6, now);
    ShadowTurn(plan, turns, 6);
    ShadowTurn(plan, turns, 7);
    ShadowTurn(plan, turns, 8);
    ShadowTurn(plan, turns, 9);
    assert ShadowAfter(plan, turns, 10) == Shadow(Over, true, Canceller(3, true, Concludes, Concludes));
    FailingSchedule(s, job, plan, turns, now);
  }

  /** Bad inputs are reported without a look at the record: a whole cancel between
      `run.started` and the report leaves `run.cancelled` and `run.failed`. */
  lemma BadInputsOverCancel(s: Store, job: Job, error: string, now: string)
    requires job.id in s.runs && Open(s, job.id, false)
    ensures var turns := [Engine, Engine, Engine, Cancel(0), Cancel(0), Cancel(0), Engine, Engine, Engine];
            !OneOutcome(After(s, job, ToBadInputs(error), 1, turns, 9, now).store, job.id)
  {
    hide After, OneOutcome, ShadowAfter, Open;
    var plan, turns := ToBadInputs(error), [Engine, Engine, Engine, Cancel(0), Cancel(0), Cancel(0), Engine, Engine, Engine];
    ShadowTurn(plan, turns, 0);
    ShadowTurn(plan, turns, 1);
    ShadowTurn(plan, turns, 2);
    ShadowTurn(plan, turns, 3);
    ShadowTurn(plan, turns, 4);
    ShadowTurn(plan, turns, 5);
    ShadowTurn(plan, turns, 6);
    ShadowTurn(plan, turns, 7);
    ShadowTurn(plan, turns, 8);
    assert ShadowAfter(plan, turns, 9) == Shadow(Over, true, Canceller(3, true, Reports, Reports));
    FailingSchedule(s, job, plan, turns, now);
  }

  /** A refusal looks and reports in two visits: a cancel in between leaves both endings. */
  lemma RefusalOverCancel(s: Store, job: Job, code: Option<string>, error: string, now: string)
    requires job.id in s.runs && Open(s, job.id, false)
    ensures var turns := [Engine, Engine, Cancel(0), Cancel(0), Cancel(0), Engine, Engine, Engine];
            !OneOutcome(After(s, job, ToRefuse(code, error), 1, turns, 8, now).store, job.id)
  {
    hide After, OneOutcome, ShadowAfter, Open;
    var plan, turns := ToRefuse(code, error), [Engine, Engine, Cancel(0), Cancel(0), Cancel(0), Engine, Engine, Engine];
    ShadowTurn(plan, turns, 0);
    ShadowTurn(plan, turns, 1);
    ShadowTurn(plan, turns, 2);
    ShadowTurn(plan, turns, 3);
    ShadowTurn(plan, turns, 4);
    ShadowTurn(plan, turns, 5);
    ShadowTurn(plan, turns, 6);
    ShadowTurn(plan, turns, 7);
    assert ShadowAfter(plan, turns, 8) == Shadow(Over, false, Canceller(3, true, Reports, Reports));
    FailingSchedule(s, job, plan, turns, now);
  }

  /** A whole cancel between the look and `run.started`: the run starts after it ended. */
  lemma StartOverCancel(s: Store, job: Job, outputs: string, now: string)
    requires job.id in s.runs && Open(s, job.id, false)
    ensures var turns := [Engine, Engine, Cancel(0), Cancel(0), Cancel(0), Engine, Engine, Engine];
            !OneOutcome(After(s, job, ToFinish(outputs), 1, turns, 8, now).store, job.id)
  {
    hide After, OneOutcome, ShadowAfter, Open;
    var plan, turns := ToFinish(outputs), [Engine, Engine, Cancel(0), Cancel(0), Cancel(0), Engine, Engine, Engine];
    ShadowTurn(plan, turns, 0);
    ShadowTurn(plan, turns, 1);
    ShadowTurn(plan, turns, 2);
    ShadowTurn(plan, turns, 3);
    ShadowTurn(plan, turns, 4);
    ShadowTurn(plan, turns, 5);
    ShadowTurn(plan, turns, 6);
    ShadowTurn(plan, turns, 7);
    assert ShadowAfter(plan, turns, 8) == Shadow(Over, true, Canceller(3, true, Starts, Starts));
    FailingSchedule(s, job, plan, turns, now);
  }

  /** Two cancels check before either writes: whatever the engine does and in whatever order
      the rest happens, both log `run.cancelled`. */
  lemma TwoCancelsLogTwice(s: Store, job: Job, plan: Plan, turns: seq<Turn>, now: string)
    requires job.id in s.runs && Open(s, job.id, false) && |turns| >= 2
    requires turns[0] == Cancel(0) && turns[1] == Cancel(1)
    requires AllThrough(After(s, job, plan, 2, turns, |turns|, now))
    ensures !OneOutcome(After(s, job, plan, 2, turns, |turns|, now).store, job.id)
  {
    hide OneOutcome, Open, AppendEvent, Upsert, After, Initial;
    FirstTwo(s, job, plan, turns, now);
    LandingStays(s, job, plan, 2, turns, 2, |turns|, 0, now);
    LandingStays(s, job, plan, 2, turns, 2, |turns|, 1, now);
    var cancels := After(s, job, plan, 2, turns, |turns|, now).cancels;
    assert cancels == [cancels[0], cancels[1]];
    assert cancels[..1] == [cancels[0]];
    OnlyOne(cancels[..1]);
    OneOutcomeIff(s, job, plan, 2, turns, now);
  }

  lemma FirstTwo(s: Store, job: Job, plan: Plan, turns: seq<Turn>, now: string)
    requires job.id in s.runs && Open(s, job.id, false) && |turns| >= 2
    requires turns[0] == Cancel(0) && turns[1] == Cancel(1)
    ensures var cancels := After(s, job, plan, 2, turns, 2, now).cancels;
            |cancels| == 2 && cancels[0].lands && cancels[0].pc >= 1 && cancels[1].lands && cancels[1].pc >= 1
  {
    hide Open, AppendEvent, Upsert, Cancellable;
    var r0, r1 := After(s, job, plan, 2, turns, 0, now), After(s, job, plan, 2, turns, 1, now);
    LandsIff(s, job, plan, 2, turns, 0, 0, now);
    assert r1 == CancelMove(r0, job, 0, now);
    LandsIff(s, job, plan, 2, turns, 1, 1, now);
    assert After(s, job, plan, 2, turns, 2, now) == CancelMove(r1, job, 1, now);
  }

  lemma EngineLeavesCancels(r: Race, job: Job, plan: Plan, now: string)
    ensures EngineMove(r, job, plan, now).cancels == r.cancels
  {
    hide AppendEvent, Upsert, UpsertUnlessCancelled, RunLifecycles.IsCancelled;
  }

  lemma CancelsAdvance(r: Race, job: Job, plan: Plan, turn: Turn, c: nat, now: string)
    requires c < |r.cancels| && r.cancels[c].lands && r.cancels[c].pc >= 1
    ensures var after := Next(r, job, plan, turn, now).cancels;
            |after| == |r.cancels| && after[c].lands && after[c].pc >= 1
  {
    hide AppendEvent, Upsert, Cancellable, Act, EngineMove;
    EngineLeavesCancels(r, job, plan, now);
  }

  lemma {:induction false} LandingStays(s: Store, job: Job, plan: Plan, n: nat, turns: seq<Turn>, i: nat, k: nat, c: nat, now: string)
    requires i <= k <= |turns|
    requires var cancels := After(s, job, plan, n, turns, i, now).cancels; c < |cancels| && cancels[c].lands && cancels[c].pc >= 1
    ensures var before, after := After(s, job, plan, n, turns, i, now).cancels, After(s, job, plan, n, turns, k, now).cancels;
            |after| == |before| && after[c].lands && after[c].pc >= 1
  {
    hide Next;
    if i < k {
      LandingStays(s, job, plan, n, turns, i, k - 1, c, now);
      CancelsAdvance(After(s, job, plan, n, turns, k - 1, now), job, plan, turns[k - 1], c, now);
    }
  }
}
