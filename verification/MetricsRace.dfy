/** `record_event` at thread granularity (src/aitp_playground/observability/metrics.py): a
    run event visits the set of started runs, and in a second visit moves the gauge. Any
    number of threads each record one event. The events are numbered as the log has them,
    where each was appended before it is recorded (src/aitp_playground/runner/context.py,
    src/aitp_playground/api/runs.py); the visits come in any order. */
module MetricRaces {
  import opened RunStores
  import opened RunLifecycles
  import opened MetricFolds
  import opened Wrappers

  /** Between its two visits a thread owes the gauge a move. */
  datatype Stage = Begins | Owes(delta: int) | Through

  datatype Race = Race(registry: Registry, stages: seq<Stage>)

  /** `turns[i]` is the thread that takes turn i. */
  datatype Run = Run(start: Registry, events: seq<Event>, turns: seq<nat>)

  /** The first visit: what becomes of the set, and what the thread then owes. */
  function Noted(m: Registry, e: Event): (Registry, Stage) {
    if e.kind == "run.started" then
      if e.runId.Some? && e.runId.value in m.started then (m, Through)
      else (if e.runId.Some? then m.(started := m.started + {e.runId.value}) else m, Owes(1))
    else if IsTerminal(e.kind) then
      if e.runId.None? then (m, Owes(-1))
      else if e.runId.value in m.started then (m.(started := m.started - {e.runId.value}), Owes(-1))
      else (m, Through)
    else (m, Through)
  }

  /** The second visit; only a decrement has a floor. */
  function Moved(m: Registry, delta: int): Registry {
    AddGauge(m, RunsActive, delta, if delta < 0 then Some(0) else None)
  }

  function Move(run: Run, r: Race, t: nat): Race
    requires |r.stages| == |run.events|
  {
    if t >= |run.events| then r
    else
      match r.stages[t]
      case Begins => var (m, stage) := Noted(r.registry, run.events[t]); Race(m, r.stages[t := stage])
      case Owes(delta) => Race(Moved(r.registry, delta), r.stages[t := Through])
      case Through => r
  }

  function After(run: Run, k: nat): (r: Race)
    requires k <= |run.turns|
    ensures |r.stages| == |run.events|
  {
    if k == 0 then Race(run.start, seq(|run.events|, _ => Begins)) else Move(run, After(run, k - 1), run.turns[k - 1])
  }

  /** With nothing in between, the two visits are one `record_event`, counters aside. */
  lemma TwoVisitsAreOne(m: Registry, e: Event)
    ensures var (noted, stage) := Noted(m, e);
            var m' := if stage.Owes? then Moved(noted, stage.delta) else noted;
            m'.started == Recorded(m, e).started && m'.gauges == Recorded(m, e).gauges
  {
    hide RecordActivity, SeriesOf;
    if e.kind != "run.started" && !IsTerminal(e.kind) {
      ActivityKeeps(m, e);
    } else if IsTerminal(e.kind) && e.runId.Some? && e.runId.value !in m.started {
      assert m.started - {e.runId.value} == m.started;
    }
  }

  /** Turn k is a decrement that finds the gauge at its floor. */
  predicate FloorActs(run: Run, k: nat)
    requires k < |run.turns|
  {
    var r, t := After(run, k), run.turns[k];
    t < |run.events| && r.stages[t] == Owes(-1) && GaugeOf(r.registry, RunsActive) == 0
  }

  function FloorHits(run: Run, k: nat): nat
    requires k <= |run.turns|
  {
    if k == 0 then 0 else FloorHits(run, k - 1) + if FloorActs(run, k - 1) then 1 else 0
  }

  /** What the threads between their visits still owe the gauge. */
  function Owed(stages: seq<Stage>): int {
    if stages == [] then 0
    else
      var last := stages[|stages| - 1];
      Owed(stages[..|stages| - 1]) + if last.Owes? then last.delta else 0
  }

  function Share(s: Stage): int {
    if s.Owes? then s.delta else 0
  }

  lemma {:induction false} OwedUpdate(stages: seq<Stage>, t: nat, stage: Stage)
    requires t < |stages|
    ensures Owed(stages[t := stage]) == Owed(stages) - Share(stages[t]) + Share(stage)
  {
    var n := |stages| - 1;
    if t == n {
      assert stages[t := stage][..n] == stages[..n];
    } else {
      OwedUpdate(stages[..n], t, stage);
      assert stages[t := stage][..n] == stages[..n][t := stage];
    }
  }

  lemma {:induction false} NothingOwed(stages: seq<Stage>)
    requires forall t :: 0 <= t < |stages| ==> !stages[t].Owes?
    ensures Owed(stages) == 0
  {
    if stages != [] {
      NothingOwed(stages[..|stages| - 1]);
    }
  }

  ghost predicate Inv(run: Run, k: nat)
    requires k <= |run.turns|
  {
    var r := After(run, k);
    && GaugeOf(r.registry, RunsActive) >= 0
    && GaugeOf(r.registry, RunsActive) + Owed(r.stages) == |r.registry.started| + FloorHits(run, k)
    && forall t :: 0 <= t < |r.stages| && r.stages[t].Owes? ==> r.stages[t].delta == 1 || r.stages[t].delta == -1
  }

  lemma NotedKeeps(m: Registry, e: Event)
    requires IsMilestone(e.kind) ==> e.runId.Some?
    ensures var (noted, stage) := Noted(m, e);
            && noted.gauges == m.gauges && |noted.started| == |m.started| + Share(stage)
            && (stage.Owes? ==> stage.delta == 1 || stage.delta == -1)
  {
    if e.runId.Some? {
      CardinalityMoves(m.started, e.runId.value);
    }
  }

  lemma InvKeeps(run: Run, k: nat)
    requires k < |run.turns| && Named(run.events) && Inv(run, k)
    ensures Inv(run, k + 1)
  {
    hide Owed;
    var r, t := After(run, k), run.turns[k];
    assert After(run, k + 1) == Move(run, r, t);
    if t < |run.events| {
      NotedKeeps(r.registry, run.events[t]);
      OwedUpdate(r.stages, t, After(run, k + 1).stages[t]);
    }
  }

  lemma {:induction false} RunKeeps(run: Run, k: nat)
    requires k <= |run.turns| && Named(run.events) && GaugeOf(run.start, RunsActive) == |run.start.started|
    ensures Inv(run, k)
  {
    hide Inv;
    if k == 0 {
      StartInv(run);
    } else {
      RunKeeps(run, k - 1);
      InvKeeps(run, k - 1);
    }
  }

  lemma StartInv(run: Run)
    requires GaugeOf(run.start, RunsActive) == |run.start.started|
    ensures Inv(run, 0)
  {
    NothingOwed(After(run, 0).stages);
  }

  /** In every interleaving, once no thread owes a move, `runs_active` exceeds the number of
      runs the registry holds for started by the decrements that found it at zero. */
  lemma GaugeCountsStarted(run: Run, k: nat)
    requires k <= |run.turns| && Named(run.events) && GaugeOf(run.start, RunsActive) == |run.start.started|
    requires forall t :: 0 <= t < |run.events| ==> !After(run, k).stages[t].Owes?
    ensures var m := After(run, k).registry; GaugeOf(m, RunsActive) == |m.started| + FloorHits(run, k)
  {
    hide After, GaugeOf, FloorActs;
    RunKeeps(run, k);
    NothingOwed(After(run, k).stages);
  }

  lemma {:induction false} NoHitsIff(run: Run, k: nat)
    requires k <= |run.turns|
    ensures FloorHits(run, k) == 0 <==> forall j :: 0 <= j < k ==> !FloorActs(run, j)
  {
    hide FloorActs;
    if k > 0 {
      NoHitsIff(run, k - 1);
    }
  }

  // ---- against the log ----

  /** Every run starts at most once and ends at most once, the start first. */
  ghost predicate OneLife(events: seq<Event>) {
    forall i, j :: 0 <= i < j < |events| && events[i].runId == events[j].runId
                   && IsMilestone(events[i].kind) && IsMilestone(events[j].kind)
      ==> events[i].kind == "run.started" && IsTerminal(events[j].kind)
  }

  predicate Starts(e: Event) {
    e.kind == "run.started" && e.runId.Some?
  }

  predicate EndOf(e: Event, start: Event) {
    IsTerminal(e.kind) && e.runId == start.runId
  }

  /** Among the first k turns, the end j of a run made its first visit before the start i. */
  ghost predicate EndedFirst(run: Run, k: nat, i: nat, j: nat)
    requires k <= |run.turns| && i < |run.events| && j < |run.events|
  {
    exists m: nat :: m < k && run.turns[m] == j && After(run, m).stages[j].Begins? && After(run, m).stages[i].Begins?
  }

  /** The end of run i was recorded when it had started. */
  ghost predicate Finished(run: Run, k: nat, i: nat)
    requires k <= |run.turns| && i < |run.events|
  {
    exists j :: 0 <= j < |run.events| && EndOf(run.events[j], run.events[i])
                && !After(run, k).stages[j].Begins? && !EndedFirst(run, k, i, j)
  }

  /** The registry holds a run for started from its start's first visit to its end's, if
      that comes later. */
  ghost predicate StartTells(run: Run, k: nat, i: nat)
    requires k <= |run.turns| && i < |run.events|
  {
    var r := After(run, k);
    Starts(run.events[i]) ==>
      (run.events[i].runId.value in r.registry.started <==> !r.stages[i].Begins? && !Finished(run, k, i))
  }

  ghost predicate PairTells(run: Run, k: nat, i: nat, j: nat)
    requires k <= |run.turns| && i < |run.events| && j < |run.events|
  {
    var stages := After(run, k).stages;
    Starts(run.events[i]) && EndOf(run.events[j], run.events[i]) ==>
      && (stages[i].Begins? && !stages[j].Begins? ==> EndedFirst(run, k, i, j))
      && (stages[j].Begins? ==> !EndedFirst(run, k, i, j))
  }

  ghost predicate HasStart(run: Run, id: string) {
    exists i :: 0 <= i < |run.events| && Starts(run.events[i]) && run.events[i].runId == Some(id)
  }

  ghost predicate SetTells(run: Run, k: nat)
    requires k <= |run.turns|
  {
    && (forall i :: 0 <= i < |run.events| ==> StartTells(run, k, i))
    && (forall i, j :: 0 <= i < |run.events| && 0 <= j < |run.events| ==> PairTells(run, k, i, j))
    && (forall id :: id in After(run, k).registry.started ==> HasStart(run, id))
  }

  lemma EndedFirstStep(run: Run, k: nat, i: nat, j: nat)
    requires k < |run.turns| && i < |run.events| && j < |run.events|
    ensures EndedFirst(run, k + 1, i, j)
            <==> EndedFirst(run, k, i, j)
                 || (run.turns[k] == j && After(run, k).stages[j].Begins? && After(run, k).stages[i].Begins?)
  {
    hide After;
  }

  /** What one turn does to the set and to the stages. */
  lemma TurnParts(run: Run, k: nat)
    requires k < |run.turns|
    ensures var r, r', t := After(run, k), After(run, k + 1), run.turns[k];
            if t < |run.events| && r.stages[t].Begins?
            then r'.registry.started == StartedAfter(r.registry.started, run.events[t])
                 && forall u :: 0 <= u < |run.events| ==> (r'.stages[u].Begins? <==> r.stages[u].Begins? && u != t)
            else r'.registry.started == r.registry.started
                 && forall u :: 0 <= u < |run.events| ==> (r'.stages[u].Begins? <==> r.stages[u].Begins?)
  {
    var r, t := After(run, k), run.turns[k];
    if t < |run.events| && r.stages[t].Begins? && run.events[t].runId.Some? {
      var id := run.events[t].runId.value;
      assert id in r.registry.started ==> r.registry.started + {id} == r.registry.started;
      assert id !in r.registry.started ==> r.registry.started - {id} == r.registry.started;
    }
  }

  lemma PairKeeps(run: Run, k: nat, i: nat, j: nat)
    requires k < |run.turns| && i < |run.events| && j < |run.events| && PairTells(run, k, i, j)
    ensures PairTells(run, k + 1, i, j)
  {
    hide After, EndedFirst;
    TurnParts(run, k);
    EndedFirstStep(run, k, i, j);
  }

  /** A run's only end decides whether it is finished. */
  lemma OnlyEnd(run: Run, k: nat, i: nat, j: nat)
    requires k <= |run.turns| && OneLife(run.events) && i < |run.events| && j < |run.events|
    requires Starts(run.events[i]) && EndOf(run.events[j], run.events[i])
    ensures Finished(run, k, i) <==> !After(run, k).stages[j].Begins? && !EndedFirst(run, k, i, j)
    ensures i < j
  {
    hide After, EndedFirst;
    if Finished(run, k, i) {
      var l :| 0 <= l < |run.events| && EndOf(run.events[l], run.events[i])
               && !After(run, k).stages[l].Begins? && !EndedFirst(run, k, i, l);
      assert l == j;
    }
  }

  lemma StartKeeps(run: Run, k: nat, i: nat)
    requires k < |run.turns| && OneLife(run.events) && i < |run.events| && StartTells(run, k, i)
    requires forall j :: 0 <= j < |run.events| ==> PairTells(run, k, i, j)
    ensures StartTells(run, k + 1, i)
  {
    if Starts(run.events[i]) {
      hide After, EndedFirst, Finished;
      TurnParts(run, k);
      if j :| 0 <= j < |run.events| && EndOf(run.events[j], run.events[i]) {
        OnlyEnd(run, k, i, j);
        OnlyEnd(run, k + 1, i, j);
        EndedFirstStep(run, k, i, j);
        assert PairTells(run, k, i, j);
        OthersKeep(run, k, i);
      } else {
        NeverFinished(run, k, i);
        NeverFinished(run, k + 1, i);
        OthersKeep(run, k, i);
      }
    }
  }

  lemma NeverFinished(run: Run, k: nat, i: nat)
    requires k <= |run.turns| && i < |run.events|
    requires forall j :: 0 <= j < |run.events| ==> !EndOf(run.events[j], run.events[i])
    ensures !Finished(run, k, i)
  {
  }

  /** Only a run's own start and end move it in the set. */
  lemma OthersKeep(run: Run, k: nat, i: nat)
    requires k < |run.turns| && OneLife(run.events) && i < |run.events| && Starts(run.events[i])
    ensures var t, id := run.turns[k], run.events[i].runId.value;
            && (t < |run.events| && t != i && !EndOf(run.events[t], run.events[i]) ==>
                  (id in StartedAfter(After(run, k).registry.started, run.events[t]) <==> id in After(run, k).registry.started))
            && id in StartedAfter(After(run, k).registry.started, run.events[i])
            && (t < |run.events| && EndOf(run.events[t], run.events[i]) ==>
                  id !in StartedAfter(After(run, k).registry.started, run.events[t]))
  {
    hide After;
  }

  lemma SetKeeps(run: Run, k: nat)
    requires k < |run.turns| && OneLife(run.events) && SetTells(run, k)
    ensures SetTells(run, k + 1)
  {
    hide After, StartTells, PairTells;
    var next := k + 1;
    TurnParts(run, k);
    forall i | 0 <= i < |run.events|
      ensures StartTells(run, next, i)
    {
      StartKeeps(run, k, i);
    }
    forall i, j | 0 <= i < |run.events| && 0 <= j < |run.events|
      ensures PairTells(run, next, i, j)
    {
      PairKeeps(run, k, i, j);
    }
  }

  lemma {:induction false} RunTells(run: Run, k: nat)
    requires k <= |run.turns| && OneLife(run.events) && run.start.started == {}
    ensures SetTells(run, k)
  {
    if k > 0 {
      hide SetTells;
      RunTells(run, k - 1);
      SetKeeps(run, k - 1);
    }
  }

  lemma SmallerSubset(a: set<string>, b: set<string>)
    requires a <= b
    ensures |a| <= |b| && (|a| == |b| ==> a == b)
  {
    assert b == a + (b - a);
  }

  predicate AllThrough(r: Race) {
    forall t :: 0 <= t < |r.stages| ==> r.stages[t].Through?
  }

  /** Every end made its first visit after the start of its run did. */
  ghost predicate RecordedInOrder(run: Run, k: nat)
    requires k <= |run.turns|
  {
    forall i, j :: 0 <= i < |run.events| && 0 <= j < |run.events| && Starts(run.events[i]) && EndOf(run.events[j], run.events[i])
      ==> !EndedFirst(run, k, i, j)
  }

  lemma LiveIffNoEnd(events: seq<Event>, i: nat)
    requires OneLife(events) && i < |events| && Starts(events[i])
    ensures Live(events, i, |events|) <==> forall j :: 0 <= j < |events| ==> !EndOf(events[j], events[i])
  {
  }

  /** The registry holds every run the log shows active, and no other exactly when the
      visits kept the order of the log. */
  lemma StartedCoversActive(run: Run, k: nat)
    requires k <= |run.turns| && OneLife(run.events) && run.start.started == {} && AllThrough(After(run, k))
    ensures var started, active := After(run, k).registry.started, ActiveIds(run.events, |run.events|);
            active <= started && (started == active <==> RecordedInOrder(run, k))
  {
    hide After, EndedFirst, Live, Finished;
    RunTells(run, k);
    var started, active := After(run, k).registry.started, ActiveIds(run.events, |run.events|);
    forall i: nat | i < |run.events| && Starts(run.events[i])
      ensures run.events[i].runId.value in active <==> Live(run.events, i, |run.events|)
      ensures Live(run.events, i, |run.events|) ==> run.events[i].runId.value in started
      ensures run.events[i].runId.value in started && !Live(run.events, i, |run.events|)
              <==> exists j :: 0 <= j < |run.events| && EndOf(run.events[j], run.events[i]) && EndedFirst(run, k, i, j)
    {
      LiveIffNoEnd(run.events, i);
      OneStart(run.events, i);
      assert StartTells(run, k, i);
      if j :| 0 <= j < |run.events| && EndOf(run.events[j], run.events[i]) {
        OnlyEnd(run, k, i, j);
      } else {
        NeverFinished(run, k, i);
      }
    }
    forall id | id in active
      ensures id in started
    {
      LiveStarts(run.events);
    }
    if started == active {
    } else {
      var id :| id in started && id !in active;
      assert HasStart(run, id);
    }
  }

  lemma LiveStarts(events: seq<Event>)
    ensures forall id :: id in ActiveIds(events, |events|) ==>
              exists i: nat :: i < |events| && Starts(events[i]) && events[i].runId == Some(id) && Live(events, i, |events|)
  {
  }

  lemma OneStart(events: seq<Event>, i: nat)
    requires OneLife(events) && i < |events| && Starts(events[i])
    ensures events[i].runId.value in ActiveIds(events, |events|) <==> Live(events, i, |events|)
  {
  }

  /** Main result: for runs that start and end at most once, in every interleaving, once all
      records are through `runs_active` is the number of runs the log shows active exactly
      when no decrement found the gauge at zero and no end was recorded before its start. */
  lemma GaugeIsRightIff(run: Run, k: nat)
    requires k <= |run.turns| && Named(run.events) && OneLife(run.events) && AllThrough(After(run, k))
    requires run.start.started == {} && GaugeOf(run.start, RunsActive) == 0
    ensures GaugeOf(After(run, k).registry, RunsActive) == |ActiveIds(run.events, |run.events|)|
            <==> (forall j :: 0 <= j < k ==> !FloorActs(run, j)) && RecordedInOrder(run, k)
  {
    hide After, GaugeOf, FloorActs, RecordedInOrder, ActiveIds;
    GaugeCountsStarted(run, k);
    NoHitsIff(run, k);
    StartedCoversActive(run, k);
    SmallerSubset(ActiveIds(run.events, |run.events|), After(run, k).registry.started);
  }

  /** For any stream with run ids: exactly when the floor made up for the difference. */
  lemma GaugeIsRightIffBalanced(run: Run, k: nat)
    requires k <= |run.turns| && Named(run.events) && GaugeOf(run.start, RunsActive) == |run.start.started|
    requires AllThrough(After(run, k))
    ensures var m, active := After(run, k).registry, ActiveIds(run.events, |run.events|);
            GaugeOf(m, RunsActive) == |active| <==> FloorHits(run, k) == |active| - |m.started|
  {
    hide After, GaugeOf, ActiveIds;
    GaugeCountsStarted(run, k);
  }

  /** A run that starts and is cancelled, in the order of the log. */
  function StartThenCancel(id: string): seq<Event> {
    [Event("run.started", Some(id), None, None), Event("run.cancelled", Some(id), None, None)]
  }

  lemma CancelledIsNotActive(id: string)
    ensures ActiveIds(StartThenCancel(id), 2) == {}
  {
    var events := StartThenCancel(id);
    assert IsTerminal(events[1].kind) && events[1].runId == events[0].runId;
    assert !Live(events, 0, 2);
  }

  /** The log has the start first, but the end is recorded before it: no floor acts, and the
      run that ended stays counted. */
  lemma EndRecordedFirst(start: Registry, id: string)
    requires start.started == {} && GaugeOf(start, RunsActive) == 0
    ensures var run := Run(start, StartThenCancel(id), [1, 0, 0]);
            && AllThrough(After(run, 3)) && (forall j :: 0 <= j < 3 ==> !FloorActs(run, j))
            && GaugeOf(After(run, 3).registry, RunsActive) == 1 && ActiveIds(run.events, 2) == {}
  {
    hide After, ActiveIds, FloorActs;
    CancelledIsNotActive(id);
    var run := Run(start, StartThenCancel(id), [1, 0, 0]);
    StepOf(run, 0);
    assert After(run, 1) == Race(start, [Begins, Through]);
    StepOf(run, 1);
    var m := start.(started := {id});
    assert start.started + {id} == {id};
    assert After(run, 2) == Race(m, [Owes(1), Through]);
    StepOf(run, 2);
    assert After(run, 3) == Race(Moved(m, 1), [Through, Through]);
    NotADecrement(run, 0);
    NotADecrement(run, 1);
    NotADecrement(run, 2);
  }

  /** A run ends between the two visits of its start: the decrement finds zero, and the
      gauge stays at one with no run active. */
  lemma EndOvertakesStart(start: Registry, id: string)
    requires start.started == {} && GaugeOf(start, RunsActive) == 0
    ensures var run := Run(start, StartThenCancel(id), [0, 1, 1, 0]);
            && AllThrough(After(run, 4)) && RecordedInOrder(run, 4) && FloorActs(run, 2)
            && GaugeOf(After(run, 4).registry, RunsActive) == 1 && ActiveIds(run.events, 2) == {}
  {
    hide After, ActiveIds;
    CancelledIsNotActive(id);
    var run := Run(start, StartThenCancel(id), [0, 1, 1, 0]);
    StepOf(run, 0);
    assert start.started + {id} == {id};
    assert After(run, 1) == Race(start.(started := {id}), [Owes(1), Begins]);
    StepOf(run, 1);
    assert {id} - {id} == start.started;
    assert After(run, 2) == Race(start, [Owes(1), Owes(-1)]);
    StepOf(run, 2);
    assert After(run, 3).stages == [Owes(1), Through];
    StepOf(run, 3);
  }

  lemma NotADecrement(run: Run, k: nat)
    requires k < |run.turns| && run.turns[k] < |run.events|
    requires After(run, k).stages[run.turns[k]] != Owes(-1)
    ensures !FloorActs(run, k)
  {
  }

  lemma StepOf(run: Run, k: nat)
    requires k < |run.turns|
    ensures After(run, 0) == Race(run.start, seq(|run.events|, _ => Begins))
    ensures After(run, k + 1) == Move(run, After(run, k), run.turns[k])
  {
  }
}
