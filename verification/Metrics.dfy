/** The metrics registry as an incremental fold of the event stream
    (src/aitp_playground/observability/metrics.py). Counts are integers: the source's
    floats only ever move by whole amounts. A label set is a map, of which the source
    keeps the sorted items. */
module MetricFolds {
  import opened RunStores
  import opened RunLifecycles
  import opened Wrappers

  datatype Name =
    | RunsTotal | HandshakesTotal | TctsIssuedTotal | DelegationsTotal | RevocationsTotal
    | KeyRotationsTotal | CapabilityCallsTotal | StepOutcomesTotal | RunsActive | RunsRefusedTotal

  datatype Series = Series(name: Name, labels: map<string, string>)

  datatype Registry = Registry(counters: map<Series, int>, gauges: map<Name, int>, started: set<string>)

  const CATALOG := [RunsTotal, HandshakesTotal, TctsIssuedTotal, DelegationsTotal, RevocationsTotal,
                    KeyRotationsTotal, CapabilityCallsTotal, StepOutcomesTotal, RunsActive, RunsRefusedTotal]

  const REGISTERED: set<Series> := set name | name in CATALOG :: Series(name, map[])

  /** Every name of the catalog is registered with a zero series before the first event. */
  const INITIAL := Registry(map s | s in REGISTERED :: 0, map[], {})

  function GaugeOf(m: Registry, name: Name): int {
    if name in m.gauges then m.gauges[name] else 0
  }

  function CounterOf(m: Registry, series: Series): int {
    if series in m.counters then m.counters[series] else 0
  }

  function Inc(m: Registry, name: Name, labels: map<string, string>): Registry {
    m.(counters := m.counters[Series(name, labels) := CounterOf(m, Series(name, labels)) + 1])
  }

  function AddGauge(m: Registry, name: Name, delta: int, floor: Option<int>): Registry {
    var value := GaugeOf(m, name) + delta;
    m.(gauges := m.gauges[name := if floor.Some? && value < floor.value then floor.value else value])
  }

  function Outcome(name: string): map<string, string> {
    map["outcome" := name]
  }

  function CodeOf(e: Event): string {
    if e.code == None || e.code == Some("") then "unknown" else e.code.value
  }

  predicate HasCapability(e: Event) {
    e.capability.Some? && e.capability.value != ""
  }

  function RecordStart(m: Registry, e: Event): Registry {
    if e.runId.Some? && e.runId.value in m.started then m
    else
      var noted := if e.runId.Some? then m.(started := m.started + {e.runId.value}) else m;
      AddGauge(noted, RunsActive, 1, None)
  }

  function RecordEnd(m: Registry, e: Event): Registry
    requires IsTerminal(e.kind)
  {
    var counted := e.runId.None? || e.runId.value in m.started;
    var noted := if e.runId.Some? then m.(started := m.started - {e.runId.value}) else m;
    var moved :=
      if counted then AddGauge(noted, RunsActive, -1, Some(0))
      else if e.kind == "run.failed" then Inc(noted, RunsRefusedTotal, map["code" := CodeOf(e)])
      else noted;
    Inc(moved, RunsTotal, map["status" := StatusFor(e.kind)])
  }

  function RecordActivity(m: Registry, e: Event): Registry {
    if e.kind == "trust.established" then
      Inc(Inc(m, HandshakesTotal, Outcome("established")), TctsIssuedTotal, map[])
    else if e.kind == "handshake.failed" || e.kind == "trust.failed" then
      Inc(m, HandshakesTotal, Outcome("failed"))
    else if e.kind == "delegation.issued" then
      Inc(m, DelegationsTotal, Outcome("issued"))
    else if e.kind == "delegation.redeemed" then
      Inc(Inc(m, DelegationsTotal, Outcome("redeemed")), TctsIssuedTotal, map[])
    else if e.kind == "delegation.rejected" then
      Inc(m, DelegationsTotal, Outcome("rejected"))
    else if e.kind == "tct.revoked" then
      Inc(m, RevocationsTotal, map["source" := "local"])
    else if e.kind == "revocation.published" then
      Inc(m, RevocationsTotal, map["source" := "cp"])
    else if e.kind == "identity.key.rotated" then
      Inc(m, KeyRotationsTotal, map[])
    else if e.kind == "step.complete" then
      var stepped := Inc(m, StepOutcomesTotal, Outcome("complete"));
      if HasCapability(e) then Inc(stepped, CapabilityCallsTotal, Outcome("success")) else stepped
    else if e.kind == "step.access_denied" || e.kind == "step.unexpected_status" then
      var stepped := Inc(m, StepOutcomesTotal, Outcome("denied"));
      if HasCapability(e) then Inc(stepped, CapabilityCallsTotal, Outcome("denied")) else stepped
    else if e.kind == "step.skipped" then
      Inc(m, StepOutcomesTotal, Outcome("skipped"))
    else m
  }

  /** `record_event`, one event at a time. */
  function Recorded(m: Registry, e: Event): Registry {
    if e.kind == "run.started" then RecordStart(m, e)
    else if IsTerminal(e.kind) then RecordEnd(m, e)
    else RecordActivity(m, e)
  }

  function Fold(events: seq<Event>, k: nat): Registry
    requires k <= |events|
  {
    if k == 0 then INITIAL else Recorded(Fold(events, k - 1), events[k - 1])
  }

  // ---- the same numbers, from the log ----

  /** Entry i starts a run and no later entry ends that run. */
  ghost predicate Live(events: seq<Event>, i: nat, k: nat)
    requires k <= |events|
  {
    && i < k && events[i].kind == "run.started"
    && forall j :: i < j < k && IsTerminal(events[j].kind) ==> events[j].runId != events[i].runId
  }

  ghost predicate Active(events: seq<Event>, k: nat, id: string)
    requires k <= |events|
  {
    exists i: nat :: Live(events, i, k) && events[i].runId == Some(id)
  }

  ghost function ActiveIds(events: seq<Event>, k: nat): set<string>
    requires k <= |events|
  {
    set i: nat | i < k && Live(events, i, k) && events[i].runId.Some? :: events[i].runId.value
  }

  function Endings(events: seq<Event>, k: nat): nat
    requires k <= |events|
  {
    if k == 0 then 0 else Endings(events, k - 1) + if IsTerminal(events[k - 1].kind) then 1 else 0
  }

  /** Failures of runs that were not active, by their code. */
  ghost function Refusals(events: seq<Event>, k: nat, code: string): nat
    requires k <= |events|
  {
    if k == 0 then 0
    else
      var e := events[k - 1];
      Refusals(events, k - 1, code)
      + if e.kind == "run.failed" && e.runId.Some? && !Active(events, k - 1, e.runId.value) && CodeOf(e) == code
        then 1 else 0
  }

  ghost predicate Named(events: seq<Event>) {
    forall i :: 0 <= i < |events| && IsMilestone(events[i].kind) ==> events[i].runId.Some?
  }

  // ---- sums over the series of one name ----

  function SeriesOf(m: Registry, name: Name): set<Series> {
    set s | s in m.counters && s.name == name
  }

  ghost function Sum(counters: map<Series, int>, over: set<Series>): int
    requires over <= counters.Keys
  {
    if over == {} then 0
    else
      var s :| s in over;
      counters[s] + Sum(counters, over - {s})
  }

  ghost function Total(m: Registry, name: Name): int {
    Sum(m.counters, SeriesOf(m, name))
  }

  lemma {:induction false} SumTakesOut(counters: map<Series, int>, over: set<Series>, s: Series)
    requires over <= counters.Keys && s in over
    ensures Sum(counters, over) == counters[s] + Sum(counters, over - {s})
    decreases over
  {
    var first :| first in over && Sum(counters, over) == counters[first] + Sum(counters, over - {first});
    if first != s {
      SumTakesOut(counters, over - {first}, s);
      SumTakesOut(counters, over - {s}, first);
      assert over - {first} - {s} == over - {s} - {first};
    }
  }

  lemma {:induction false} SumSame(a: map<Series, int>, b: map<Series, int>, over: set<Series>)
    requires over <= a.Keys && over <= b.Keys && forall s :: s in over ==> a[s] == b[s]
    ensures Sum(a, over) == Sum(b, over)
    decreases over
  {
    if over != {} {
      var s :| s in over;
      SumTakesOut(a, over, s);
      SumTakesOut(b, over, s);
      SumSame(a, b, over - {s});
    }
  }

  /** Incrementing any series of a name adds one to that name's total and to no other. */
  lemma IncTotals(m: Registry, name: Name, labels: map<string, string>, other: Name)
    ensures Total(Inc(m, name, labels), other) == Total(m, other) + if name == other then 1 else 0
  {
    var s := Series(name, labels);
    var m' := Inc(m, name, labels);
    var over, over' := SeriesOf(m, other), SeriesOf(m', other);
    if name == other {
      SumTakesOut(m'.counters, over', s);
      assert over' - {s} == over - {s};
      SumSame(m.counters, m'.counters, over - {s});
      if s in m.counters {
        SumTakesOut(m.counters, over, s);
      } else {
        assert over - {s} == over;
      }
    } else {
      assert over' == over;
      SumSame(m.counters, m'.counters, over);
    }
  }

  /** The registries agree on the gauges, the started runs and the two run counters. */
  ghost predicate SameRuns(m: Registry, n: Registry) {
    && n.gauges == m.gauges && n.started == m.started
    && SeriesOf(n, RunsTotal) == SeriesOf(m, RunsTotal)
    && forall s: Series :: s.name == RunsTotal || s.name == RunsRefusedTotal ==> CounterOf(n, s) == CounterOf(m, s)
  }

  lemma IncKeepsRuns(m: Registry, name: Name, labels: map<string, string>)
    requires name != RunsTotal && name != RunsRefusedTotal
    ensures SameRuns(m, Inc(m, name, labels))
  {
  }

  /** Events other than a run's start and ends leave the run numbers alone. */
  lemma ActivityKeeps(m: Registry, e: Event)
    ensures SameRuns(m, RecordActivity(m, e))
  {
    hide SameRuns, Inc;
    forall n: Registry, name, labels | name != RunsTotal && name != RunsRefusedTotal
      ensures SameRuns(n, Inc(n, name, labels))
    {
      IncKeepsRuns(n, name, labels);
    }
    SameRunsChains();
  }

  lemma SameRunsChains()
    ensures forall m :: SameRuns(m, m)
    ensures forall a, b, c :: SameRuns(a, b) && SameRuns(b, c) ==> SameRuns(a, c)
  {
  }

  lemma SameRunsTotal(m: Registry, n: Registry)
    requires SameRuns(m, n)
    ensures Total(n, RunsTotal) == Total(m, RunsTotal)
  {
    forall s | s in SeriesOf(m, RunsTotal)
      ensures m.counters[s] == n.counters[s]
    {
      assert CounterOf(n, s) == CounterOf(m, s);
    }
    SumSame(m.counters, n.counters, SeriesOf(m, RunsTotal));
  }

  // ---- one event ----

  function StartedAfter(started: set<string>, e: Event): set<string> {
    if e.runId.None? then started
    else if e.kind == "run.started" then started + {e.runId.value}
    else if IsTerminal(e.kind) then started - {e.runId.value}
    else started
  }

  predicate Refuses(started: set<string>, e: Event) {
    e.kind == "run.failed" && e.runId.Some? && e.runId.value !in started
  }

  lemma CardinalityMoves(s: set<string>, x: string)
    ensures |s + {x}| == |s| + if x in s then 0 else 1
    ensures |s - {x}| == |s| - if x in s then 1 else 0
  {
    if x in s {
      assert s + {x} == s;
      assert s == (s - {x}) + {x};
    } else {
      assert s - {x} == s;
    }
  }

  /** The gauge and the set move together: with a run id the floor at 0 never acts. */
  lemma RecordedGauge(m: Registry, e: Event)
    requires IsMilestone(e.kind) ==> e.runId.Some?
    requires GaugeOf(m, RunsActive) == |m.started|
    ensures var m' := Recorded(m, e);
            m'.started == StartedAfter(m.started, e) && GaugeOf(m', RunsActive) == |m'.started|
  {
    hide RecordActivity, SeriesOf;
    if IsMilestone(e.kind) {
      CardinalityMoves(m.started, e.runId.value);
      assert e.runId.value !in m.started ==> m.started - {e.runId.value} == m.started;
    } else {
      ActivityKeeps(m, e);
    }
  }

  lemma RecordedTotal(m: Registry, e: Event)
    ensures Total(Recorded(m, e), RunsTotal) == Total(m, RunsTotal) + if IsTerminal(e.kind) then 1 else 0
  {
    hide RecordActivity, Total, Inc;
    if IsTerminal(e.kind) {
      var counted := e.runId.None? || e.runId.value in m.started;
      var noted := if e.runId.Some? then m.(started := m.started - {e.runId.value}) else m;
      var refused := Inc(noted, RunsRefusedTotal, map["code" := CodeOf(e)]);
      var moved :=
        if counted then AddGauge(noted, RunsActive, -1, Some(0)) else if e.kind == "run.failed" then refused else noted;
      IncTotals(noted, RunsRefusedTotal, map["code" := CodeOf(e)], RunsTotal);
      SameCountersSameTotal(noted, m);
      SameCountersSameTotal(AddGauge(noted, RunsActive, -1, Some(0)), m);
      IncTotals(moved, RunsTotal, map["status" := StatusFor(e.kind)], RunsTotal);
    } else if e.kind == "run.started" {
      SameCountersSameTotal(Recorded(m, e), m);
    } else {
      ActivityKeeps(m, e);
      SameRunsTotal(m, RecordActivity(m, e));
    }
  }

  lemma SameCountersSameTotal(m: Registry, n: Registry)
    requires m.counters == n.counters
    ensures Total(m, RunsTotal) == Total(n, RunsTotal)
  {
    assert SeriesOf(m, RunsTotal) == SeriesOf(n, RunsTotal);
  }

  function RefusedSeries(code: string): Series {
    Series(RunsRefusedTotal, map["code" := code])
  }

  lemma RecordedRefusals(m: Registry, e: Event, code: string)
    ensures CounterOf(Recorded(m, e), RefusedSeries(code))
            == CounterOf(m, RefusedSeries(code)) + if Refuses(m.started, e) && CodeOf(e) == code then 1 else 0
  {
    hide RecordActivity;
    assert map["code" := CodeOf(e)]["code"] == CodeOf(e);
    if !IsMilestone(e.kind) {
      ActivityKeeps(m, e);
    }
  }

  // ---- the whole stream ----

  lemma LiveStep(events: seq<Event>, k: nat, i: nat)
    requires k < |events| && i < k
    ensures Live(events, i, k + 1) <==> Live(events, i, k) && !(IsTerminal(events[k].kind) && events[k].runId == events[i].runId)
  {
  }

  lemma ActiveStep(events: seq<Event>, k: nat)
    requires k < |events|
    ensures ActiveIds(events, k + 1) == StartedAfter(ActiveIds(events, k), events[k])
  {
    forall i: nat | i < k
      ensures Live(events, i, k + 1) <==> Live(events, i, k) && !(IsTerminal(events[k].kind) && events[k].runId == events[i].runId)
    {
      LiveStep(events, k, i);
    }
    assert Live(events, k, k + 1) <==> events[k].kind == "run.started";
    var before, after := ActiveIds(events, k), ActiveIds(events, k + 1);
    forall id | id in StartedAfter(before, events[k])
      ensures id in after
    {
      if id in before && !(events[k].kind == "run.started" && events[k].runId == Some(id)) {
        var i: nat :| i < k && Live(events, i, k) && events[i].runId == Some(id);
        assert Live(events, i, k + 1);
      } else {
        assert Live(events, k, k + 1) && events[k].runId == Some(id);
      }
    }
  }

  lemma ActiveIffListed(events: seq<Event>, k: nat, id: string)
    requires k <= |events|
    ensures Active(events, k, id) <==> id in ActiveIds(events, k)
  {
  }

  lemma InitialTotal()
    ensures Total(INITIAL, RunsTotal) == 0
  {
    var zero := Series(RunsTotal, map[]);
    assert forall s: Series :: s in INITIAL.counters ==> s.labels == map[] && INITIAL.counters[s] == 0;
    assert forall name :: name in CATALOG ==> Series(name, map[]) in INITIAL.counters;
    assert RunsTotal in CATALOG;
    assert SeriesOf(INITIAL, RunsTotal) == {zero};
    SumTakesOut(INITIAL.counters, {zero}, zero);
    assert {zero} - {zero} == {};
  }

  lemma {:induction false} GaugeIsFold(events: seq<Event>, k: nat)
    requires k <= |events| && Named(events)
    ensures var m := Fold(events, k); m.started == ActiveIds(events, k) && GaugeOf(m, RunsActive) == |m.started|
  {
    hide Recorded, ActiveIds, StartedAfter;
    if k == 0 {
      assert ActiveIds(events, 0) == {} by { NoneActive(events); }
    } else {
      var m := k - 1;
      GaugeIsFold(events, m);
      RecordedGauge(Fold(events, m), events[m]);
      ActiveStep(events, m);
    }
  }

  lemma NoneActive(events: seq<Event>)
    ensures ActiveIds(events, 0) == {}
  {
  }

  /** Main result: at any point of any event stream whose run events carry run ids —
      duplicates and refused runs included — `runs_active` is the number of runs the log
      shows started and not yet ended. */
  lemma RunsActiveIsLogCount(events: seq<Event>, k: nat)
    requires k <= |events| && Named(events)
    ensures GaugeOf(Fold(events, k), RunsActive) == |ActiveIds(events, k)|
  {
    GaugeIsFold(events, k);
  }

  /** The series of `runs_total` sum to the number of terminal events. */
  lemma {:induction false} RunsTotalIsLogCount(events: seq<Event>, k: nat)
    requires k <= |events|
    ensures Total(Fold(events, k), RunsTotal) == Endings(events, k)
  {
    hide Recorded, Total;
    if k == 0 {
      InitialTotal();
    } else {
      RunsTotalIsLogCount(events, k - 1);
      RecordedTotal(Fold(events, k - 1), events[k - 1]);
    }
  }

  /** `runs_refused_total` counts, per code, the failures of runs not active at the time. */
  lemma {:induction false} RefusedIsLogCount(events: seq<Event>, k: nat, code: string)
    requires k <= |events| && Named(events)
    ensures CounterOf(Fold(events, k), RefusedSeries(code)) == Refusals(events, k, code)
  {
    hide Recorded, Active, Refuses, CounterOf, RefusedSeries, CodeOf;
    if k == 0 {
      InitialRefusals(code);
    } else {
      var m := k - 1;
      RefusedIsLogCount(events, m, code);
      RecordedRefusals(Fold(events, m), events[m], code);
      RefusesIffNotActive(events, m);
    }
  }

  lemma RefusesIffNotActive(events: seq<Event>, k: nat)
    requires k < |events| && Named(events)
    ensures var e := events[k];
            Refuses(Fold(events, k).started, e)
            <==> e.kind == "run.failed" && e.runId.Some? && !Active(events, k, e.runId.value)
  {
    hide Fold, ActiveIds, Active;
    GaugeIsFold(events, k);
    if events[k].runId.Some? {
      ActiveIffListed(events, k, events[k].runId.value);
    }
  }

  lemma InitialRefusals(code: string)
    ensures CounterOf(INITIAL, RefusedSeries(code)) == 0
  {
    assert forall s: Series :: s in INITIAL.counters ==> INITIAL.counters[s] == 0;
  }

  /** Where the equation ends: from a gauge that equals the number of started runs, an event
      breaks it exactly when it starts a run without an id, or ends one without an id while
      some run is active. */
  lemma GaugeDriftsIff(m: Registry, e: Event)
    requires GaugeOf(m, RunsActive) == |m.started|
    ensures var m' := Recorded(m, e);
            GaugeOf(m', RunsActive) != |m'.started|
            <==> e.runId.None? && (e.kind == "run.started" || (IsTerminal(e.kind) && m.started != {}))
  {
    hide RecordActivity, SeriesOf;
    if e.runId.Some? || !IsMilestone(e.kind) {
      RecordedGauge(m, e);
    }
  }

  // ---- every series, from the log ----

  /** What each series counts. A refusal is a failure of a run that was not active. */
  predicate Counts(s: Series, e: Event, refusal: bool) {
    match s.name
    case RunsTotal =>
      || (s.labels == map["status" := "success"] && e.kind == "run.complete")
      || (s.labels == map["status" := "failed"] && e.kind == "run.failed")
      || (s.labels == map["status" := "cancelled"] && e.kind == "run.cancelled")
    case RunsRefusedTotal =>
      refusal && s.labels == map["code" := if e.code.Some? && e.code.value != "" then e.code.value else "unknown"]
    case HandshakesTotal =>
      || (s.labels == map["outcome" := "established"] && e.kind == "trust.established")
      || (s.labels == map["outcome" := "failed"] && e.kind in {"handshake.failed", "trust.failed"})
    case TctsIssuedTotal => s.labels == map[] && e.kind in {"trust.established", "delegation.redeemed"}
    case DelegationsTotal =>
      || (s.labels == map["outcome" := "issued"] && e.kind == "delegation.issued")
      || (s.labels == map["outcome" := "redeemed"] && e.kind == "delegation.redeemed")
      || (s.labels == map["outcome" := "rejected"] && e.kind == "delegation.rejected")
    case RevocationsTotal =>
      || (s.labels == map["source" := "local"] && e.kind == "tct.revoked")
      || (s.labels == map["source" := "cp"] && e.kind == "revocation.published")
    case KeyRotationsTotal => s.labels == map[] && e.kind == "identity.key.rotated"
    case StepOutcomesTotal =>
      || (s.labels == map["outcome" := "complete"] && e.kind == "step.complete")
      || (s.labels == map["outcome" := "denied"] && e.kind in {"step.access_denied", "step.unexpected_status"})
      || (s.labels == map["outcome" := "skipped"] && e.kind == "step.skipped")
    case CapabilityCallsTotal =>
      && e.capability.Some? && e.capability.value != ""
      && (|| (s.labels == map["outcome" := "success"] && e.kind == "step.complete")
          || (s.labels == map["outcome" := "denied"] && e.kind in {"step.access_denied", "step.unexpected_status"}))
    case RunsActive => false
  }

  ghost function LogCount(events: seq<Event>, k: nat, s: Series): nat
    requires k <= |events|
  {
    if k == 0 then 0
    else
      var e := events[k - 1];
      var refusal := e.kind == "run.failed" && e.runId.Some? && !Active(events, k - 1, e.runId.value);
      LogCount(events, k - 1, s) + if Counts(s, e, refusal) then 1 else 0
  }

  lemma IncCounts()
    ensures forall m: Registry, name, labels, s: Series ::
              CounterOf(Inc(m, name, labels), s) == CounterOf(m, s) + if s == Series(name, labels) then 1 else 0
  {
  }

  lemma EndMoves(m: Registry, e: Event, s: Series)
    requires IsTerminal(e.kind)
    ensures CounterOf(RecordEnd(m, e), s)
            == CounterOf(m, s) + (if s == Series(RunsTotal, map["status" := StatusFor(e.kind)]) then 1 else 0)
               + if Refuses(m.started, e) && s == Series(RunsRefusedTotal, map["code" := CodeOf(e)]) then 1 else 0
  {
    hide Inc, CodeOf, StatusFor;
    IncCounts();
  }

  lemma EndMeans(e: Event, s: Series, refusal: bool)
    requires IsTerminal(e.kind)
    ensures Counts(s, e, refusal)
            <==> || s == Series(RunsTotal, map["status" := StatusFor(e.kind)])
                 || (refusal && s == Series(RunsRefusedTotal, map["code" := CodeOf(e)]))
  {
  }

  lemma EndCounts(m: Registry, e: Event, s: Series)
    requires IsTerminal(e.kind)
    ensures CounterOf(RecordEnd(m, e), s) == CounterOf(m, s) + if Counts(s, e, Refuses(m.started, e)) then 1 else 0
  {
    hide Counts, RecordEnd, CounterOf, Refuses, StatusFor, CodeOf;
    EndMoves(m, e, s);
    EndMeans(e, s, Refuses(m.started, e));
  }

  lemma TrustCounts(m: Registry, e: Event, s: Series)
    requires e.kind in {"trust.established", "handshake.failed", "trust.failed", "delegation.issued", "delegation.redeemed",
                        "delegation.rejected"}
    ensures CounterOf(RecordActivity(m, e), s) == CounterOf(m, s) + if Counts(s, e, false) then 1 else 0
  {
    hide Inc, CounterOf;
    IncCounts();
  }

  lemma RevocationCounts(m: Registry, e: Event, s: Series)
    requires e.kind in {"tct.revoked", "revocation.published", "identity.key.rotated", "step.skipped"}
    ensures CounterOf(RecordActivity(m, e), s) == CounterOf(m, s) + if Counts(s, e, false) then 1 else 0
  {
    hide Inc, CounterOf;
    IncCounts();
  }

  lemma StepCounts(m: Registry, e: Event, s: Series)
    requires e.kind in {"step.complete", "step.access_denied", "step.unexpected_status"}
    ensures CounterOf(RecordActivity(m, e), s) == CounterOf(m, s) + if Counts(s, e, false) then 1 else 0
  {
    hide Inc, CounterOf;
    IncCounts();
  }

  lemma OtherCounts(m: Registry, e: Event, s: Series)
    requires !IsMilestone(e.kind)
    requires e.kind !in {"trust.established", "handshake.failed", "trust.failed", "delegation.issued", "delegation.redeemed",
                         "delegation.rejected"}
    requires e.kind !in {"tct.revoked", "revocation.published", "identity.key.rotated", "step.skipped"}
    requires e.kind !in {"step.complete", "step.access_denied", "step.unexpected_status"}
    ensures RecordActivity(m, e) == m && !Counts(s, e, false)
  {
  }

  /** One event adds one to exactly the series that count it. */
  lemma RecordedCounts(m: Registry, e: Event, s: Series)
    ensures CounterOf(Recorded(m, e), s) == CounterOf(m, s) + if Counts(s, e, Refuses(m.started, e)) then 1 else 0
  {
    hide RecordActivity, RecordEnd, CounterOf, Counts;
    if IsTerminal(e.kind) {
      EndCounts(m, e, s);
    } else if e.kind == "run.started" {
      StartCounts(m, e, s);
    } else if e.kind in {"trust.established", "handshake.failed", "trust.failed", "delegation.issued", "delegation.redeemed",
                         "delegation.rejected"} {
      TrustCounts(m, e, s);
    } else if e.kind in {"tct.revoked", "revocation.published", "identity.key.rotated", "step.skipped"} {
      RevocationCounts(m, e, s);
    } else if e.kind in {"step.complete", "step.access_denied", "step.unexpected_status"} {
      StepCounts(m, e, s);
    } else {
      OtherCounts(m, e, s);
    }
  }

  lemma StartCounts(m: Registry, e: Event, s: Series)
    requires e.kind == "run.started"
    ensures CounterOf(RecordStart(m, e), s) == CounterOf(m, s) && !Counts(s, e, false)
  {
  }

  /** Main result: at any point of any stream, every series of every counter, whatever its
      labels, is the number of events so far that it counts, and the others are zero. */
  lemma {:induction false} EverySeriesIsLogCount(events: seq<Event>, k: nat, s: Series)
    requires k <= |events| && (s.name.RunsRefusedTotal? ==> Named(events))
    ensures CounterOf(Fold(events, k), s) == LogCount(events, k, s)
  {
    hide Recorded, Active, Refuses, CounterOf, Counts, Named;
    if k == 0 {
      InitialCounts(s);
    } else {
      var m := k - 1;
      EverySeriesIsLogCount(events, m, s);
      RecordedCounts(Fold(events, m), events[m], s);
      if s.name.RunsRefusedTotal? {
        RefusesIffNotActive(events, m);
      } else {
        RefusalIsForRefused(s, events[m]);
      }
    }
  }

  lemma InitialCounts(s: Series)
    ensures CounterOf(INITIAL, s) == 0
  {
    assert forall t: Series :: t in INITIAL.counters ==> INITIAL.counters[t] == 0;
  }

  lemma RefusalIsForRefused(s: Series, e: Event)
    requires !s.name.RunsRefusedTotal?
    ensures Counts(s, e, true) == Counts(s, e, false)
  {
  }

  // ---- balances between the counters ----

  /** Every token issued comes from a handshake or a redemption, and every counted
      capability call from a step with the matching outcome. */
  ghost predicate Balanced(m: Registry) {
    && CounterOf(m, Series(TctsIssuedTotal, map[]))
       == CounterOf(m, Series(HandshakesTotal, Outcome("established"))) + CounterOf(m, Series(DelegationsTotal, Outcome("redeemed")))
    && CounterOf(m, Series(CapabilityCallsTotal, Outcome("success"))) <= CounterOf(m, Series(StepOutcomesTotal, Outcome("complete")))
    && CounterOf(m, Series(CapabilityCallsTotal, Outcome("denied"))) <= CounterOf(m, Series(StepOutcomesTotal, Outcome("denied")))
  }

  lemma OutcomesDiffer(a: string, b: string)
    requires a != b
    ensures Outcome(a) != Outcome(b) && Outcome(a) != map[]
  {
    assert Outcome(a)["outcome"] == a;
  }

  predicate Weighs(s: Series) {
    || s.name == TctsIssuedTotal || s.name == CapabilityCallsTotal
    || s == Series(HandshakesTotal, Outcome("established")) || s == Series(DelegationsTotal, Outcome("redeemed"))
  }

  lemma OtherIncIsBalanced(m: Registry, name: Name, labels: map<string, string>)
    requires Balanced(m) && !Weighs(Series(name, labels))
    ensures Balanced(Inc(m, name, labels))
  {
    hide Outcome, Inc, CounterOf;
    IncCounts();
  }

  lemma TokenIncIsBalanced(m: Registry, name: Name, outcome: string)
    requires Balanced(m)
    requires (name == HandshakesTotal && outcome == "established") || (name == DelegationsTotal && outcome == "redeemed")
    ensures Balanced(Inc(Inc(m, name, Outcome(outcome)), TctsIssuedTotal, map[]))
  {
    hide Outcome, Inc, CounterOf;
    IncCounts();
  }

  lemma CallIncIsBalanced(m: Registry, step: string, call: string)
    requires Balanced(m) && ((step == "complete" && call == "success") || (step == "denied" && call == "denied"))
    ensures Balanced(Inc(Inc(m, StepOutcomesTotal, Outcome(step)), CapabilityCallsTotal, Outcome(call)))
  {
    hide Outcome, Inc, CounterOf;
    IncCounts();
    OutcomesDiffer("success", "denied");
  }

  lemma OrdinaryIncs(m: Registry)
    requires Balanced(m)
    ensures forall outcome | outcome != "established" :: Balanced(Inc(m, HandshakesTotal, Outcome(outcome)))
    ensures forall outcome | outcome != "redeemed" :: Balanced(Inc(m, DelegationsTotal, Outcome(outcome)))
    ensures forall outcome :: Balanced(Inc(m, StepOutcomesTotal, Outcome(outcome)))
    ensures forall labels :: Balanced(Inc(m, RevocationsTotal, labels)) && Balanced(Inc(m, KeyRotationsTotal, labels))
  {
    hide Inc, Balanced, Outcome;
    forall outcome | outcome != "established" ensures Balanced(Inc(m, HandshakesTotal, Outcome(outcome))) {
      OutcomesDiffer(outcome, "established");
      OtherIncIsBalanced(m, HandshakesTotal, Outcome(outcome));
    }
    forall outcome | outcome != "redeemed" ensures Balanced(Inc(m, DelegationsTotal, Outcome(outcome))) {
      OutcomesDiffer(outcome, "redeemed");
      OtherIncIsBalanced(m, DelegationsTotal, Outcome(outcome));
    }
    forall outcome ensures Balanced(Inc(m, StepOutcomesTotal, Outcome(outcome))) {
      OtherIncIsBalanced(m, StepOutcomesTotal, Outcome(outcome));
    }
    forall labels ensures Balanced(Inc(m, RevocationsTotal, labels)) && Balanced(Inc(m, KeyRotationsTotal, labels)) {
      OtherIncIsBalanced(m, RevocationsTotal, labels);
      OtherIncIsBalanced(m, KeyRotationsTotal, labels);
    }
  }

  lemma ActivityIsBalanced(m: Registry, e: Event)
    requires Balanced(m)
    ensures Balanced(RecordActivity(m, e))
  {
    hide Outcome, Inc, Balanced;
    OrdinaryIncs(m);
    TokenIncIsBalanced(m, HandshakesTotal, "established");
    TokenIncIsBalanced(m, DelegationsTotal, "redeemed");
    CallIncIsBalanced(m, "complete", "success");
    CallIncIsBalanced(m, "denied", "denied");
  }

  lemma SameCountersBalanced(m: Registry, n: Registry)
    requires Balanced(m) && n.counters == m.counters
    ensures Balanced(n)
  {
  }

  lemma RecordedIsBalanced(m: Registry, e: Event)
    requires Balanced(m)
    ensures Balanced(Recorded(m, e))
  {
    hide Outcome, RecordActivity, Inc, Balanced, CodeOf, StatusFor;
    if e.kind == "run.started" {
      SameCountersBalanced(m, RecordStart(m, e));
    } else if IsTerminal(e.kind) {
      var noted := if e.runId.Some? then m.(started := m.started - {e.runId.value}) else m;
      var refused := Inc(noted, RunsRefusedTotal, map["code" := CodeOf(e)]);
      var lowered := AddGauge(noted, RunsActive, -1, Some(0));
      var status := map["status" := StatusFor(e.kind)];
      SameCountersBalanced(m, noted);
      SameCountersBalanced(m, lowered);
      OtherIncIsBalanced(noted, RunsRefusedTotal, map["code" := CodeOf(e)]);
      OtherIncIsBalanced(noted, RunsTotal, status);
      OtherIncIsBalanced(lowered, RunsTotal, status);
      OtherIncIsBalanced(refused, RunsTotal, status);
    } else {
      ActivityIsBalanced(m, e);
    }
  }

  lemma InitialIsBalanced()
    ensures Balanced(INITIAL)
  {
    assert forall s: Series :: s in INITIAL.counters ==> INITIAL.counters[s] == 0;
    assert TctsIssuedTotal in CATALOG;
  }

  /** The balances hold after every event stream. */
  lemma {:induction false} CountersBalance(events: seq<Event>, k: nat)
    requires k <= |events|
    ensures Balanced(Fold(events, k))
  {
    hide Balanced, Recorded;
    if k == 0 {
      InitialIsBalanced();
    } else {
      CountersBalance(events, k - 1);
      RecordedIsBalanced(Fold(events, k - 1), events[k - 1]);
    }
  }

  // ---- a finished run, seen by the metrics ----

  lemma {:induction false} LastMilestone(events: seq<Event>)
    requires var marks := Milestones(events); marks != [] && IsTerminal(marks[|marks| - 1])
    ensures forall i: nat :: i < |events| && events[i].kind == "run.started" ==>
              exists j :: i < j < |events| && IsTerminal(events[j].kind)
  {
    var n := |events| - 1;
    var last := events[n];
    if !IsTerminal(last.kind) {
      LastMilestone(events[..n]);
      forall i: nat | i < |events| && events[i].kind == "run.started"
        ensures exists j :: i < j < |events| && IsTerminal(events[j].kind)
      {
        assert i != n;
        assert events[..n][i] == events[i];
        var j :| i < j < n && IsTerminal(events[..n][j].kind);
        assert IsTerminal(events[j].kind);
      }
    }
  }

  function Terminals(marks: seq<string>): nat {
    if marks == [] then 0
    else Terminals(marks[..|marks| - 1]) + if IsTerminal(marks[|marks| - 1]) then 1 else 0
  }

  lemma TerminalsAppend(marks: seq<string>, kind: string)
    ensures Terminals([]) == 0
    ensures Terminals(marks + [kind]) == Terminals(marks) + if IsTerminal(kind) then 1 else 0
  {
    assert (marks + [kind])[..|marks|] == marks;
  }

  lemma {:induction false} EndingsAreTerminals(events: seq<Event>, k: nat)
    requires k <= |events|
    ensures Endings(events, k) == Terminals(Milestones(events[..k]))
  {
    hide Terminals;
    if k == 0 {
      TerminalsAppend([], "");
      assert events[..0] == [];
    } else {
      EndingsAreTerminals(events, k - 1);
      EndingsStep(events, k - 1);
    }
  }

  lemma EndingsStep(events: seq<Event>, k: nat)
    requires k < |events|
    ensures Terminals(Milestones(events[..k + 1]))
            == Terminals(Milestones(events[..k])) + if IsTerminal(events[k].kind) then 1 else 0
  {
    hide Terminals, Milestones;
    assert events[..k + 1] == events[..k] + [events[k]];
    MilestonesAppend(events[..k], events[k]);
    var marks := Milestones(events[..k]);
    TerminalsAppend(marks, events[k].kind);
    assert marks + [] == marks;
  }

  /** The log of a run that ended once, whatever its outcome, leaves `runs_active` at zero
      and adds one to `runs_total`. */
  lemma FinishedRunCountsOnce(s: Store, id: string, started: bool, kind: string)
    requires Ended(s, id, started, kind)
    requires forall i :: 0 <= i < |EventsOf(s, id)| ==> EventsOf(s, id)[i].runId == Some(id)
    ensures var log := EventsOf(s, id);
            GaugeOf(Fold(log, |log|), RunsActive) == 0 && Total(Fold(log, |log|), RunsTotal) == 1
  {
    hide EventsOf, Milestones, Fold, GaugeOf, Total;
    var log := EventsOf(s, id);
    LastMilestone(log);
    assert ActiveIds(log, |log|) == {};
    RunsActiveIsLogCount(log, |log|);
    RunsTotalIsLogCount(log, |log|);
    EndingsAreTerminals(log, |log|);
    assert log[..|log|] == log;
    TerminalsOfEnded(started, kind);
  }

  lemma TerminalsOfEnded(started: bool, kind: string)
    requires IsTerminal(kind)
    ensures Terminals(if started then ["run.started", kind] else [kind]) == 1
  {
    assert ["run.started", kind][..1] == ["run.started"];
    assert ["run.started"][..0] == [];
    assert [kind][..0] == [];
  }

  // ---- the registry object ----

  class Metrics {
    var counters: map<Series, int>
    var gauges: map<Name, int>
    var started: set<string>

    ghost function State(): Registry
      reads this
    {
      Registry(counters, gauges, started)
    }

    constructor ()
      ensures State() == INITIAL
    {
      counters, gauges, started := INITIAL.counters, map[], {};
    }

    method RunStarted(id: string) returns (first: bool)
      modifies this`started
      ensures first <==> id !in old(started)
      ensures started == old(started) + {id}
    {
      if id in started {
        assert started + {id} == started;
        return false;
      }
      started := started + {id};
      first := true;
    }

    method RunFinished(id: string) returns (counted: bool)
      modifies this`started
      ensures counted <==> id in old(started)
      ensures started == old(started) - {id}
    {
      counted := id in started;
      if counted {
        started := started - {id};
      }
    }

    method Increment(name: Name, labels: map<string, string>)
      modifies this`counters
      ensures State() == Inc(old(State()), name, labels)
    {
      var s := Series(name, labels);
      counters := counters[s := (if s in counters then counters[s] else 0) + 1];
    }

    method MoveGauge(name: Name, delta: int, floor: Option<int>)
      modifies this`gauges
      ensures State() == AddGauge(old(State()), name, delta, floor)
    {
      var value := (if name in gauges then gauges[name] else 0) + delta;
      if floor.Some? && value < floor.value {
        value := floor.value;
      }
      gauges := gauges[name := value];
    }

    method RecordRun(e: Event)
      requires IsMilestone(e.kind)
      modifies this
      ensures State() == Recorded(old(State()), e)
    {
      if e.kind == "run.started" {
        if e.runId.Some? {
          var first := RunStarted(e.runId.value);
          if !first {
            assert started == old(started);
            return;
          }
        }
        MoveGauge(RunsActive, 1, None);
        return;
      }
      var counted := true;
      if e.runId.Some? {
        counted := RunFinished(e.runId.value);
      }
      if counted {
        MoveGauge(RunsActive, -1, Some(0));
      } else if e.kind == "run.failed" {
        Increment(RunsRefusedTotal, map["code" := CodeOf(e)]);
      }
      Increment(RunsTotal, map["status" := StatusFor(e.kind)]);
    }

    method RecordActivities(e: Event)
      requires !IsMilestone(e.kind)
      modifies this`counters
      ensures State() == Recorded(old(State()), e)
    {
      var k := e.kind;
      if k == "trust.established" {
        Increment(HandshakesTotal, Outcome("established"));
        Increment(TctsIssuedTotal, map[]);
      } else if k == "handshake.failed" || k == "trust.failed" {
        Increment(HandshakesTotal, Outcome("failed"));
      } else if k == "delegation.issued" {
        Increment(DelegationsTotal, Outcome("issued"));
      } else if k == "delegation.redeemed" {
        Increment(DelegationsTotal, Outcome("redeemed"));
        Increment(TctsIssuedTotal, map[]);
      } else if k == "delegation.rejected" {
        Increment(DelegationsTotal, Outcome("rejected"));
      } else if k == "tct.revoked" {
        Increment(RevocationsTotal, map["source" := "local"]);
      } else if k == "revocation.published" {
        Increment(RevocationsTotal, map["source" := "cp"]);
      } else if k == "identity.key.rotated" {
        Increment(KeyRotationsTotal, map[]);
      } else if k == "step.complete" {
        Increment(StepOutcomesTotal, Outcome("complete"));
        if HasCapability(e) {
          Increment(CapabilityCallsTotal, Outcome("success"));
        }
      } else if k == "step.access_denied" || k == "step.unexpected_status" {
        Increment(StepOutcomesTotal, Outcome("denied"));
        if HasCapability(e) {
          Increment(CapabilityCallsTotal, Outcome("denied"));
        }
      } else if k == "step.skipped" {
        Increment(StepOutcomesTotal, Outcome("skipped"));
      }
    }

    method Record(e: Event)
      modifies this
      ensures State() == Recorded(old(State()), e)
    {
      if IsMilestone(e.kind) {
        RecordRun(e);
      } else {
        RecordActivities(e);
      }
    }
  }

  // ---- label values in the exposition text ----

  /** `str.replace` of one character. */
  function Replace(s: string, c: char, sub: string): string {
    if s == [] then [] else (if s[0] == c then sub else [s[0]]) + Replace(s[1..], c, sub)
  }

  /** The source's three replacements, one after the other. */
  function Escape(value: string): string {
    Replace(Replace(Replace(value, '\\', "\\\\"), '"', "\\\""), '\n', "\\n")
  }

  function EscapedChar(c: char): string {
    if c == '\\' then "\\\\" else if c == '"' then "\\\"" else if c == '\n' then "\\n" else [c]
  }

  /** One pass, character by character. */
  function EscapedText(value: string): string {
    if value == [] then [] else EscapedChar(value[0]) + EscapedText(value[1..])
  }

  /** A label value as a scraper reads it: up to the closing quote, and what follows it. */
  function ReadLabel(s: string): Option<(string, string)> {
    if s == [] || s[0] == '\n' then None
    else if s[0] == '"' then Some(([], s[1..]))
    else if s[0] == '\\' then
      if |s| == 1 || s[1] !in {'\\', '"', 'n'} then None
      else
        var c := if s[1] == 'n' then '\n' else s[1];
        match ReadLabel(s[2..])
        case None => None
        case Some((value, rest)) => Some(([c] + value, rest))
    else
      match ReadLabel(s[1..])
      case None => None
      case Some((value, rest)) => Some(([s[0]] + value, rest))
  }

  lemma {:induction false} ReplaceConcat(a: string, b: string, c: char, sub: string)
    ensures Replace(a + b, c, sub) == Replace(a, c, sub) + Replace(b, c, sub)
  {
    if a == [] {
      assert a + b == b;
    } else {
      hide Replace;
      ReplaceConcat(a[1..], b, c, sub);
      var head := if a[0] == c then sub else [a[0]];
      ReplaceHead(a, c, sub);
      ReplaceHead(a + b, c, sub);
      assert (a + b)[1..] == a[1..] + b;
      Regroup(head, Replace(a[1..], c, sub), Replace(b, c, sub));
    }
  }

  lemma ReplaceHead(s: string, c: char, sub: string)
    requires s != []
    ensures Replace(s, c, sub) == (if s[0] == c then sub else [s[0]]) + Replace(s[1..], c, sub)
  {
  }

  lemma Regroup(a: string, b: string, c: string)
    ensures a + (b + c) == (a + b) + c
  {
  }

  lemma EscapeConcat(a: string, b: string)
    ensures Escape(a + b) == Escape(a) + Escape(b)
  {
    ReplaceConcat(a, b, '\\', "\\\\");
    var a1, b1 := Replace(a, '\\', "\\\\"), Replace(b, '\\', "\\\\");
    ReplaceConcat(a1, b1, '"', "\\\"");
    ReplaceConcat(Replace(a1, '"', "\\\""), Replace(b1, '"', "\\\""), '\n', "\\n");
  }

  lemma ReplaceOne(x: char, c: char, sub: string)
    ensures Replace([x], c, sub) == if x == c then sub else [x]
  {
    assert [x][1..] == [];
  }

  lemma ReplaceTwo(x: char, y: char, c: char, sub: string)
    requires x != c
    ensures Replace([x, y], c, sub) == [x] + if y == c then sub else [y]
  {
    assert [x, y][1..] == [y];
    ReplaceOne(y, c, sub);
  }

  lemma EscapeOne(c: char)
    ensures Escape([c]) == EscapedChar(c)
  {
    ReplaceOne(c, '\\', "\\\\");
    if c == '\\' {
      ReplaceTwo('\\', '\\', '"', "\\\"");
      ReplaceTwo('\\', '\\', '\n', "\\n");
    } else {
      ReplaceOne(c, '"', "\\\"");
      ReplaceTwo('\\', '"', '\n', "\\n");
      ReplaceOne(c, '\n', "\\n");
    }
  }

  /** The three replacements in this order are one character-wise escape: none of them
      touches what an earlier one put in. */
  lemma {:induction false} EscapeIsCharWise(value: string)
    ensures Escape(value) == EscapedText(value)
  {
    if value != [] {
      EscapeIsCharWise(value[1..]);
      EscapeOne(value[0]);
      EscapeConcat([value[0]], value[1..]);
      assert value == [value[0]] + value[1..];
    }
  }

  lemma ReadOneMore(c: char, tail: string)
    requires ReadLabel(tail).Some?
    ensures ReadLabel(EscapedChar(c) + tail) == Some(([c] + ReadLabel(tail).value.0, ReadLabel(tail).value.1))
  {
    var piece := EscapedChar(c);
    assert (piece + tail)[|piece|..] == tail;
    assert |piece| == 1 ==> (piece + tail)[1..] == tail;
    assert |piece| == 2 ==> (piece + tail)[2..] == tail;
  }

  lemma {:induction false} EscapedTextReads(value: string, rest: string)
    ensures ReadLabel(EscapedText(value) + ['"'] + rest) == Some((value, rest))
  {
    hide EscapedChar;
    if value == [] {
      assert (EscapedText(value) + ['"'] + rest)[1..] == rest;
    } else {
      hide ReadLabel;
      EscapedTextReads(value[1..], rest);
      var tail := EscapedText(value[1..]) + ['"'] + rest;
      ReadOneMore(value[0], tail);
      assert EscapedText(value) + ['"'] + rest == EscapedChar(value[0]) + tail;
      assert value == [value[0]] + value[1..];
    }
  }

  /** Whatever follows the closing quote, the escaped label value reads back: no value can
      end its own quotes or its line. */
  lemma EscapeReadsBack(value: string, rest: string)
    ensures ReadLabel(Escape(value) + ['"'] + rest) == Some((value, rest))
  {
    EscapeIsCharWise(value);
    EscapedTextReads(value, rest);
  }

  /** The text is a label's whole value, of one character. */
  predicate SpellsLabel(t: string, c: char) {
    ReadLabel(t + ['"']) == Some(([c], []))
  }

  /** The escape of a character is the only text that reads as that character and nothing
      more, so nothing is escaped that need not be. */
  lemma EscapedCharIsCanonical(c: char, t: string)
    requires SpellsLabel(t, c)
    ensures t == EscapedChar(c)
  {
    var u := t + ['"'];
    assert u[0] != '\n' && u[0] != '"';
    var taken := if u[0] == '\\' then 2 else 1;
    var front := if u[0] != '\\' then u[0] else if u[1] == 'n' then '\n' else u[1];
    var rest := ReadLabel(u[taken..]).value;
    assert [front] + rest.0 == [c] && rest.1 == [];
    assert |[front] + rest.0| == 1 + |rest.0|;
    assert ([front] + rest.0)[0] == front;
    OneCharLeft(u[taken..]);
    assert |t| == taken && t == u[..taken];
    if taken == 2 {
      assert t == [u[0], u[1]];
    } else {
      assert t == [u[0]];
    }
  }

  /** Text that reads as the empty value with nothing left is a quote. */
  lemma OneCharLeft(t: string)
    requires ReadLabel(t) == Some(([], []))
    ensures t == ['"']
  {
  }
}
