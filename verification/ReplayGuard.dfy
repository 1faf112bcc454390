/** Replay and freshness checks for the handshake endpoint (agents/base/handshake_replay.py;
    RFC-AITP-0001 section 5.5, RFC-AITP-0009 section 3.1). */
module ReplayGuards {

  import opened Wrappers

  datatype Limits = Limits(tolerance: int, maxEntries: int)

  /** What reading an envelope yields: its id and, when numeric, its timestamp. */
  datatype Header = Unreadable | Header(id: string, timestamp: Option<real>)

  datatype Verdict = Admitted | InvalidEnvelope | ReplayDetected | TimestampExpired | TableFull

  /** message_id -> forget-after. */
  type Seen = map<string, real>

  function Pruned(seen: Seen, now: real): Seen {
    map id | id in seen && seen[id] >= now :: seen[id]
  }

  function Abs(x: real): real {
    if x < 0.0 then -x else x
  }

  /** One `check`. An unreadable envelope is refused before the clock is read. */
  function Check(l: Limits, seen: Seen, h: Header, now: real): (Seen, Verdict) {
    match h
    case Unreadable => (seen, InvalidEnvelope)
    case Header(id, timestamp) =>
      var kept := Pruned(seen, now);
      if id in kept then (kept, ReplayDetected)
      else if timestamp.None? || Abs(now - timestamp.value) > l.tolerance as real then (kept, TimestampExpired)
      else if |kept| >= l.maxEntries then (kept, TableFull)
      else (kept[id := timestamp.value + l.tolerance as real], Admitted)
  }

  // ---- runs ----

  datatype Arrival = Arrival(header: Header, at: real)

  function After(l: Limits, xs: seq<Arrival>, k: nat): Seen
    requires k <= |xs|
  {
    if k == 0 then map[] else Check(l, After(l, xs, k - 1), xs[k - 1].header, xs[k - 1].at).0
  }

  function VerdictOf(l: Limits, xs: seq<Arrival>, k: nat): Verdict
    requires k < |xs|
  {
    Check(l, After(l, xs, k), xs[k].header, xs[k].at).1
  }

  /** Arrival `j` was admitted, carries `id`, and its timestamp is still inside the window at `now`. */
  ghost predicate LiveAdmission(l: Limits, xs: seq<Arrival>, j: nat, id: string, now: real)
    requires j < |xs|
  {
    && VerdictOf(l, xs, j).Admitted?
    && xs[j].header.Header? && xs[j].header.id == id && xs[j].header.timestamp.Some?
    && xs[j].header.timestamp.value + l.tolerance as real >= now
  }

  /** Some of the first `k` arrivals is a live admission of `id`. */
  ghost predicate Live(l: Limits, xs: seq<Arrival>, k: nat, id: string, now: real)
    requires k <= |xs|
  {
    exists j: nat :: j < k && LiveAdmission(l, xs, j, id, now)
  }

  /** The ids of all live admissions among the first `k` arrivals. */
  ghost function LiveIds(l: Limits, xs: seq<Arrival>, k: nat, now: real): set<string>
    requires k <= |xs|
  {
    if k == 0 then {}
    else LiveIds(l, xs, k - 1, now)
         + if xs[k - 1].header.Header? && LiveAdmission(l, xs, k - 1, xs[k - 1].header.id, now)
           then {xs[k - 1].header.id} else {}
  }

  lemma {:induction false} LiveIdsAreLive(l: Limits, xs: seq<Arrival>, k: nat, now: real)
    requires k <= |xs|
    ensures forall id :: id in LiveIds(l, xs, k, now) <==> Live(l, xs, k, id, now)
  {
    hide VerdictOf;
    if k > 0 {
      LiveIdsAreLive(l, xs, k - 1, now);
      forall id
        ensures id in LiveIds(l, xs, k, now) <==> Live(l, xs, k, id, now)
      {
        if Live(l, xs, k, id, now) {
          var j: nat :| j < k && LiveAdmission(l, xs, j, id, now);
          assert j < k - 1 ==> Live(l, xs, k - 1, id, now);
        }
        if Live(l, xs, k - 1, id, now) {
          var j: nat :| j < k - 1 && LiveAdmission(l, xs, j, id, now);
          assert Live(l, xs, k, id, now);
        }
      }
    }
  }

  ghost predicate ClockAdvances(xs: seq<Arrival>) {
    forall i, j :: 0 <= i <= j < |xs| ==> xs[i].at <= xs[j].at
  }

  // ---- the table refines the unbounded history ----

  /** Every entry comes from an admission, and every admission live at `now` is in the table. */
  ghost predicate Tracks(l: Limits, xs: seq<Arrival>, k: nat, seen: Seen, now: real)
    requires k <= |xs|
  {
    && (forall id :: id in seen ==>
          exists j: nat :: j < k && LiveAdmission(l, xs, j, id, seen[id]))
    && (forall j: nat, id :: j < k && LiveAdmission(l, xs, j, id, now) ==>
          id in seen && LiveAdmission(l, xs, j, id, now) && xs[j].header.timestamp.value + l.tolerance as real <= seen[id])
  }

  lemma PruningKeepsTracking(l: Limits, xs: seq<Arrival>, k: nat, seen: Seen, now: real, later: real)
    requires k <= |xs| && Tracks(l, xs, k, seen, now) && now <= later
    ensures Tracks(l, xs, k, seen, later) && Tracks(l, xs, k, Pruned(seen, later), later)
    ensures forall id :: id in Pruned(seen, later) <==> Live(l, xs, k, id, later)
  {
    hide VerdictOf;
    forall j: nat, id | j < k && LiveAdmission(l, xs, j, id, later)
      ensures LiveAdmission(l, xs, j, id, now)
    {
    }
    forall id
      ensures id in Pruned(seen, later) <==> Live(l, xs, k, id, later)
    {
      if id in Pruned(seen, later) {
        var j: nat :| j < k && LiveAdmission(l, xs, j, id, seen[id]);
        assert LiveAdmission(l, xs, j, id, later);
      }
    }
  }

  lemma StepOf(l: Limits, xs: seq<Arrival>, k: nat)
    requires k < |xs|
    ensures (After(l, xs, k + 1), VerdictOf(l, xs, k)) == Check(l, After(l, xs, k), xs[k].header, xs[k].at)
  {
  }

  lemma CheckKeepsTracking(l: Limits, xs: seq<Arrival>, k: nat, seen: Seen)
    requires k < |xs| && seen == After(l, xs, k) && Tracks(l, xs, k, seen, xs[k].at)
    requires Tracks(l, xs, k, Pruned(seen, xs[k].at), xs[k].at)
    requires forall id :: id in Pruned(seen, xs[k].at) <==> Live(l, xs, k, id, xs[k].at)
    ensures Tracks(l, xs, k + 1, After(l, xs, k + 1), xs[k].at)
  {
    hide Pruned, Live, VerdictOf, After;
    StepOf(l, xs, k);
    var h, now := xs[k].header, xs[k].at;
    var (seen', verdict) := Check(l, seen, h, now);
    var before := if h.Unreadable? then seen else Pruned(seen, now);
    forall id | id in seen'
      ensures exists j: nat :: j < k + 1 && LiveAdmission(l, xs, j, id, seen'[id])
    {
      if verdict.Admitted? && id == h.id {
        assert LiveAdmission(l, xs, k, id, seen'[id]);
      } else {
        var j: nat :| j < k && LiveAdmission(l, xs, j, id, before[id]);
        assert LiveAdmission(l, xs, j, id, seen'[id]);
      }
    }
    forall j: nat, id | j < k + 1 && LiveAdmission(l, xs, j, id, now)
      ensures id in seen' && xs[j].header.timestamp.value + l.tolerance as real <= seen'[id]
    {
      if j < k {
        assert id in before;
        assert !(verdict.Admitted? && id == h.id);
      }
    }
  }

  /** After any run the table holds every admission still inside its window. */
  lemma {:induction false} TableTracksHistory(l: Limits, xs: seq<Arrival>, k: nat, now: real)
    requires ClockAdvances(xs) && k <= |xs| && (k > 0 ==> xs[k - 1].at <= now)
    ensures Tracks(l, xs, k, After(l, xs, k), now)
    ensures Tracks(l, xs, k, Pruned(After(l, xs, k), now), now)
    ensures forall id :: id in Pruned(After(l, xs, k), now) <==> Live(l, xs, k, id, now)
    decreases k
  {
    if k == 0 {
      PruningKeepsTracking(l, xs, 0, map[], now, now);
    } else {
      assert k > 1 ==> xs[k - 2].at <= xs[k - 1].at;
      TableTracksHistory(l, xs, k - 1, xs[k - 1].at);
      CheckKeepsTracking(l, xs, k - 1, After(l, xs, k - 1));
      PruningKeepsTracking(l, xs, k, After(l, xs, k), xs[k - 1].at, now);
    }
  }

  /** The verdict an unbounded history would give. */
  ghost function HistoryVerdict(l: Limits, xs: seq<Arrival>, k: nat): Verdict
    requires k < |xs|
  {
    match xs[k].header
    case Unreadable => InvalidEnvelope
    case Header(id, timestamp) =>
      if Live(l, xs, k, id, xs[k].at) then ReplayDetected
      else if timestamp.None? || Abs(xs[k].at - timestamp.value) > l.tolerance as real then TimestampExpired
      else if |LiveIds(l, xs, k, xs[k].at)| >= l.maxEntries then TableFull
      else Admitted
  }

  /** Main result: in every run the bounded table decides exactly as the full history would. */
  lemma TableRefinesHistory(l: Limits, xs: seq<Arrival>, k: nat)
    requires ClockAdvances(xs) && k < |xs|
    ensures VerdictOf(l, xs, k) == HistoryVerdict(l, xs, k)
  {
    hide Live, LiveIds, After, Pruned;
    var now := xs[k].at;
    TableTracksHistory(l, xs, k, now);
    LiveIdsAreLive(l, xs, k, now);
    var kept := Pruned(After(l, xs, k), now);
    assert kept.Keys == LiveIds(l, xs, k, now);
    assert |kept| == |kept.Keys|;
  }

  /** An id admitted twice was admitted the second time with a strictly later timestamp. */
  lemma ReadmissionIsLater(l: Limits, xs: seq<Arrival>, i: nat, j: nat)
    requires ClockAdvances(xs) && i < j < |xs|
    requires VerdictOf(l, xs, i).Admitted? && VerdictOf(l, xs, j).Admitted?
    requires xs[i].header.id == xs[j].header.id
    ensures xs[i].header.timestamp.value < xs[j].header.timestamp.value
  {
    TableRefinesHistory(l, xs, j);
    if xs[i].header.timestamp.value + l.tolerance as real >= xs[j].at {
      assert LiveAdmission(l, xs, i, xs[i].header.id, xs[j].at);
      assert Live(l, xs, j, xs[i].header.id, xs[j].at);
    }
  }

  /** A copy of an admitted envelope (same id and timestamp) is refused for ever: as a
      replay while its window lasts and as expired from then on. */
  lemma CopyIsRefused(l: Limits, xs: seq<Arrival>, i: nat, j: nat)
    requires ClockAdvances(xs) && i < j < |xs|
    requires VerdictOf(l, xs, i).Admitted? && xs[j].header == xs[i].header
    ensures VerdictOf(l, xs, j)
            == if Live(l, xs, j, xs[i].header.id, xs[j].at) then ReplayDetected else TimestampExpired
    ensures xs[i].header.timestamp.value + l.tolerance as real >= xs[j].at ==> VerdictOf(l, xs, j).ReplayDetected?
  {
    TableRefinesHistory(l, xs, j);
    if xs[i].header.timestamp.value + l.tolerance as real >= xs[j].at {
      assert LiveAdmission(l, xs, i, xs[i].header.id, xs[j].at);
    }
  }

  lemma {:induction false} TableIsBounded(l: Limits, xs: seq<Arrival>, k: nat)
    requires k <= |xs| && l.maxEntries >= 0
    ensures |After(l, xs, k)| <= l.maxEntries
  {
    if k > 0 {
      TableIsBounded(l, xs, k - 1);
      PruningShrinks(After(l, xs, k - 1), xs[k - 1].at);
    }
  }

  lemma {:induction false} SubsetIsSmaller(a: set<string>, b: set<string>)
    requires a <= b
    ensures |a| <= |b|
  {
    if a != {} {
      var x :| x in a;
      SubsetIsSmaller(a - {x}, b - {x});
    }
  }

  lemma PruningShrinks(seen: Seen, now: real)
    ensures |Pruned(seen, now)| <= |seen|
  {
    SubsetIsSmaller(Pruned(seen, now).Keys, seen.Keys);
  }

  // ---- clocks that step back ----

  predicate AdmittedWithId(l: Limits, xs: seq<Arrival>, k: nat, id: string)
    requires k < |xs|
  {
    xs[k].header.Header? && xs[k].header.id == id && VerdictOf(l, xs, k).Admitted?
  }

  /** Between i and k, some envelope was read — whatever became of it — at a time after `until`. */
  ghost predicate ReadAfter(xs: seq<Arrival>, i: nat, k: nat, until: real)
    requires k <= |xs|
  {
    exists m: nat :: i < m < k && xs[m].header.Header? && xs[m].at > until
  }

  /** An entry stays until an envelope is read after its window, by whatever clock. */
  lemma {:induction false} EntryStaysIff(l: Limits, xs: seq<Arrival>, i: nat, k: nat, id: string)
    requires i < k <= |xs| && AdmittedWithId(l, xs, i, id)
    requires forall m :: i < m < k ==> !AdmittedWithId(l, xs, m, id)
    ensures var until := xs[i].header.timestamp.value + l.tolerance as real;
            if ReadAfter(xs, i, k, until) then id !in After(l, xs, k)
            else id in After(l, xs, k) && After(l, xs, k)[id] == until
  {
    var m := k - 1;
    var until := xs[i].header.timestamp.value + l.tolerance as real;
    StepOf(l, xs, m);
    if m > i {
      hide After, VerdictOf;
      EntryStaysIff(l, xs, i, m, id);
      assert ReadAfter(xs, i, k, until) <==> ReadAfter(xs, i, m, until) || (xs[m].header.Header? && xs[m].at > until);
      assert !AdmittedWithId(l, xs, m, id);
    }
  }

  /** Main result: whatever the clock does, a copy of an admitted envelope is admitted again
      exactly when it is inside the window by the clock of its arrival, there is room, and
      in between some envelope was read at a time after that window. */
  lemma CopyReadmittedIff(l: Limits, xs: seq<Arrival>, i: nat, j: nat)
    requires i < j < |xs| && xs[i].header.Header? && xs[j].header == xs[i].header
    requires AdmittedWithId(l, xs, i, xs[i].header.id)
    requires forall m :: i < m < j ==> !AdmittedWithId(l, xs, m, xs[i].header.id)
    ensures var timestamp := xs[i].header.timestamp.value;
            VerdictOf(l, xs, j).Admitted?
            <==> && Abs(xs[j].at - timestamp) <= l.tolerance as real
                 && |Pruned(After(l, xs, j), xs[j].at)| < l.maxEntries
                 && ReadAfter(xs, i, j, timestamp + l.tolerance as real)
  {
    hide After;
    EntryStaysIff(l, xs, i, j, xs[i].header.id);
  }

  // ---- the guard object ----

  class ReplayGuard {
    const limits: Limits
    var seen: Seen

    constructor (toleranceSecs: int, maxEntries: int)
      ensures limits == Limits(toleranceSecs, maxEntries) && seen == map[]
    {
      limits := Limits(toleranceSecs, maxEntries);
      seen := map[];
    }

    method Admit(h: Header, now: real) returns (verdict: Verdict)
      modifies this
      ensures (seen, verdict) == Check(limits, old(seen), h, now)
    {
      if h.Unreadable? {
        return InvalidEnvelope;
      }
      Prune(now);
      if h.id in seen {
        return ReplayDetected;
      }
      if h.timestamp.None? || Abs(now - h.timestamp.value) > limits.tolerance as real {
        return TimestampExpired;
      }
      if |seen| >= limits.maxEntries {
        return TableFull;
      }
      seen := seen[h.id := h.timestamp.value + limits.tolerance as real];
      verdict := Admitted;
    }

    method Prune(now: real)
      modifies this
      ensures seen == Pruned(old(seen), now)
    {
      var expired := set id | id in seen && seen[id] < now;
      while expired != {}
        invariant expired == set id | id in seen && seen[id] < now
        invariant forall id :: id in seen ==> id in old(seen) && seen[id] == old(seen)[id]
        invariant forall id :: id in old(seen) && id !in seen ==> old(seen)[id] < now
        decreases expired
      {
        var id :| id in expired;
        seen := seen - {id};
        expired := expired - {id};
      }
      assert forall id :: id in seen ==> id !in expired;
    }
  }
}
