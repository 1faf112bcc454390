/** Ports handed out from a base, with a recycle pool
    (src/aitp_playground/hosting/port_allocator.py). */
module PortAllocators {
  import opened Wrappers

  datatype Ports = Ports(start: int, next: int, free: seq<int>, inUse: set<int>)

  function Fresh(start: int): Ports {
    Ports(start, start, [], {})
  }

  /** Everything ever touched lies below `next`; the pool has no duplicates and holds nothing in use. */
  ghost predicate Valid(s: Ports) {
    && s.start <= s.next
    && (forall p :: p in s.inUse ==> p < s.next)
    && (forall i :: 0 <= i < |s.free| ==> s.free[i] < s.next && s.free[i] !in s.inUse)
    && (forall i, j :: 0 <= i < j < |s.free| ==> s.free[i] != s.free[j])
  }

  /** The slots at or after `n` that are in use. */
  function UsedFrom(n: int, inUse: set<int>): set<int> {
    set p | p in inUse && p >= n
  }

  /** The first slot at or after `n` that is not in use. */
  function FirstUnused(n: int, inUse: set<int>): int
    decreases UsedFrom(n, inUse)
  {
    if n in inUse then
      assert n in UsedFrom(n, inUse) && n !in UsedFrom(n + 1, inUse);
      FirstUnused(n + 1, inUse)
    else n
  }

  /** Requested slot if untouched, else the most recently freed port, else the next slot. */
  function Allocate(s: Ports, offset: int): (Ports, int) {
    var candidate := s.start + offset;
    if candidate !in s.inUse && candidate !in s.free then
      (s.(inUse := s.inUse + {candidate}, next := if candidate >= s.next then candidate + 1 else s.next), candidate)
    else if s.free != [] then
      var p := s.free[|s.free| - 1];
      (s.(free := s.free[..|s.free| - 1], inUse := s.inUse + {p}), p)
    else
      var p := FirstUnused(s.next, s.inUse);
      (s.(next := p + 1, inUse := s.inUse + {p}), p)
  }

  function Release(s: Ports, port: int): Ports {
    if port in s.inUse then s.(inUse := s.inUse - {port}, free := s.free + [port]) else s
  }

  // ---- runs ----

  datatype Op = Alloc(offset: int) | Free(port: int) | Reset

  function Step(s: Ports, op: Op): Ports {
    match op
    case Alloc(offset) => Allocate(s, offset).0
    case Free(port) => Release(s, port)
    case Reset => Fresh(s.start)
  }

  function After(start: int, ops: seq<Op>, k: nat): Ports
    requires k <= |ops|
  {
    if k == 0 then Fresh(start) else Step(After(start, ops, k - 1), ops[k - 1])
  }

  /** The port handed out at step `k`. */
  function Given(start: int, ops: seq<Op>, k: nat): int
    requires k < |ops| && ops[k].Alloc?
  {
    Allocate(After(start, ops, k), ops[k].offset).1
  }

  /** The most ports simultaneously in use during the first `k` steps. */
  function Peak(start: int, ops: seq<Op>, k: nat): nat
    requires k <= |ops|
  {
    if k == 0 then 0
    else
      var before, now := Peak(start, ops, k - 1), |After(start, ops, k).inUse|;
      if now > before then now else before
  }

  lemma StepKeepsValid(s: Ports, op: Op)
    requires Valid(s)
    ensures Valid(Step(s, op)) && Step(s, op).start == s.start
    ensures op.Alloc? ==>
              var (s', p) := Allocate(s, op.offset); p !in s.inUse && s'.inUse == s.inUse + {p} && p !in s'.free
  {
  }

  lemma {:induction false} RunIsValid(start: int, ops: seq<Op>, k: nat)
    requires k <= |ops|
    ensures Valid(After(start, ops, k)) && After(start, ops, k).start == start
  {
    if k > 0 {
      RunIsValid(start, ops, k - 1);
      StepKeepsValid(After(start, ops, k - 1), ops[k - 1]);
    }
  }

  // ---- ports never clash ----

  /** Step `i` handed out `port`, and up to step `k` nobody released it or reset the allocator. */
  ghost predicate Holds(start: int, ops: seq<Op>, i: nat, k: nat, port: int)
    requires i < k <= |ops|
  {
    && ops[i].Alloc? && Given(start, ops, i) == port
    && forall j :: i < j < k ==> ops[j] != Free(port) && ops[j] != Reset
  }

  lemma HoldsStep(start: int, ops: seq<Op>, i: nat, k: nat, port: int)
    requires i < k < |ops|
    ensures Holds(start, ops, i, k + 1, port)
            <==> Holds(start, ops, i, k, port) && ops[k] != Free(port) && ops[k] != Reset
  {
    hide Given;
  }

  lemma InUseStep(s: Ports, op: Op, port: int)
    requires Valid(s)
    ensures port in Step(s, op).inUse
            <==> || (op.Alloc? && Allocate(s, op.offset).1 == port)
                 || (port in s.inUse && op != Free(port) && op != Reset)
  {
    StepKeepsValid(s, op);
  }

  /** A port is marked in use exactly when some allocation still holds it. */
  lemma {:induction false} InUseIffHeld(start: int, ops: seq<Op>, k: nat, port: int)
    requires k <= |ops|
    ensures port in After(start, ops, k).inUse <==> exists i: nat :: i < k && Holds(start, ops, i, k, port)
    decreases k
  {
    hide Given, Valid, Step, Holds;
    if k > 0 {
      var m := k - 1;
      InUseIffHeld(start, ops, m, port);
      RunIsValid(start, ops, m);
      InUseStep(After(start, ops, m), ops[m], port);
      LastGiven(start, ops, m, port);
      forall i: nat | i < m
        ensures Holds(start, ops, i, k, port)
                <==> Holds(start, ops, i, m, port) && ops[m] != Free(port) && ops[m] != Reset
      {
        HoldsStep(start, ops, i, m, port);
      }
      if exists i: nat :: i < m && Holds(start, ops, i, m, port) {
        var i: nat :| i < m && Holds(start, ops, i, m, port);
        assert ops[m] != Free(port) && ops[m] != Reset ==> Holds(start, ops, i, k, port);
      }
      if Holds(start, ops, m, k, port) {
        assert exists i: nat :: i < k && Holds(start, ops, i, k, port);
      }
      if exists i: nat :: i < k && Holds(start, ops, i, k, port) {
        var i: nat :| i < k && Holds(start, ops, i, k, port);
        assert i < m ==> Holds(start, ops, i, m, port);
      }
    }
  }

  lemma LastGiven(start: int, ops: seq<Op>, k: nat, port: int)
    requires k < |ops|
    ensures Holds(start, ops, k, k + 1, port)
            <==> ops[k].Alloc? && Allocate(After(start, ops, k), ops[k].offset).1 == port
  {
  }

  lemma GivenIs(start: int, ops: seq<Op>, k: nat)
    requires k < |ops|
    ensures ops[k].Alloc? ==> (After(start, ops, k + 1), Given(start, ops, k)) == Allocate(After(start, ops, k), ops[k].offset)
  {
  }

  /** Main result: a port is handed out a second time only after it was released or the
      allocator was reset. */
  lemma NeverClash(start: int, ops: seq<Op>, i: nat, j: nat)
    requires i < j < |ops| && ops[i].Alloc? && ops[j].Alloc? && Given(start, ops, i) == Given(start, ops, j)
    ensures exists m :: i < m < j && (ops[m] == Free(Given(start, ops, i)) || ops[m] == Reset)
  {
    var port := Given(start, ops, i);
    RunIsValid(start, ops, j);
    StepKeepsValid(After(start, ops, j), ops[j]);
    InUseIffHeld(start, ops, j, port);
    assert !Holds(start, ops, i, j, port);
  }

  // ---- which port is handed out ----

  /** The last of the first k steps that put the port into the pool. */
  function LastRelease(start: int, ops: seq<Op>, k: nat, port: int): (j: Option<nat>)
    requires k <= |ops|
    ensures j.Some? ==> j.value < k
  {
    if k == 0 then None
    else if ops[k - 1] == Free(port) && port in After(start, ops, k - 1).inUse then Some(k - 1)
    else LastRelease(start, ops, k - 1, port)
  }

  /** Every pooled port was released, and those further back in the pool earlier. */
  ghost predicate InReleaseOrder(start: int, ops: seq<Op>, k: nat)
    requires k <= |ops|
  {
    var free := After(start, ops, k).free;
    && (forall i :: 0 <= i < |free| ==> LastRelease(start, ops, k, free[i]).Some?)
    && forall i, j :: 0 <= i < j < |free| ==>
         LastRelease(start, ops, k, free[i]).value < LastRelease(start, ops, k, free[j]).value
  }

  /** What a step does to the pool: nothing, the last port leaves, one is added, or it is emptied. */
  lemma PoolStep(s: Ports, op: Op)
    ensures var free' := Step(s, op).free;
            || free' == s.free
            || (op.Alloc? && s.free != [] && free' == s.free[..|s.free| - 1])
            || (op.Free? && op.port in s.inUse && free' == s.free + [op.port])
            || free' == []
    ensures op.Free? && op.port in s.inUse ==> Step(s, op).free == s.free + [op.port]
  {
  }

  lemma {:induction false} PoolInReleaseOrder(start: int, ops: seq<Op>, k: nat)
    requires k <= |ops|
    ensures InReleaseOrder(start, ops, k)
  {
    if k > 0 {
      var m := k - 1;
      PoolInReleaseOrder(start, ops, m);
      RunIsValid(start, ops, m);
      PooledKeepRelease(start, ops, m);
    }
  }

  lemma PooledKeepRelease(start: int, ops: seq<Op>, k: nat)
    requires k < |ops| && InReleaseOrder(start, ops, k) && Valid(After(start, ops, k))
    ensures InReleaseOrder(start, ops, k + 1)
  {
    hide Step, Allocate;
    var s, op := After(start, ops, k), ops[k];
    var free, free' := s.free, After(start, ops, k + 1).free;
    PoolStep(s, op);
    assert forall i :: 0 <= i < |free| ==> free[i] !in s.inUse;
    assert forall i :: 0 <= i < |free| ==> LastRelease(start, ops, k + 1, free[i]) == LastRelease(start, ops, k, free[i]);
  }

  /** Main result: a slot neither held nor pooled is handed out on request; otherwise a pool
      that is not empty gives the port released last, and an empty one the next slot. */
  lemma GivenIsChosen(start: int, ops: seq<Op>, k: nat)
    requires k < |ops| && ops[k].Alloc?
    ensures var s, given, wanted := After(start, ops, k), Given(start, ops, k), start + ops[k].offset;
            if wanted !in s.inUse && wanted !in s.free then given == wanted
            else if s.free != []
            then given in s.free && LastRelease(start, ops, k, given).Some?
                 && forall q :: q in s.free && q != given ==>
                      LastRelease(start, ops, k, q).Some?
                      && LastRelease(start, ops, k, q).value < LastRelease(start, ops, k, given).value
            else given == s.next
  {
    hide LastRelease, After, Step;
    RunIsValid(start, ops, k);
    StartStays(start, ops, k);
    PoolInReleaseOrder(start, ops, k);
    var s := After(start, ops, k);
    NextIsUnused(s);
  }

  lemma {:induction false} StartStays(start: int, ops: seq<Op>, k: nat)
    requires k <= |ops|
    ensures After(start, ops, k).start == start
  {
    if k > 0 {
      StartStays(start, ops, k - 1);
    }
  }

  lemma NextIsUnused(s: Ports)
    requires Valid(s)
    ensures FirstUnused(s.next, s.inUse) == s.next
  {
  }

  // ---- ports never drift ----

  /** No slot from `floor` up to `next` was skipped. */
  ghost predicate Contiguous(s: Ports, floor: int) {
    forall p :: floor <= p < s.next ==> p in s.inUse || p in s.free
  }

  lemma StepKeepsContiguous(s: Ports, op: Op, floor: int)
    requires Valid(s) && Contiguous(s, floor) && s.start < floor && (op.Alloc? ==> s.start + op.offset < floor)
    ensures Contiguous(Step(s, op), floor)
  {
    match op
    case Alloc(offset) =>
      var n := |s.free|;
      if n > 0 {
        assert forall p :: p in s.free ==> p in s.free[..n - 1] || p == s.free[n - 1];
      }
    case Free(port) =>
    case Reset =>
  }

  function Range(lo: int, hi: int): (r: set<int>)
    requires lo <= hi
    ensures |r| == hi - lo && forall p :: p in r <==> lo <= p < hi
    decreases hi - lo
  {
    if lo == hi then {} else Range(lo, hi - 1) + {hi - 1}
  }

  lemma SubsetIsSmaller(a: set<int>, b: set<int>)
    requires a <= b
    ensures |a| <= |b|
  {
    assert b == a + (b - a);
  }

  lemma FullUpToNext(s: Ports, candidate: int, floor: int)
    requires Contiguous(s, floor) && s.free == [] && floor <= s.next && candidate in s.inUse && candidate < floor
    ensures s.next - floor + 1 <= |s.inUse|
  {
    var taken := Range(floor, s.next) + {candidate};
    assert |taken| == s.next - floor + 1;
    SubsetIsSmaller(taken, s.inUse);
  }

  lemma AllocatedIsNew(s: Ports, offset: int)
    requires Valid(s)
    ensures var (s', p) := Allocate(s, offset);
            && (p !in s.free ==> |s'.inUse| == |s.inUse| + 1)
            && (p in s.free || p == s.start + offset || (s.free == [] && s.start + offset in s.inUse && p == s.next))
  {
  }

  /** A port off the end is handed out only when every slot in between is taken. */
  lemma GivenBelowUse(s: Ports, offset: int, floor: int)
    requires Valid(s) && Contiguous(s, floor) && s.start < floor && s.start + offset < floor
    ensures var (s', p) := Allocate(s, offset); p in s.free || p < floor - 1 + |s'.inUse|
  {
    hide Allocate, Valid, Contiguous;
    AllocatedIsNew(s, offset);
    if s.free == [] && s.start + offset in s.inUse && floor <= s.next {
      FullUpToNext(s, s.start + offset, floor);
    }
  }

  ghost predicate OffsetsAtMost(ops: seq<Op>, maxOffset: nat) {
    forall i :: 0 <= i < |ops| && ops[i].Alloc? ==> ops[i].offset <= maxOffset
  }

  ghost predicate TouchedBelow(s: Ports, bound: int) {
    && (forall p :: p in s.inUse ==> p < bound)
    && (forall p :: p in s.free ==> p < bound)
  }

  lemma StepKeepsTouchedBelow(s: Ports, op: Op, floor: int, peak: nat)
    requires Valid(s) && Contiguous(s, floor) && s.start < floor && (op.Alloc? ==> s.start + op.offset < floor)
    requires TouchedBelow(s, floor - 1 + peak)
    ensures var s' := Step(s, op);
            TouchedBelow(s', floor - 1 + if |s'.inUse| > peak then |s'.inUse| else peak)
  {
    hide Contiguous, Valid;
    match op
    case Alloc(offset) =>
      GivenBelowUse(s, offset, floor);
      AllocateTouches(s, offset);
    case Free(port) =>
    case Reset =>
  }

  lemma AllocateTouches(s: Ports, offset: int)
    ensures var (s', p) := Allocate(s, offset);
            && s'.inUse == s.inUse + {p}
            && (forall q :: q in s'.free ==> q in s.free)
  {
  }

  lemma FreshTouchesNothing(start: int, maxOffset: nat)
    ensures Contiguous(Fresh(start), start + maxOffset + 1) && TouchedBelow(Fresh(start), start + maxOffset)
  {
  }

  lemma {:induction false} TouchedBelowPeak(start: int, ops: seq<Op>, maxOffset: nat, k: nat)
    requires OffsetsAtMost(ops, maxOffset) && k <= |ops|
    ensures Contiguous(After(start, ops, k), start + maxOffset + 1)
    ensures TouchedBelow(After(start, ops, k), start + maxOffset + Peak(start, ops, k))
    decreases k
  {
    hide Valid, Step, Contiguous, TouchedBelow;
    if k == 0 {
      FreshTouchesNothing(start, maxOffset);
    } else {
      var s, op := After(start, ops, k - 1), ops[k - 1];
      TouchedBelowPeak(start, ops, maxOffset, k - 1);
      RunIsValid(start, ops, k - 1);
      StepKeepsContiguous(s, op, start + maxOffset + 1);
      StepKeepsTouchedBelow(s, op, start + maxOffset + 1, Peak(start, ops, k - 1));
    }
  }

  /** Main result: every port ever handed out lies below the base plus the largest
      requested offset plus the peak number of simultaneous allocations. */
  lemma NeverDrifts(start: int, ops: seq<Op>, maxOffset: nat, k: nat)
    requires OffsetsAtMost(ops, maxOffset) && k < |ops| && ops[k].Alloc?
    ensures Given(start, ops, k) < start + maxOffset + Peak(start, ops, k + 1)
  {
    hide Valid, Contiguous, Step, Allocate, Peak, OffsetsAtMost;
    TouchedBelowPeak(start, ops, maxOffset, k + 1);
    GivenIsInUse(start, ops, k);
  }

  lemma GivenIsInUse(start: int, ops: seq<Op>, k: nat)
    requires k < |ops| && ops[k].Alloc?
    ensures Given(start, ops, k) in After(start, ops, k + 1).inUse
  {
    hide Allocate;
    AllocateTouches(After(start, ops, k), ops[k].offset);
  }

  /** The allocator after n allocations at offset `m` from its fresh state, none released. */
  function Filled(start: int, m: nat, n: nat): Ports {
    if n == 0 then Fresh(start) else Ports(start, start + m + n, [], Range(start + m, start + m + n))
  }

  /** The bound is attained for every largest offset: the k-th of several allocations at
      offset `m`, none released, is exactly one below it. */
  lemma {:induction false} DriftBoundIsTight(start: int, m: nat, ops: seq<Op>, k: nat)
    requires (forall i :: 0 <= i < |ops| ==> ops[i] == Alloc(m)) && k <= |ops|
    ensures After(start, ops, k) == Filled(start, m, k) && Peak(start, ops, k) == k
    ensures k > 0 ==> Given(start, ops, k - 1) == start + m + Peak(start, ops, k) - 1
  {
    hide Allocate, Fresh, Step, Given, Filled;
    if k == 0 {
      NoneFilled(start, m);
    } else {
      DriftBoundIsTight(start, m, ops, k - 1);
      OneMoreFilled(start, m, k - 1);
      GivenIs(start, ops, k - 1);
    }
  }

  lemma NoneFilled(start: int, m: nat)
    ensures Filled(start, m, 0) == Fresh(start)
  {
  }

  lemma NextSlot(start: int, next: int, inUse: set<int>, m: nat)
    requires start + m in inUse && next !in inUse
    ensures Allocate(Ports(start, next, [], inUse), m) == (Ports(start, next + 1, [], inUse + {next}), next)
  {
    assert FirstUnused(next, inUse) == next;
  }

  lemma FirstSlot(start: int, m: nat)
    ensures Allocate(Fresh(start), m) == (Ports(start, start + m + 1, [], {start + m}), start + m)
  {
    assert Fresh(start).inUse + {start + m} == {start + m};
  }

  lemma OneMoreFilled(start: int, m: nat, n: nat)
    ensures Allocate(Filled(start, m, n), m) == (Filled(start, m, n + 1), start + m + n)
    ensures |Filled(start, m, n + 1).inUse| == n + 1
  {
    hide Allocate, Fresh, Range;
    var more := Range(start + m, start + m + n + 1);
    if n == 0 {
      assert more == {start + m};
      FirstSlot(start, m);
    } else {
      var inUse := Range(start + m, start + m + n);
      assert more == inUse + {start + m + n};
      NextSlot(start, start + m + n, inUse, m);
    }
  }

  // ---- cleanup runs twice on failure ----

  /** Release every port of a run, in order (`_cleanup_run`). */
  function ReleaseAll(s: Ports, ports: seq<int>): Ports {
    if ports == [] then s else Release(ReleaseAll(s, ports[..|ports| - 1]), ports[|ports| - 1])
  }

  lemma {:induction false} ReleaseAllInUse(s: Ports, ports: seq<int>)
    ensures ReleaseAll(s, ports).inUse == s.inUse - (set p | p in ports)
    ensures |ReleaseAll(s, ports).inUse| + |ReleaseAll(s, ports).free| == |s.inUse| + |s.free|
  {
    if ports != [] {
      var init, last := ports[..|ports| - 1], ports[|ports| - 1];
      ReleaseAllInUse(s, init);
      assert ports == init + [last];
    }
  }

  /** Cleaning up changes nothing exactly when none of the run's ports is in use. */
  lemma {:induction false} CleanupIsIdleIff(s: Ports, ports: seq<int>)
    ensures ReleaseAll(s, ports) == s <==> forall p :: p in ports ==> p !in s.inUse
  {
    ReleaseAllInUse(s, ports);
    if forall p :: p in ports ==> p !in s.inUse {
      if ports != [] {
        var init, last := ports[..|ports| - 1], ports[|ports| - 1];
        assert ports == init + [last];
        CleanupIsIdleIff(s, init);
      }
    }
  }

  /** The second cleanup of a failed run releases nothing, however long its port list. */
  lemma CleanupTwiceIsOnce(s: Ports, ports: seq<int>)
    ensures ReleaseAll(ReleaseAll(s, ports), ports) == ReleaseAll(s, ports)
  {
    ReleaseAllInUse(s, ports);
    CleanupIsIdleIff(ReleaseAll(s, ports), ports);
  }

  // ---- the allocator object ----

  class PortAllocator {
    const start: int
    var next: int
    var free: seq<int>
    var inUse: set<int>

    ghost function State(): Ports
      reads this
    {
      Ports(start, next, free, inUse)
    }

    constructor (start: int)
      ensures this.start == start && State() == Fresh(start) && Valid(State())
    {
      this.start := start;
      next, free, inUse := start, [], {};
    }

    method Take(offset: int) returns (p: int)
      requires Valid(State())
      modifies this
      ensures (State(), p) == Allocate(old(State()), offset) && Valid(State())
    {
      StepKeepsValid(State(), Alloc(offset));
      var candidate := start + offset;
      if candidate !in inUse && candidate !in free {
        inUse := inUse + {candidate};
        if candidate >= next {
          next := candidate + 1;
        }
        return candidate;
      }
      if free != [] {
        p := free[|free| - 1];
        free := free[..|free| - 1];
        inUse := inUse + {p};
        return p;
      }
      SkipUsed();
      p := next;
      next := next + 1;
      inUse := inUse + {p};
    }

    method SkipUsed()
      modifies this`next
      ensures next == FirstUnused(old(next), inUse)
    {
      while next in inUse
        invariant FirstUnused(next, inUse) == FirstUnused(old(next), inUse)
        decreases UsedFrom(next, inUse)
      {
        assert next in UsedFrom(next, inUse) && next !in UsedFrom(next + 1, inUse);
        next := next + 1;
      }
    }

    method GiveBack(port: int)
      requires Valid(State())
      modifies this
      ensures State() == Release(old(State()), port) && Valid(State())
    {
      StepKeepsValid(State(), Free(port));
      if port in inUse {
        inUse := inUse - {port};
        free := free + [port];
      }
    }

    method Clear()
      modifies this
      ensures State() == Fresh(start) && Valid(State())
    {
      next, free, inUse := start, [], {};
    }
  }
}
