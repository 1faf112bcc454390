/** Token buckets keyed by an arbitrary string, with pruning of full buckets
    (src/aitp_playground/limits.py). Times and token counts are reals. */
module TokenBuckets {

  /** Above this many tracked keys, full buckets are dropped. */
  const PRUNE_ABOVE: nat := 10_000

  datatype Bucket = Bucket(tokens: real, last: real)

  type Buckets = map<string, Bucket>

  /** Refill rate and capacity. The constructor below floors the burst at 1. */
  datatype Policy = Policy(rate: real, burst: int)

  datatype Call = Call(key: string, at: real)

  function Min(a: real, b: real): real {
    if a <= b then a else b
  }

  /** What bucket `b` holds at time `now`, before a token is taken. */
  function Refilled(p: Policy, b: Bucket, now: real): real {
    Min(p.burst as real, b.tokens + (now - b.last) * p.rate)
  }

  /** What the limiter grants `key` at `now`: an absent key counts as a full bucket. */
  function Level(p: Policy, m: Buckets, key: string, now: real): real {
    if key in m then Refilled(p, m[key], now) else p.burst as real
  }

  function Full(p: Policy, b: Bucket, now: real): bool {
    b.tokens + (now - b.last) * p.rate >= p.burst as real
  }

  function Pruned(p: Policy, m: Buckets, now: real): Buckets {
    map k | k in m && !Full(p, m[k], now) :: m[k]
  }

  /** One `allow` without the pruning. */
  function Charge(p: Policy, m: Buckets, c: Call): (Buckets, bool) {
    var level := Level(p, m, c.key, c.at);
    var allowed := level >= 1.0;
    (m[c.key := Bucket(if allowed then level - 1.0 else level, c.at)], allowed)
  }

  /** One `allow`. */
  function Allow(p: Policy, m: Buckets, c: Call): (Buckets, bool) {
    var (m', allowed) := Charge(p, m, c);
    (if |m'| > PRUNE_ABOVE then Pruned(p, m', c.at) else m', allowed)
  }

  // ---- runs ----

  /** The buckets after the first `k` calls, starting from an empty table. */
  function After(p: Policy, calls: seq<Call>, k: nat): Buckets
    requires k <= |calls|
  {
    if k == 0 then map[] else Allow(p, After(p, calls, k - 1), calls[k - 1]).0
  }

  /** The same run in a limiter that never prunes. */
  function AfterUnpruned(p: Policy, calls: seq<Call>, k: nat): Buckets
    requires k <= |calls|
  {
    if k == 0 then map[] else Charge(p, AfterUnpruned(p, calls, k - 1), calls[k - 1]).0
  }

  predicate Allowed(p: Policy, calls: seq<Call>, k: nat)
    requires k < |calls|
  {
    Allow(p, After(p, calls, k), calls[k]).1
  }

  /** How many of the calls `lo..hi` present `key` and are allowed. */
  function Grants(p: Policy, calls: seq<Call>, key: string, lo: nat, hi: nat): nat
    requires lo <= hi <= |calls|
  {
    if lo == hi then 0
    else Grants(p, calls, key, lo, hi - 1)
         + if calls[hi - 1].key == key && Allowed(p, calls, hi - 1) then 1 else 0
  }

  ghost predicate NonDecreasing(calls: seq<Call>) {
    forall i, j :: 0 <= i <= j < |calls| ==> calls[i].at <= calls[j].at
  }

  ghost predicate WellFormed(p: Policy) {
    p.burst >= 1 && p.rate >= 0.0
  }

  /** Every bucket holds between 0 and `burst` tokens and was touched no later than `now`. */
  ghost predicate Sane(p: Policy, m: Buckets, now: real) {
    forall k :: k in m ==> 0.0 <= m[k].tokens <= p.burst as real && m[k].last <= now
  }

  // ---- potential argument ----

  lemma GainNonNegative(rate: real, t: real, u: real)
    requires rate >= 0.0 && t <= u
    ensures (u - t) * rate >= 0.0
  {
  }

  lemma GainIsMonotone(rate: real, a: real, b: real)
    requires rate >= 0.0 && a <= b
    ensures a * rate <= b * rate
  {
  }

  lemma GainIsAdditive(rate: real, s: real, t: real, u: real)
    ensures (u - s) * rate == (t - s) * rate + (u - t) * rate
  {
  }

  lemma RefillIsLinear(p: Policy, b: Bucket, t: real, u: real)
    requires p.rate >= 0.0 && b.last <= t <= u
    ensures (u - b.last) * p.rate == (t - b.last) * p.rate + (u - t) * p.rate
    ensures (t - b.last) * p.rate >= 0.0 && (u - t) * p.rate >= 0.0
  {
    GainNonNegative(p.rate, b.last, t);
    GainNonNegative(p.rate, t, u);
    GainIsAdditive(p.rate, b.last, t, u);
  }

  lemma ClampedSum(cap: real, tokens: real, gain: real, more: real)
    requires 0.0 <= tokens <= cap && gain >= 0.0 && more >= 0.0
    ensures Min(cap, tokens + (gain + more)) == Min(cap, Min(cap, tokens + gain) + more)
    ensures 0.0 <= Min(cap, tokens + gain) <= cap
  {
  }

  /** Waiting from `t` to `u` adds `rate * (u - t)` to a level, up to a full bucket. */
  lemma WaitingRefills(p: Policy, m: Buckets, key: string, t: real, u: real)
    requires WellFormed(p) && Sane(p, m, t) && t <= u
    ensures Level(p, m, key, u) == Min(p.burst as real, Level(p, m, key, t) + (u - t) * p.rate)
    ensures 0.0 <= Level(p, m, key, t) <= p.burst as real
    ensures (u - t) * p.rate >= 0.0
  {
    if key in m {
      var b := m[key];
      RefillIsLinear(p, b, t, u);
      ClampedSum(p.burst as real, b.tokens, (t - b.last) * p.rate, (u - t) * p.rate);
    } else {
      GainNonNegative(p.rate, t, u);
    }
  }

  lemma NoWaitNoRefill(p: Policy, tokens: real, now: real)
    ensures (now - now) * p.rate == 0.0
    ensures Refilled(p, Bucket(tokens, now), now) == Min(p.burst as real, tokens)
  {
    var wait := now - now;
    assert wait == 0.0 && wait * p.rate == 0.0;
  }

  lemma ChargeMovesLevel(p: Policy, m: Buckets, c: Call, key: string)
    requires WellFormed(p) && Sane(p, m, c.at)
    ensures var (m', allowed) := Charge(p, m, c);
            && Sane(p, m', c.at)
            && Level(p, m', key, c.at) == Level(p, m, key, c.at) - (if allowed && c.key == key then 1.0 else 0.0)
  {
    WaitingRefills(p, m, c.key, c.at, c.at);
    NoWaitNoRefill(p, Charge(p, m, c).0[c.key].tokens, c.at);
  }

  lemma PruningKeepsLevel(p: Policy, m: Buckets, key: string, now: real)
    ensures Level(p, Pruned(p, m, now), key, now) == Level(p, m, key, now)
  {
  }

  /** One call moves the potential of its key down by exactly the token it takes,
      leaves every other key alone, and pruning changes no level. */
  lemma AllowMovesLevel(p: Policy, m: Buckets, c: Call, key: string)
    requires WellFormed(p) && Sane(p, m, c.at)
    ensures var (m', allowed) := Allow(p, m, c);
            && Sane(p, m', c.at)
            && Level(p, m', key, c.at) == Level(p, m, key, c.at) - (if allowed && c.key == key then 1.0 else 0.0)
  {
    ChargeMovesLevel(p, m, c, key);
    PruningKeepsLevel(p, Charge(p, m, c).0, key, c.at);
  }

  lemma {:induction false} RunIsSane(p: Policy, calls: seq<Call>, k: nat)
    requires WellFormed(p) && NonDecreasing(calls) && 0 < k <= |calls|
    ensures Sane(p, After(p, calls, k), calls[k - 1].at)
    decreases k
  {
    if k > 1 {
      RunIsSane(p, calls, k - 1);
    }
    AllowMovesLevel(p, After(p, calls, k - 1), calls[k - 1], calls[k - 1].key);
  }

  /** What the key could still be granted at call `hi` if it had held a full bucket at call `lo`. */
  function Slack(p: Policy, calls: seq<Call>, key: string, lo: nat, hi: nat): real
    requires lo <= hi < |calls|
  {
    p.burst as real + (calls[hi].at - calls[lo].at) * p.rate - Grants(p, calls, key, lo, hi) as real
  }

  lemma SlackStep(p: Policy, calls: seq<Call>, key: string, lo: nat, hi: nat)
    requires lo < hi < |calls|
    ensures Slack(p, calls, key, lo, hi)
            == Slack(p, calls, key, lo, hi - 1) + (calls[hi].at - calls[hi - 1].at) * p.rate
               - (if calls[hi - 1].key == key && Allowed(p, calls, hi - 1) then 1.0 else 0.0)
  {
    hide Allowed;
    GainIsAdditive(p.rate, calls[lo].at, calls[hi - 1].at, calls[hi].at);
  }

  lemma SlackNow(p: Policy, calls: seq<Call>, key: string, k: nat)
    requires k < |calls|
    ensures Slack(p, calls, key, k, k) == p.burst as real
  {
    NoWaitNoRefill(p, 0.0, calls[k].at);
  }

  /** The level a call finds is the tightest of all window budgets up to that call:
      no window allows less, and window `w` allows exactly that. */
  lemma {:induction false} LevelIsTightestBudget(p: Policy, calls: seq<Call>, key: string, k: nat) returns (w: nat)
    requires WellFormed(p) && NonDecreasing(calls) && k < |calls|
    ensures w <= k && Level(p, After(p, calls, k), key, calls[k].at) == Slack(p, calls, key, w, k)
    ensures forall lo: nat :: lo <= k ==> Level(p, After(p, calls, k), key, calls[k].at) <= Slack(p, calls, key, lo, k)
    decreases k
  {
    hide Slack;
    hide Level;
    SlackNow(p, calls, key, k);
    if k == 0 {
      EmptyIsFull(p, key, calls[0].at);
      return 0;
    }
    var m, c, now := After(p, calls, k - 1), calls[k - 1], calls[k].at;
    w := LevelIsTightestBudget(p, calls, key, k - 1);
    LevelStep(p, calls, key, k);
    forall lo: nat | lo < k
      ensures Level(p, After(p, calls, k), key, now) <= Slack(p, calls, key, lo, k)
    {
      SlackStep(p, calls, key, lo, k);
    }
    SlackStep(p, calls, key, w, k);
    if Level(p, After(p, calls, k), key, now) == p.burst as real {
      w := k;
    }
  }

  lemma EmptyIsFull(p: Policy, key: string, now: real)
    ensures Level(p, map[], key, now) == p.burst as real
  {
  }

  /** From one call to the next the level loses the token granted and gains the refill. */
  lemma LevelStep(p: Policy, calls: seq<Call>, key: string, k: nat)
    requires WellFormed(p) && NonDecreasing(calls) && 0 < k < |calls|
    ensures Level(p, After(p, calls, k), key, calls[k].at)
            == Min(p.burst as real, Level(p, After(p, calls, k - 1), key, calls[k - 1].at)
                                    - (if calls[k - 1].key == key && Allowed(p, calls, k - 1) then 1.0 else 0.0)
                                    + (calls[k].at - calls[k - 1].at) * p.rate)
  {
    hide Level;
    hide Allow;
    hide Sane;
    RunIsSane(p, calls, k);
    if k > 1 {
      RunIsSane(p, calls, k - 1);
    }
    AllowMovesLevel(p, After(p, calls, k - 1), calls[k - 1], key);
    WaitingRefills(p, After(p, calls, k), key, calls[k - 1].at, calls[k].at);
  }

  /** One more grant at call `k` keeps the window from call `lo` within burst + rate * length. */
  ghost predicate Conforms(p: Policy, calls: seq<Call>, key: string, lo: nat, k: nat)
    requires lo <= k < |calls|
  {
    Grants(p, calls, key, lo, k) as real + 1.0 <= p.burst as real + (calls[k].at - calls[lo].at) * p.rate
  }

  /** Main result: a call is allowed exactly when one more grant keeps every window
      ending now within its budget. The limiter never denies without cause, and no
      amount of pruning before or inside the window changes that. */
  lemma AllowedIffEveryWindowConforms(p: Policy, calls: seq<Call>, k: nat)
    requires WellFormed(p) && NonDecreasing(calls) && k < |calls|
    ensures Allowed(p, calls, k) <==> forall lo: nat :: lo <= k ==> Conforms(p, calls, calls[k].key, lo, k)
  {
    var key := calls[k].key;
    var w := LevelIsTightestBudget(p, calls, key, k);
    var level := Level(p, After(p, calls, k), key, calls[k].at);
    assert Allowed(p, calls, k) <==> level >= 1.0;
    forall lo: nat | lo <= k
      ensures Conforms(p, calls, key, lo, k) <==> Slack(p, calls, key, lo, k) >= 1.0
    {
      hide Allowed;
    }
    assert Conforms(p, calls, key, w, k) <==> level >= 1.0;
    hide Conforms;
  }

  /** In every run, every key gets at most burst + rate * length grants in every interval. */
  lemma {:induction false} WindowBound(p: Policy, calls: seq<Call>, key: string, lo: nat, hi: nat)
    requires WellFormed(p) && NonDecreasing(calls) && lo < hi <= |calls|
    ensures Grants(p, calls, key, lo, hi) as real <= p.burst as real + (calls[hi - 1].at - calls[lo].at) * p.rate
    decreases hi
  {
    hide Allowed;
    GainNonNegative(p.rate, calls[lo].at, calls[hi - 1].at);
    if calls[hi - 1].key == key && Allowed(p, calls, hi - 1) {
      AllowedIffEveryWindowConforms(p, calls, hi - 1);
      assert Conforms(p, calls, key, lo, hi - 1);
    } else if lo < hi - 1 {
      WindowBound(p, calls, key, lo, hi - 1);
      GainNonNegative(p.rate, calls[hi - 2].at, calls[hi - 1].at);
      GainIsAdditive(p.rate, calls[lo].at, calls[hi - 2].at, calls[hi - 1].at);
    } else {
      assert Grants(p, calls, key, lo, lo) == 0;
    }
  }

  // ---- pruning is unobservable ----

  /** `m` is `u` without some of the buckets that are full at `now`. */
  ghost predicate PrunedFrom(p: Policy, m: Buckets, u: Buckets, now: real) {
    forall k :: if k in m then k in u && m[k] == u[k] else k in u ==> Full(p, u[k], now)
  }

  lemma FullStaysFull(p: Policy, m: Buckets, u: Buckets, now: real, later: real)
    requires WellFormed(p) && Sane(p, u, now) && now <= later && PrunedFrom(p, m, u, now)
    ensures PrunedFrom(p, m, u, later)
  {
    forall k | k in u && k !in m
      ensures Full(p, u[k], later)
    {
      RefillIsLinear(p, u[k], now, later);
    }
  }

  lemma ChargeKeepsPrunedFrom(p: Policy, m: Buckets, u: Buckets, c: Call)
    requires WellFormed(p) && Sane(p, u, c.at) && PrunedFrom(p, m, u, c.at)
    ensures Charge(p, m, c).1 == Charge(p, u, c).1
    ensures PrunedFrom(p, Charge(p, m, c).0, Charge(p, u, c).0, c.at)
  {
    assert Level(p, m, c.key, c.at) == Level(p, u, c.key, c.at);
  }

  lemma AllowKeepsPrunedFrom(p: Policy, m: Buckets, u: Buckets, c: Call)
    requires WellFormed(p) && Sane(p, u, c.at) && PrunedFrom(p, m, u, c.at)
    ensures Allow(p, m, c).1 == Charge(p, u, c).1
    ensures PrunedFrom(p, Allow(p, m, c).0, Charge(p, u, c).0, c.at)
    ensures Sane(p, Charge(p, u, c).0, c.at)
  {
    ChargeKeepsPrunedFrom(p, m, u, c);
    ChargeMovesLevel(p, u, c, c.key);
  }

  lemma {:induction false} SimulatesUnpruned(p: Policy, calls: seq<Call>, k: nat)
    requires WellFormed(p) && NonDecreasing(calls) && 0 < k <= |calls|
    ensures PrunedFrom(p, After(p, calls, k), AfterUnpruned(p, calls, k), calls[k - 1].at)
    ensures Sane(p, AfterUnpruned(p, calls, k), calls[k - 1].at)
    decreases k
  {
    var m, u, c := After(p, calls, k - 1), AfterUnpruned(p, calls, k - 1), calls[k - 1];
    if k > 1 {
      SimulatesUnpruned(p, calls, k - 1);
      FullStaysFull(p, m, u, calls[k - 2].at, c.at);
    }
    AllowKeepsPrunedFrom(p, m, u, c);
  }

  /** Main result: dropping full buckets changes no verdict of any run. */
  lemma PruningIsUnobservable(p: Policy, calls: seq<Call>, k: nat)
    requires WellFormed(p) && NonDecreasing(calls) && k < |calls|
    ensures Allowed(p, calls, k) == Charge(p, AfterUnpruned(p, calls, k), calls[k]).1
  {
    var m, u, c := After(p, calls, k), AfterUnpruned(p, calls, k), calls[k];
    if k > 0 {
      SimulatesUnpruned(p, calls, k);
      FullStaysFull(p, m, u, calls[k - 1].at, c.at);
    }
    AllowKeepsPrunedFrom(p, m, u, c);
  }

  lemma PrunedAboveLimit(p: Policy, m: Buckets, c: Call)
    requires |Allow(p, m, c).0| > 10_000
    ensures Allow(p, m, c).0 == Pruned(p, Charge(p, m, c).0, c.at)
  {
    hide Charge, Pruned;
  }

  /** Pruning bounds the table: with more than ten thousand keys it holds no bucket that is
      full, so a caller that sprays keys cannot make it grow faster than tokens are taken. */
  lemma AboveLimitNoneIsFull(p: Policy, calls: seq<Call>, k: nat)
    requires 0 < k <= |calls| && |After(p, calls, k)| > 10_000
    ensures var m, now := After(p, calls, k), calls[k - 1].at;
            forall key :: key in m ==> m[key].tokens + (now - m[key].last) * p.rate < p.burst as real
  {
    hide Allow, Charge;
    PrunedAboveLimit(p, After(p, calls, k - 1), calls[k - 1]);
  }

  // ---- clock readings that pass each other ----

  predicate AllowedUnpruned(p: Policy, calls: seq<Call>, k: nat)
    requires k < |calls|
  {
    Charge(p, AfterUnpruned(p, calls, k), calls[k]).1
  }

  function GrantsUnpruned(p: Policy, calls: seq<Call>, key: string, lo: nat, hi: nat): nat
    requires lo <= hi <= |calls|
  {
    if lo == hi then 0
    else GrantsUnpruned(p, calls, key, lo, hi - 1)
         + if calls[hi - 1].key == key && AllowedUnpruned(p, calls, hi - 1) then 1 else 0
  }

  /** The tokens of a bucket, carried back to time zero: refilling does not change it. */
  function Potential(p: Policy, b: Bucket): real {
    b.tokens - b.last * p.rate
  }

  lemma RefillKeepsPotential(rate: real, tokens: real, last: real, now: real)
    ensures (tokens + (now - last) * rate) - now * rate == tokens - last * rate
  {
    assert (now - last) * rate == now * rate - last * rate;
  }

  /** One call never raises the potential of its key, in whatever order the clock was read;
      a grant takes one off, and leaves no less than an empty bucket. */
  lemma ChargeMovesPotential(p: Policy, m: Buckets, c: Call)
    ensures var (m', allowed) := Charge(p, m, c);
            && c.key in m'
            && (c.key in m ==> Potential(p, m'[c.key]) <= Potential(p, m[c.key]) - if allowed then 1.0 else 0.0)
            && Potential(p, m'[c.key]) <= p.burst as real - c.at * p.rate - (if allowed then 1.0 else 0.0)
            && (allowed ==> Potential(p, m'[c.key]) >= 0.0 - c.at * p.rate)
            && forall other :: other != c.key ==> (other in m' <==> other in m) && (other in m ==> m'[other] == m[other])
  {
    if c.key in m {
      RefillKeepsPotential(p.rate, m[c.key].tokens, m[c.key].last, c.at);
    }
  }

  lemma {:induction false} PotentialFalls(p: Policy, calls: seq<Call>, key: string, lo: nat, hi: nat)
    requires lo < hi <= |calls| && calls[lo].key == key
    ensures var m := AfterUnpruned(p, calls, hi);
            key in m && Potential(p, m[key])
                        <= p.burst as real - calls[lo].at * p.rate - GrantsUnpruned(p, calls, key, lo, hi) as real
    decreases hi
  {
    hide Charge, Potential;
    ChargeMovesPotential(p, AfterUnpruned(p, calls, hi - 1), calls[hi - 1]);
    if lo < hi - 1 {
      PotentialFalls(p, calls, key, lo, hi - 1);
    } else {
      assert GrantsUnpruned(p, calls, key, lo, lo) == 0;
    }
  }

  /** The window bound of the limiter that never prunes, with no order on the readings: from
      a call of the key to a later one that is granted, at most burst + rate * (the second
      reading - the first) grants. */
  lemma UnorderedWindowBound(p: Policy, calls: seq<Call>, key: string, lo: nat, hi: nat)
    requires lo < hi <= |calls| && calls[lo].key == key == calls[hi - 1].key && AllowedUnpruned(p, calls, hi - 1)
    ensures GrantsUnpruned(p, calls, key, lo, hi) as real <= p.burst as real + (calls[hi - 1].at - calls[lo].at) * p.rate
  {
    hide GrantsUnpruned, Potential, Charge;
    PotentialFalls(p, calls, key, lo, hi);
    ChargeMovesPotential(p, AfterUnpruned(p, calls, hi - 1), calls[hi - 1]);
    assert AfterUnpruned(p, calls, hi) == Charge(p, AfterUnpruned(p, calls, hi - 1), calls[hi - 1]).0;
    RefillKeepsPotential(p.rate, 0.0, calls[lo].at, calls[hi - 1].at);
  }

  // ---- a run's verdicts depend only on the calls made so far ----

  lemma {:induction false} AfterOfPrefix(p: Policy, calls: seq<Call>, more: seq<Call>, k: nat)
    requires k <= |calls|
    ensures After(p, calls + more, k) == After(p, calls, k)
  {
    if k > 0 {
      AfterOfPrefix(p, calls, more, k - 1);
    }
  }

  lemma AppendCall(p: Policy, calls: seq<Call>, c: Call)
    ensures After(p, calls + [c], |calls| + 1) == Allow(p, After(p, calls, |calls|), c).0
    ensures Allowed(p, calls + [c], |calls|) == Allow(p, After(p, calls, |calls|), c).1
  {
    hide Allow;
    AfterOfPrefix(p, calls, [c], |calls|);
  }

  lemma AllowedOfPrefix(p: Policy, calls: seq<Call>, more: seq<Call>, k: nat)
    requires k < |calls|
    ensures Allowed(p, calls + more, k) == Allowed(p, calls, k)
  {
    hide Allow, After;
    AfterOfPrefix(p, calls, more, k);
  }

  lemma {:induction false} GrantsOfPrefix(p: Policy, calls: seq<Call>, more: seq<Call>, key: string, lo: nat, hi: nat)
    requires lo <= hi <= |calls|
    ensures Grants(p, calls + more, key, lo, hi) == Grants(p, calls, key, lo, hi)
    decreases hi
  {
    hide Allowed;
    if lo < hi {
      AllowedOfPrefix(p, calls, more, hi - 1);
      GrantsOfPrefix(p, calls, more, key, lo, hi - 1);
    }
  }

  // ---- the limiter object ----

  class TokenBucket {
    const policy: Policy
    var buckets: Buckets

    constructor (rate: real, burst: int)
      ensures policy == Policy(rate, if burst < 1 then 1 else burst)
      ensures buckets == map[]
    {
      policy := Policy(rate, if burst < 1 then 1 else burst);
      buckets := map[];
    }

    method TryTake(key: string, now: real) returns (allowed: bool)
      modifies this
      ensures (buckets, allowed) == Allow(policy, old(buckets), Call(key, now))
    {
      var tokens, last := policy.burst as real, now;
      if key in buckets {
        tokens, last := buckets[key].tokens, buckets[key].last;
      }
      NoWaitNoRefill(policy, policy.burst as real, now);
      tokens := Min(policy.burst as real, tokens + (now - last) * policy.rate);
      assert tokens == Level(policy, buckets, key, now);
      allowed := tokens >= 1.0;
      if allowed {
        tokens := tokens - 1.0;
      }
      buckets := buckets[key := Bucket(tokens, now)];
      if |buckets| > PRUNE_ABOVE {
        Prune(now);
      }
    }

    method Prune(now: real)
      modifies this
      ensures buckets == Pruned(policy, old(buckets), now)
    {
      var full := set k | k in buckets && Full(policy, buckets[k], now);
      while full != {}
        invariant full == set k | k in buckets && Full(policy, buckets[k], now)
        invariant forall k :: k in buckets ==> k in old(buckets) && buckets[k] == old(buckets)[k]
        invariant Pruned(policy, buckets, now) == Pruned(policy, old(buckets), now)
        decreases full
      {
        var k :| k in full;
        buckets := buckets - {k};
        full := full - {k};
      }
      forall k | k in buckets
        ensures !Full(policy, buckets[k], now)
      {
        assert k !in full;
      }
    }
  }
}
