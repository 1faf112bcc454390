/** The three limits applied, in order, to every spending route
    (src/aitp_playground/api/_deps.py, src/aitp_playground/limits.py). Each limiter has a
    lock and a clock reading of its own, so a request makes up to three visits, and the
    visits of any number of requests interleave. */
module SpendLimits {
  import TB = TokenBuckets
  import RC = RollingCaps

  datatype Config = Config(policy: TB.Policy, cap: RC.Cap)

  datatype Request = Request(ip: string, key: string)

  datatype Limits = Limits(perIp: TB.Buckets, perKey: TB.Buckets, stamps: seq<real>)

  datatype Outcome = Admitted | RateLimited | HourlyLimitReached

  /** The limiter a request is about to visit, or its outcome. */
  datatype Stage = AtIp | AtKey | AtHour | Over(outcome: Outcome)

  function CallOf(r: Request, stage: Stage, at: real): (call: TB.Call)
    ensures call.at == at
  {
    TB.Call(if stage.AtIp? then "ip:" + r.ip else "key:" + r.key, at)
  }

  /** One visit: per-IP bucket, then per-key bucket, then the hourly cap; each refusal stops the rest. */
  function Visited(c: Config, s: Limits, stage: Stage, r: Request, at: real): (Limits, Stage) {
    match stage
    case AtIp =>
      var (perIp, ok) := TB.Allow(c.policy, s.perIp, CallOf(r, AtIp, at));
      (s.(perIp := perIp), if ok then AtKey else Over(RateLimited))
    case AtKey =>
      var (perKey, ok) := TB.Allow(c.policy, s.perKey, CallOf(r, AtKey, at));
      (s.(perKey := perKey), if ok then AtHour else Over(RateLimited))
    case AtHour =>
      var (stamps, ok) := RC.Acquire(c.cap, s.stamps, at);
      (s.(stamps := stamps), Over(if ok then Admitted else HourlyLimitReached))
    case Over(_) => (s, stage)
  }

  /** A request nobody interrupts: its three visits in a row. */
  function Enforce(c: Config, s: Limits, r: Request, ipAt: real, keyAt: real, hourAt: real): (Limits, Stage) {
    var (s1, second) := Visited(c, s, AtIp, r, ipAt);
    var (s2, third) := Visited(c, s1, second, r, keyAt);
    Visited(c, s2, third, r, hourAt)
  }

  // ---- runs: the visits of all requests in the order they get the locks ----

  datatype Visit = Visit(request: nat, at: real)

  datatype Run = Run(config: Config, requests: seq<Request>, visits: seq<Visit>)

  datatype World = World(limits: Limits, stages: map<nat, Stage>)

  function StageOf(w: World, r: nat): Stage {
    if r in w.stages then w.stages[r] else AtIp
  }

  /** A visit by a request there is none of, or that is over, is no visit. */
  function Next(run: Run, w: World, v: Visit): World {
    if v.request >= |run.requests| then w
    else
      var (limits, stage) := Visited(run.config, w.limits, StageOf(w, v.request), run.requests[v.request], v.at);
      World(limits, w.stages[v.request := stage])
  }

  function After(run: Run, k: nat): World
    requires k <= |run.visits|
  {
    if k == 0 then World(Limits(map[], map[], []), map[]) else Next(run, After(run, k - 1), run.visits[k - 1])
  }

  /** The limiter that visit k goes to, if any. */
  function Found(run: Run, k: nat): (stage: Stage)
    requires k < |run.visits|
    ensures !stage.Over? ==> run.visits[k].request < |run.requests|
  {
    var r := run.visits[k].request;
    if r < |run.requests| then StageOf(After(run, k), r) else Over(RateLimited)
  }

  /** Visit k is let through by the limiter it goes to. */
  predicate Granted(run: Run, k: nat)
    requires k < |run.visits|
  {
    var stage, r := Found(run, k), run.visits[k].request;
    && !stage.Over?
    && var next := Visited(run.config, After(run, k).limits, stage, run.requests[r], run.visits[k].at).1;
       next.AtKey? || next.AtHour? || next == Over(Admitted)
  }

  predicate IsAdmission(run: Run, k: nat)
    requires k < |run.visits|
  {
    Found(run, k).AtHour? && Granted(run, k)
  }

  /** The request of visit k is admitted by the end of the run. */
  predicate EndsAdmitted(run: Run, k: nat)
    requires k < |run.visits|
  {
    StageOf(After(run, |run.visits|), run.visits[k].request) == Over(Admitted)
  }

  datatype Callers = Anyone | WithIp(ip: string) | WithKey(key: string)

  predicate Includes(who: Callers, r: Request) {
    match who
    case Anyone => true
    case WithIp(ip) => r.ip == ip
    case WithKey(key) => r.key == key
  }

  /** How many requests of `who` went to the limiter `stage` in the visits `lo..hi` and are
      admitted by the end of the run. */
  function AdmittedVia(run: Run, who: Callers, stage: Stage, lo: nat, hi: nat): nat
    requires lo <= hi <= |run.visits|
  {
    if lo == hi then 0
    else
      var i := hi - 1;
      AdmittedVia(run, who, stage, lo, i)
      + if !stage.Over? && Found(run, i) == stage && Includes(who, run.requests[run.visits[i].request]) && EndsAdmitted(run, i)
        then 1 else 0
  }

  /** How many of the first k visits admitted a request less than the window before `now`. */
  function RecentlyAdmitted(run: Run, k: nat, now: real): nat
    requires k <= |run.visits|
  {
    if k == 0 then 0
    else RecentlyAdmitted(run, k - 1, now)
         + if IsAdmission(run, k - 1) && now - run.visits[k - 1].at < run.config.cap.window then 1 else 0
  }

  ghost predicate ClockAdvances(run: Run) {
    forall i, j :: 0 <= i <= j < |run.visits| ==> run.visits[i].at <= run.visits[j].at
  }

  // ---- what each limiter sees of a run ----

  /** The calls that reach a bucket, in the order it sees them. */
  function Seen(run: Run, stage: Stage, k: nat): seq<TB.Call>
    requires k <= |run.visits|
  {
    if k == 0 then []
    else Seen(run, stage, k - 1)
         + if !stage.Over? && Found(run, k - 1) == stage
           then [CallOf(run.requests[run.visits[k - 1].request], stage, run.visits[k - 1].at)] else []
  }

  /** The clock readings of the visits to the hourly cap. */
  function HourTimes(run: Run, k: nat): seq<real>
    requires k <= |run.visits|
  {
    if k == 0 then []
    else HourTimes(run, k - 1) + if Found(run, k - 1).AtHour? then [run.visits[k - 1].at] else []
  }

  function BucketsAt(s: Limits, stage: Stage): TB.Buckets {
    if stage.AtIp? then s.perIp else s.perKey
  }

  lemma VisitParts(run: Run, k: nat)
    requires k < |run.visits|
    ensures var s, s', v, found := After(run, k).limits, After(run, k + 1).limits, run.visits[k], Found(run, k);
            && (forall stage: Stage :: stage.AtIp? || stage.AtKey? ==>
                  if found == stage
                  then var (buckets, ok) := TB.Allow(run.config.policy, BucketsAt(s, stage), CallOf(run.requests[v.request], stage, v.at));
                       BucketsAt(s', stage) == buckets && (Granted(run, k) <==> ok)
                  else BucketsAt(s', stage) == BucketsAt(s, stage))
            && (if found.AtHour?
                then (s'.stamps, IsAdmission(run, k)) == RC.Acquire(run.config.cap, s.stamps, v.at)
                else s'.stamps == s.stamps)
  {
    hide TB.Allow, RC.Acquire;
  }

  lemma Start(run: Run)
    ensures var s := After(run, 0).limits;
            && s.perIp == TB.After(run.config.policy, [], 0) && s.perKey == TB.After(run.config.policy, [], 0)
            && s.stamps == RC.After(run.config.cap, [], 0)
  {
  }

  /** A bucket is where the calls it has seen, alone, would have brought it. */
  lemma {:induction false} BucketSees(run: Run, stage: Stage, k: nat)
    requires k <= |run.visits| && (stage.AtIp? || stage.AtKey?)
    ensures BucketsAt(After(run, k).limits, stage) == TB.After(run.config.policy, Seen(run, stage, k), |Seen(run, stage, k)|)
  {
    hide After, TB.After, TB.Allow, Found, Granted, CallOf;
    if k == 0 {
      Start(run);
    } else {
      var m := k - 1;
      var calls := Seen(run, stage, m);
      assert calls + [] == calls;
      BucketSees(run, stage, m);
      VisitParts(run, m);
      if Found(run, m) == stage {
        TB.AppendCall(run.config.policy, calls, CallOf(run.requests[run.visits[m].request], stage, run.visits[m].at));
      }
    }
  }

  lemma {:induction false} HourLimiterSees(run: Run, k: nat)
    requires k <= |run.visits|
    ensures After(run, k).limits.stamps == RC.After(run.config.cap, HourTimes(run, k), |HourTimes(run, k)|)
  {
    hide After, RC.After, RC.Acquire, Found, Granted, IsAdmission;
    if k == 0 {
      Start(run);
    } else {
      var m := k - 1;
      var times := HourTimes(run, m);
      assert times + [] == times;
      HourLimiterSees(run, m);
      VisitParts(run, m);
      RC.AppendCall(run.config.cap, times, run.visits[m].at);
    }
  }

  // ---- the way of one request ----

  lemma StageMoves(run: Run, k: nat, r: nat)
    requires k < |run.visits| && r < |run.requests|
    ensures var before, after := StageOf(After(run, k), r), StageOf(After(run, k + 1), r);
            if run.visits[k].request == r && !before.Over?
            then Found(run, k) == before
                 && (Granted(run, k) <==> after == (if before.AtIp? then AtKey else if before.AtKey? then AtHour else Over(Admitted)))
                 && (!Granted(run, k) <==> after == Over(if before.AtHour? then HourlyLimitReached else RateLimited))
            else after == before
  {
    hide TB.Allow, RC.Acquire;
  }

  /** An outcome is never changed. */
  lemma {:induction false} OverStays(run: Run, i: nat, k: nat, r: nat)
    requires i <= k <= |run.visits| && r < |run.requests| && StageOf(After(run, i), r).Over?
    ensures StageOf(After(run, k), r) == StageOf(After(run, i), r)
  {
    hide After, StageOf;
    if i < k {
      OverStays(run, i, k - 1, r);
      StageMoves(run, k - 1, r);
    }
  }

  /** Only a visit let through leads to an admission, and at the cap that visit is it. */
  lemma EndsAdmittedOnlyIfGranted(run: Run, k: nat)
    requires k < |run.visits| && !Found(run, k).Over?
    ensures EndsAdmitted(run, k) ==> Granted(run, k)
    ensures Found(run, k).AtHour? ==> (EndsAdmitted(run, k) <==> IsAdmission(run, k))
  {
    hide After, StageOf, Granted;
    var r := run.visits[k].request;
    FoundIsStage(run, k);
    StageMoves(run, k, r);
    if StageOf(After(run, k + 1), r).Over? {
      OverStays(run, k + 1, |run.visits|, r);
    }
  }

  lemma FoundIsStage(run: Run, k: nat)
    requires k < |run.visits| && !Found(run, k).Over?
    ensures run.visits[k].request < |run.requests| && StageOf(After(run, k), run.visits[k].request) == Found(run, k)
  {
  }

  /** Visit i of request r was let through by `stage`. */
  ghost predicate PassedAt(run: Run, i: nat, r: nat, stage: Stage)
    requires i < |run.visits|
  {
    run.visits[i].request == r && Found(run, i) == stage && Granted(run, i)
  }

  ghost predicate Passed(run: Run, k: nat, r: nat, stage: Stage)
    requires k <= |run.visits|
  {
    exists i: nat :: i < k && PassedAt(run, i, r, stage)
  }

  /** Where a request stands tells which limiters have let it through. */
  lemma {:induction false} StageTellsPassed(run: Run, k: nat, r: nat)
    requires k <= |run.visits| && r < |run.requests|
    ensures var stage := StageOf(After(run, k), r);
            && (stage.AtKey? || stage.AtHour? || stage == Over(Admitted) || stage == Over(HourlyLimitReached) ==> Passed(run, k, r, AtIp))
            && (stage.AtHour? || stage == Over(Admitted) || stage == Over(HourlyLimitReached) ==> Passed(run, k, r, AtKey))
            && (stage == Over(Admitted) <==> Passed(run, k, r, AtHour))
  {
    hide After, StageOf, Granted, Found;
    if k == 0 {
      AtFirst(run, r);
    } else {
      var m := k - 1;
      StageTellsPassed(run, m, r);
      StageMoves(run, m, r);
      PassedStep(run, m, r, AtIp);
      PassedStep(run, m, r, AtKey);
      PassedStep(run, m, r, AtHour);
      if run.visits[m].request == r && StageOf(After(run, m), r).Over? {
        FoundOver(run, m);
      }
    }
  }

  lemma PassedStep(run: Run, k: nat, r: nat, stage: Stage)
    requires k < |run.visits|
    ensures Passed(run, k + 1, r, stage) <==> Passed(run, k, r, stage) || PassedAt(run, k, r, stage)
  {
    hide PassedAt;
  }

  lemma AtFirst(run: Run, r: nat)
    ensures StageOf(After(run, 0), r) == AtIp
  {
  }

  lemma FoundOver(run: Run, k: nat)
    requires k < |run.visits| && run.visits[k].request < |run.requests| && StageOf(After(run, k), run.visits[k].request).Over?
    ensures Found(run, k).Over?
  {
  }

  // ---- the hourly cap over all callers ----

  lemma {:induction false} HourTimesSorted(run: Run, k: nat)
    requires ClockAdvances(run) && k <= |run.visits|
    ensures RC.Sorted(HourTimes(run, k))
    ensures forall i :: 0 <= i < |HourTimes(run, k)| ==> k > 0 && HourTimes(run, k)[i] <= run.visits[k - 1].at
  {
    hide Found;
    if k > 0 {
      HourTimesSorted(run, k - 1);
    }
  }

  /** A visit to the cap admits iff the cap, fed only such visits, has room. */
  lemma AdmissionIffAcquired(run: Run, k: nat)
    requires k < |run.visits| && Found(run, k).AtHour?
    ensures IsAdmission(run, k)
            <==> RC.Acquired(run.config.cap, HourTimes(run, k) + [run.visits[k].at], |HourTimes(run, k)|)
  {
    hide After, RC.After, RC.Acquire, Found, IsAdmission, RC.Acquired;
    HourLimiterSees(run, k);
    VisitParts(run, k);
    RC.AppendCall(run.config.cap, HourTimes(run, k), run.visits[k].at);
  }

  lemma {:induction false} RecentMatches(run: Run, k: nat, now: real)
    requires k <= |run.visits|
    ensures RC.Recent(run.config.cap, HourTimes(run, k), |HourTimes(run, k)|, now) == RecentlyAdmitted(run, k, now)
  {
    hide Found, Granted, RC.Acquired, RC.Acquire, After;
    if k > 0 {
      var m := k - 1;
      RecentMatches(run, m, now);
      var times, t := HourTimes(run, m), run.visits[m].at;
      assert times + [] == times;
      if Found(run, m).AtHour? {
        AdmissionIffAcquired(run, m);
        RC.CountsOfPrefix(run.config.cap, times, [t], 0, |times|, now);
      }
    }
  }

  /** Main result: in every interleaving, a request is admitted at visit k exactly when both
      buckets let it through before and fewer than `limit` requests of all callers were
      admitted within the window. Refused requests, of either kind, and requests still on
      their way use up none of the hourly allowance. */
  lemma AdmittedIff(run: Run, k: nat)
    requires ClockAdvances(run) && k < |run.visits|
    ensures IsAdmission(run, k)
            <==> Found(run, k).AtHour? && RecentlyAdmitted(run, k, run.visits[k].at) < run.config.cap.limit
    ensures Found(run, k).AtHour? ==>
              Passed(run, k, run.visits[k].request, AtIp) && Passed(run, k, run.visits[k].request, AtKey)
  {
    hide After, RC.Acquired, Passed, Granted;
    if Found(run, k).AtHour? {
      var hourTimes, now := HourTimes(run, k), run.visits[k].at;
      HourTimesSorted(run, k);
      AdmissionIffAcquired(run, k);
      RC.AcquiredIffRoom(run.config.cap, hourTimes + [now], |hourTimes|);
      RC.CountsOfPrefix(run.config.cap, hourTimes, [now], 0, |hourTimes|, now);
      RecentMatches(run, k, now);
      FoundIsStage(run, k);
      StageTellsPassed(run, k, run.visits[k].request);
    }
  }

  lemma {:induction false} AdmittedAreRecent(run: Run, lo: nat, hi: nat, now: real)
    requires lo <= hi <= |run.visits|
    requires forall i :: lo <= i < hi ==> now - run.visits[i].at < run.config.cap.window
    ensures AdmittedVia(run, Anyone, AtHour, lo, hi) <= RecentlyAdmitted(run, hi, now)
    decreases hi
  {
    hide Found, EndsAdmitted, IsAdmission;
    if lo < hi {
      AdmittedAreRecent(run, lo, hi - 1, now);
      if Found(run, hi - 1).AtHour? {
        EndsAdmittedOnlyIfGranted(run, hi - 1);
      }
    }
  }

  /** All callers together get at most `limit` admissions in any window. */
  lemma {:induction false} HourlyCapAcrossCallers(run: Run, lo: nat, hi: nat)
    requires ClockAdvances(run) && lo < hi <= |run.visits|
    requires run.visits[hi - 1].at - run.visits[lo].at < run.config.cap.window
    ensures AdmittedVia(run, Anyone, AtHour, lo, hi) <= if run.config.cap.limit < 0 then 0 else run.config.cap.limit
    decreases hi
  {
    hide Found, EndsAdmitted, IsAdmission, RecentlyAdmitted;
    var m := hi - 1;
    AdmittedIff(run, m);
    AdmittedAreRecent(run, lo, m, run.visits[m].at);
    if Found(run, m).AtHour? {
      EndsAdmittedOnlyIfGranted(run, m);
    }
    if lo < m && !IsAdmission(run, m) {
      HourlyCapAcrossCallers(run, lo, m);
    }
  }

  // ---- the per-IP and per-key bounds ----

  function CallersOf(stage: Stage, name: string): Callers {
    if stage.AtIp? then WithIp(name) else WithKey(name)
  }

  function BucketKey(stage: Stage, name: string): string {
    (if stage.AtIp? then "ip:" else "key:") + name
  }

  lemma SeenGrows(run: Run, stage: Stage, lo: nat, hi: nat)
    requires lo <= hi <= |run.visits|
    ensures |Seen(run, stage, lo)| <= |Seen(run, stage, hi)|
    decreases hi
  {
    hide Found;
    if lo < hi {
      SeenGrows(run, stage, lo, hi - 1);
    }
  }

  lemma GrantedIffAllowed(run: Run, stage: Stage, k: nat)
    requires k < |run.visits| && (stage.AtIp? || stage.AtKey?) && Found(run, k) == stage
    ensures var calls := Seen(run, stage, k);
            Granted(run, k)
            <==> TB.Allowed(run.config.policy, calls + [CallOf(run.requests[run.visits[k].request], stage, run.visits[k].at)], |calls|)
  {
    hide After, TB.After, TB.Allow, TB.Allowed, Found, Granted;
    BucketSees(run, stage, k);
    VisitParts(run, k);
    TB.AppendCall(run.config.policy, Seen(run, stage, k), CallOf(run.requests[run.visits[k].request], stage, run.visits[k].at));
  }

  lemma IncludedCallsHaveKey(stage: Stage, name: string, r: Request, at: real)
    requires (stage.AtIp? || stage.AtKey?) && Includes(CallersOf(stage, name), r)
    ensures CallOf(r, stage, at).key == BucketKey(stage, name)
  {
  }

  lemma GrantsStep(p: TB.Policy, calls: seq<TB.Call>, call: TB.Call, key: string, lo: nat)
    requires lo <= |calls|
    ensures TB.Grants(p, calls + [call], key, lo, |calls| + 1)
            == TB.Grants(p, calls, key, lo, |calls|) + if call.key == key && TB.Allowed(p, calls + [call], |calls|) then 1 else 0
  {
    hide TB.Allowed;
    TB.GrantsOfPrefix(p, calls, [call], key, lo, |calls|);
  }

  lemma {:induction false} AdmittedAreGrants(run: Run, stage: Stage, name: string, lo: nat, hi: nat)
    requires lo <= hi <= |run.visits| && (stage.AtIp? || stage.AtKey?)
    ensures |Seen(run, stage, lo)| <= |Seen(run, stage, hi)|
    ensures AdmittedVia(run, CallersOf(stage, name), stage, lo, hi)
            <= TB.Grants(run.config.policy, Seen(run, stage, hi), BucketKey(stage, name), |Seen(run, stage, lo)|, |Seen(run, stage, hi)|)
    decreases hi
  {
    hide Granted, Found, EndsAdmitted, TB.Grants, TB.Allowed, CallOf, BucketKey, Includes, CallersOf;
    SeenGrows(run, stage, lo, hi);
    if lo < hi {
      var m := hi - 1;
      SeenGrows(run, stage, lo, m);
      AdmittedAreGrants(run, stage, name, lo, m);
      var calls := Seen(run, stage, m);
      if Found(run, m) == stage {
        var r := run.requests[run.visits[m].request];
        GrantsStep(run.config.policy, calls, CallOf(r, stage, run.visits[m].at), BucketKey(stage, name), |Seen(run, stage, lo)|);
        GrantedIffAllowed(run, stage, m);
        EndsAdmittedOnlyIfGranted(run, m);
        if Includes(CallersOf(stage, name), r) {
          IncludedCallsHaveKey(stage, name, r, run.visits[m].at);
        }
      } else {
        assert calls + [] == calls;
      }
    }
  }

  /** The bucket's calls come in the order, and at the times, of the visits. */
  lemma {:induction false} SeenInOrder(run: Run, stage: Stage, k: nat)
    requires ClockAdvances(run) && k <= |run.visits|
    ensures TB.NonDecreasing(Seen(run, stage, k))
    ensures forall i :: 0 <= i < |Seen(run, stage, k)| ==> k > 0 && Seen(run, stage, k)[i].at <= run.visits[k - 1].at
  {
    hide Found, CallOf;
    if k > 0 {
      SeenInOrder(run, stage, k - 1);
    }
  }

  lemma {:induction false} SeenSince(run: Run, stage: Stage, lo: nat, hi: nat)
    requires ClockAdvances(run) && lo <= hi <= |run.visits|
    ensures |Seen(run, stage, lo)| <= |Seen(run, stage, hi)|
    ensures forall i :: |Seen(run, stage, lo)| <= i < |Seen(run, stage, hi)| ==>
                          lo < |run.visits| && run.visits[lo].at <= Seen(run, stage, hi)[i].at
    decreases hi
  {
    hide Found, CallOf;
    if lo < hi {
      SeenSince(run, stage, lo, hi - 1);
    }
  }

  /** What one bucket may let through in an interval of this length. */
  function Budget(p: TB.Policy, length: real): real {
    p.burst as real + length * p.rate
  }

  lemma BudgetGrows(p: TB.Policy, used: real, length: real)
    requires TB.WellFormed(p) && used <= length
    ensures Budget(p, used) <= Budget(p, length)
  {
    TB.GainIsMonotone(p.rate, used, length);
  }

  lemma BudgetOfNothing(p: TB.Policy, length: real)
    requires TB.WellFormed(p) && length >= 0.0
    ensures 0.0 <= Budget(p, length)
  {
  }

  lemma GrantsWithinBudget(p: TB.Policy, calls: seq<TB.Call>, key: string, lo: nat, hi: nat)
    requires TB.WellFormed(p) && TB.NonDecreasing(calls) && lo < hi <= |calls|
    ensures TB.Grants(p, calls, key, lo, hi) as real <= Budget(p, calls[hi - 1].at - calls[lo].at)
  {
    hide TB.Grants;
    TB.WindowBound(p, calls, key, lo, hi);
  }

  lemma NothingSeenNothingAdmitted(run: Run, stage: Stage, name: string, lo: nat, hi: nat)
    requires lo < hi <= |run.visits| && (stage.AtIp? || stage.AtKey?)
    requires |Seen(run, stage, lo)| == |Seen(run, stage, hi)|
    ensures AdmittedVia(run, CallersOf(stage, name), stage, lo, hi) == 0
  {
    hide AdmittedVia, Seen, TB.Allowed;
    AdmittedAreGrants(run, stage, name, lo, hi);
  }

  lemma BucketBound(run: Run, stage: Stage, name: string, lo: nat, hi: nat)
    requires TB.WellFormed(run.config.policy) && ClockAdvances(run) && lo < hi <= |run.visits|
    requires stage.AtIp? || stage.AtKey?
    ensures AdmittedVia(run, CallersOf(stage, name), stage, lo, hi) as real
            <= Budget(run.config.policy, run.visits[hi - 1].at - run.visits[lo].at)
  {
    hide AdmittedVia, Seen, TB.Grants, TB.WellFormed, CallersOf, BucketKey, Budget;
    var p, calls, from := run.config.policy, Seen(run, stage, hi), |Seen(run, stage, lo)|;
    SeenInOrder(run, stage, hi);
    SeenSince(run, stage, lo, hi);
    if from == |calls| {
      NothingSeenNothingAdmitted(run, stage, name, lo, hi);
      BudgetOfNothing(p, run.visits[hi - 1].at - run.visits[lo].at);
    } else {
      AdmittedAreGrants(run, stage, name, lo, hi);
      GrantsWithinBudget(p, calls, BucketKey(stage, name), from, |calls|);
      BudgetGrows(p, calls[|calls| - 1].at - calls[from].at, run.visits[hi - 1].at - run.visits[lo].at);
    }
  }

  /** Of the requests of one address that reach its bucket in an interval, at most burst +
      rate * length are ever admitted. */
  lemma PerIpBound(run: Run, ip: string, lo: nat, hi: nat)
    requires TB.WellFormed(run.config.policy) && ClockAdvances(run) && lo < hi <= |run.visits|
    ensures AdmittedVia(run, WithIp(ip), AtIp, lo, hi) as real
            <= Budget(run.config.policy, run.visits[hi - 1].at - run.visits[lo].at)
  {
    hide AdmittedVia, Budget, TB.WellFormed;
    BucketBound(run, AtIp, ip, lo, hi);
  }

  /** The same for one key, although its bucket sees only what the first let through. */
  lemma PerKeyBound(run: Run, key: string, lo: nat, hi: nat)
    requires TB.WellFormed(run.config.policy) && ClockAdvances(run) && lo < hi <= |run.visits|
    ensures AdmittedVia(run, WithKey(key), AtKey, lo, hi) as real
            <= Budget(run.config.policy, run.visits[hi - 1].at - run.visits[lo].at)
  {
    hide AdmittedVia, Budget, TB.WellFormed;
    BucketBound(run, AtKey, key, lo, hi);
  }

  // ---- exactly when a bucket lets a visit through ----

  /** How many of the visits `lo..hi` to this bucket, by these callers, were let through. */
  function LetThrough(run: Run, who: Callers, stage: Stage, lo: nat, hi: nat): nat
    requires lo <= hi <= |run.visits|
  {
    if lo == hi then 0
    else
      var i := hi - 1;
      LetThrough(run, who, stage, lo, i)
      + if !stage.Over? && Found(run, i) == stage && Includes(who, run.requests[run.visits[i].request]) && Granted(run, i)
        then 1 else 0
  }

  lemma CallHasKeyIff(stage: Stage, name: string, r: Request, at: real)
    requires stage.AtIp? || stage.AtKey?
    ensures CallOf(r, stage, at).key == BucketKey(stage, name) <==> Includes(CallersOf(stage, name), r)
  {
    if CallOf(r, stage, at).key == BucketKey(stage, name) {
      var own := if stage.AtIp? then r.ip else r.key;
      var prefix := if stage.AtIp? then "ip:" else "key:";
      assert own == (prefix + own)[|prefix|..] && name == (prefix + name)[|prefix|..];
    }
  }

  /** What a bucket's own history of calls says, said of the visits. */
  lemma {:induction false} LetThroughAreGrants(run: Run, stage: Stage, name: string, lo: nat, hi: nat)
    requires lo <= hi <= |run.visits| && (stage.AtIp? || stage.AtKey?)
    ensures |Seen(run, stage, lo)| <= |Seen(run, stage, hi)|
    ensures LetThrough(run, CallersOf(stage, name), stage, lo, hi)
            == TB.Grants(run.config.policy, Seen(run, stage, hi), BucketKey(stage, name), |Seen(run, stage, lo)|, |Seen(run, stage, hi)|)
    decreases hi
  {
    hide Granted, Found, TB.Allowed, CallOf, BucketKey, Includes, CallersOf;
    SeenGrows(run, stage, lo, hi);
    if lo < hi {
      hide TB.Grants;
      var m := hi - 1;
      SeenGrows(run, stage, lo, m);
      LetThroughAreGrants(run, stage, name, lo, m);
      var calls := Seen(run, stage, m);
      if Found(run, m) == stage {
        var r := run.requests[run.visits[m].request];
        GrantsStep(run.config.policy, calls, CallOf(r, stage, run.visits[m].at), BucketKey(stage, name), |Seen(run, stage, lo)|);
        GrantedIffAllowed(run, stage, m);
        CallHasKeyIff(stage, name, r, run.visits[m].at);
      } else {
        assert calls + [] == calls;
      }
    }
  }

  /** Each call a bucket has seen is one visit, and each visit to it one call. */
  lemma {:induction false} SeenIsVisit(run: Run, stage: Stage, k: nat, j: nat) returns (lo: nat)
    requires k <= |run.visits| && j < |Seen(run, stage, k)|
    ensures lo < k && Found(run, lo) == stage && !stage.Over? && |Seen(run, stage, lo)| == j
  {
    hide Found, CallOf;
    if j == |Seen(run, stage, k - 1)| {
      lo := k - 1;
    } else {
      lo := SeenIsVisit(run, stage, k - 1, j);
    }
  }

  lemma {:induction false} VisitIsSeen(run: Run, stage: Stage, lo: nat, k: nat)
    requires lo < k <= |run.visits| && Found(run, lo) == stage && !stage.Over?
    ensures |Seen(run, stage, lo)| < |Seen(run, stage, k)|
    ensures Seen(run, stage, k)[|Seen(run, stage, lo)|].at == run.visits[lo].at
    decreases k
  {
    hide Found, CallOf;
    if lo < k - 1 {
      VisitIsSeen(run, stage, lo, k - 1);
    }
  }

  /** One more grant at visit k keeps the window from visit `lo` within its budget. */
  ghost predicate WindowHolds(run: Run, stage: Stage, name: string, lo: nat, k: nat)
    requires lo <= k < |run.visits|
  {
    LetThrough(run, CallersOf(stage, name), stage, lo, k) as real + 1.0
    <= run.config.policy.burst as real + (run.visits[k].at - run.visits[lo].at) * run.config.policy.rate
  }

  lemma SeenNext(run: Run, stage: Stage, k: nat)
    requires k < |run.visits| && Found(run, k) == stage && !stage.Over?
    ensures Seen(run, stage, k + 1) == Seen(run, stage, k) + [CallOf(run.requests[run.visits[k].request], stage, run.visits[k].at)]
  {
  }

  lemma SeenLater(run: Run, stage: Stage, lo: nat, k: nat)
    requires lo <= k < |run.visits| && Found(run, lo) == stage == Found(run, k) && !stage.Over?
    ensures |Seen(run, stage, lo)| <= |Seen(run, stage, k)| < |Seen(run, stage, k + 1)|
    ensures Seen(run, stage, k + 1)[|Seen(run, stage, lo)|].at == run.visits[lo].at
    ensures Seen(run, stage, k + 1)[|Seen(run, stage, k)|].at == run.visits[k].at
  {
    hide Found, CallOf, Seen;
    SeenGrows(run, stage, lo, k);
    VisitIsSeen(run, stage, k, k + 1);
    VisitIsSeen(run, stage, lo, k + 1);
  }

  lemma ConformsIs(p: TB.Policy, calls: seq<TB.Call>, key: string, i: nat, n: nat, grants: nat, from: real, to: real)
    requires i <= n < |calls| && TB.Grants(p, calls, key, i, n) == grants && calls[i].at == from && calls[n].at == to
    ensures TB.Conforms(p, calls, key, i, n) <==> grants as real + 1.0 <= Budget(p, to - from)
  {
    hide TB.Grants;
  }

  lemma HoldsIs(run: Run, stage: Stage, name: string, lo: nat, k: nat)
    requires lo <= k < |run.visits|
    ensures WindowHolds(run, stage, name, lo, k)
            <==> LetThrough(run, CallersOf(stage, name), stage, lo, k) as real + 1.0
                 <= Budget(run.config.policy, run.visits[k].at - run.visits[lo].at)
  {
    hide LetThrough;
  }

  lemma WindowIsConforms(run: Run, stage: Stage, name: string, lo: nat, k: nat)
    requires lo <= k < |run.visits| && (stage.AtIp? || stage.AtKey?)
    requires Found(run, lo) == stage == Found(run, k)
    ensures var calls := Seen(run, stage, k + 1);
            && |Seen(run, stage, lo)| <= |Seen(run, stage, k)| < |calls|
            && (WindowHolds(run, stage, name, lo, k)
                <==> TB.Conforms(run.config.policy, calls, BucketKey(stage, name), |Seen(run, stage, lo)|, |Seen(run, stage, k)|))
  {
    hide LetThrough, TB.Grants, TB.Conforms, Found, CallersOf, BucketKey, Budget, WindowHolds, Seen, CallOf;
    LetThroughAreGrants(run, stage, name, lo, k);
    SeenLater(run, stage, lo, k);
    SeenNext(run, stage, k);
    var p, calls, key := run.config.policy, Seen(run, stage, k + 1), BucketKey(stage, name);
    var call := CallOf(run.requests[run.visits[k].request], stage, run.visits[k].at);
    TB.GrantsOfPrefix(p, Seen(run, stage, k), [call], key, |Seen(run, stage, lo)|, |Seen(run, stage, k)|);
    ConformsIs(p, calls, key, |Seen(run, stage, lo)|, |Seen(run, stage, k)|,
               LetThrough(run, CallersOf(stage, name), stage, lo, k), run.visits[lo].at, run.visits[k].at);
    HoldsIs(run, stage, name, lo, k);
  }

  /** Main result: in every interleaving, a bucket lets a visit through exactly when, counting
      only earlier visits of the same address (or key) to it, one more grant keeps every
      window within burst + rate * length. Other callers make no difference. */
  lemma LetThroughIff(run: Run, stage: Stage, name: string, k: nat)
    requires TB.WellFormed(run.config.policy) && ClockAdvances(run) && k < |run.visits|
    requires (stage.AtIp? || stage.AtKey?) && Found(run, k) == stage
    requires Includes(CallersOf(stage, name), run.requests[run.visits[k].request])
    ensures Granted(run, k) <==> forall lo: nat :: lo <= k && Found(run, lo) == stage ==> WindowHolds(run, stage, name, lo, k)
  {
    hide Granted, Found, TB.WellFormed, TB.Conforms, TB.Allowed, WindowHolds, CallersOf, BucketKey, Includes, CallOf;
    var r := run.requests[run.visits[k].request];
    var n, next := |Seen(run, stage, k)|, k + 1;
    var calls := Seen(run, stage, next);
    VisitIsSeen(run, stage, k, next);
    SeenInOrder(run, stage, next);
    CallHasKeyIff(stage, name, r, run.visits[k].at);
    GrantedIffAllowed(run, stage, k);
    assert calls == Seen(run, stage, k) + [CallOf(r, stage, run.visits[k].at)];
    TB.AllowedIffEveryWindowConforms(run.config.policy, calls, n);
    var key := BucketKey(stage, name);
    assert calls[n].key == key;
    forall lo: nat | lo <= k && Found(run, lo) == stage
      ensures |Seen(run, stage, lo)| <= n
      ensures WindowHolds(run, stage, name, lo, k) <==> TB.Conforms(run.config.policy, calls, key, |Seen(run, stage, lo)|, n)
    {
      WindowIsConforms(run, stage, name, lo, k);
    }
    if forall lo: nat :: lo <= k && Found(run, lo) == stage ==> WindowHolds(run, stage, name, lo, k) {
      forall j: nat | j <= n
        ensures TB.Conforms(run.config.policy, calls, key, j, n)
      {
        var lo := SeenIsVisit(run, stage, next, j);
        assert lo <= k && |Seen(run, stage, lo)| == j;
      }
    }
  }

  // ---- the limits object ----

  class SpendLimits {
    const perIp: TB.TokenBucket
    const perKey: TB.TokenBucket
    const hourly: RC.RollingCap

    ghost predicate Valid(c: Config) {
      perIp != perKey && perIp.policy == c.policy && perKey.policy == c.policy && hourly.cap == c.cap
    }

    ghost function State(): Limits
      reads perIp, perKey, hourly
    {
      Limits(perIp.buckets, perKey.buckets, hourly.stamps)
    }

    constructor (ratePerSec: real, burst: int, maxRunsPerHour: int)
      ensures Valid(Config(TB.Policy(ratePerSec, if burst < 1 then 1 else burst), RC.Cap(maxRunsPerHour, 3600.0)))
      ensures fresh(perIp) && fresh(perKey) && fresh(hourly) && State() == Limits(map[], map[], [])
    {
      perIp := new TB.TokenBucket(ratePerSec, burst);
      perKey := new TB.TokenBucket(ratePerSec, burst);
      hourly := new RC.RollingCap(maxRunsPerHour, 3600.0);
    }

    /** One request, with nothing between its visits. */
    method Check(ghost c: Config, r: Request, ipAt: real, keyAt: real, hourAt: real) returns (outcome: Outcome)
      requires Valid(c)
      modifies perIp, perKey, hourly
      ensures (State(), Over(outcome)) == Enforce(c, old(State()), r, ipAt, keyAt, hourAt)
    {
      var ok := perIp.TryTake("ip:" + r.ip, ipAt);
      if !ok {
        return RateLimited;
      }
      ok := perKey.TryTake("key:" + r.key, keyAt);
      if !ok {
        return RateLimited;
      }
      ok := hourly.TryAcquire(hourAt);
      outcome := if ok then Admitted else HourlyLimitReached;
    }
  }
}
