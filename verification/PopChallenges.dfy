/** Outstanding proof-of-possession challenges (agents/base/pop_challenges.py;
    RFC-AITP-0005 sections 6 and 10.5, RFC-AITP-0001 section 5.5). */
module PopChallenges {

  import opened Wrappers

  datatype Challenge = Challenge(nonce: string, body: string, expiresAt: real)

  /** nonce -> the challenge awaiting its answer. */
  type Outstanding = map<string, Challenge>

  /** What decoding an answer yields: the nonce it echoes, or nothing usable. */
  datatype Response = NoNonce | Echo(nonce: string)

  datatype Reply =
    | Issued(challenge: Challenge)
    | TooManyOutstanding
    | SdkRefused
    | Spent(challenge: Challenge)
    | ResponseInvalid
    | ChallengeInvalid
    | Untouched

  function Pruned(m: Outstanding, now: real): Outstanding {
    map n | n in m && m[n].expiresAt >= now :: m[n]
  }

  /** One `issue`; `made` is what the SDK builds, or None when it refuses the token. */
  function Issue(maxEntries: int, m: Outstanding, made: Option<Challenge>, now: real): (Outstanding, Reply) {
    var kept := Pruned(m, now);
    if |kept| >= maxEntries then (kept, TooManyOutstanding)
    else match made
      case None => (kept, SdkRefused)
      case Some(c) => (kept[c.nonce := c], Issued(c))
  }

  /** One `consume`. An answer without a nonce is refused before the clock is read. */
  function Consume(m: Outstanding, r: Response, now: real): (Outstanding, Reply) {
    match r
    case NoNonce => (m, ResponseInvalid)
    case Echo(nonce) =>
      var kept := Pruned(m, now);
      if nonce in kept then (kept - {nonce}, Spent(kept[nonce])) else (kept, ChallengeInvalid)
  }

  // ---- runs ----

  datatype Op = Ask(made: Option<Challenge>, at: real) | Answer(response: Response, at: real) | Elsewhere(at: real)

  function Step(maxEntries: int, m: Outstanding, op: Op): (Outstanding, Reply) {
    match op
    case Ask(made, at) => Issue(maxEntries, m, made, at)
    case Answer(response, at) => Consume(m, response, at)
    case Elsewhere(_) => (m, Untouched)
  }

  function After(maxEntries: int, ops: seq<Op>, k: nat): Outstanding
    requires k <= |ops|
  {
    if k == 0 then map[] else Step(maxEntries, After(maxEntries, ops, k - 1), ops[k - 1]).0
  }

  function ReplyOf(maxEntries: int, ops: seq<Op>, k: nat): Reply
    requires k < |ops|
  {
    Step(maxEntries, After(maxEntries, ops, k), ops[k]).1
  }

  ghost predicate ClockAdvances(ops: seq<Op>) {
    forall i, j :: 0 <= i <= j < |ops| ==> ops[i].at <= ops[j].at
  }

  /** The step that last issued or spent a challenge with this nonce, among the first `k`. */
  function LastTouch(maxEntries: int, ops: seq<Op>, k: nat, nonce: string): (t: Option<nat>)
    requires k <= |ops|
    ensures t.Some? ==> t.value < k
  {
    if k == 0 then None
    else match ReplyOf(maxEntries, ops, k - 1)
      case Issued(c) => if c.nonce == nonce then Some(k - 1) else LastTouch(maxEntries, ops, k - 1, nonce)
      case Spent(c) => if c.nonce == nonce then Some(k - 1) else LastTouch(maxEntries, ops, k - 1, nonce)
      case _ => LastTouch(maxEntries, ops, k - 1, nonce)
  }

  /** The challenge with this nonce that was issued, not spent since, and is unexpired at `now`. */
  function Awaiting(maxEntries: int, ops: seq<Op>, k: nat, nonce: string, now: real): Option<Challenge>
    requires k <= |ops|
  {
    match LastTouch(maxEntries, ops, k, nonce)
    case None => None
    case Some(j) =>
      match ReplyOf(maxEntries, ops, j)
      case Issued(c) => if c.expiresAt >= now then Some(c) else None
      case _ => None
  }

  // ---- the bounded table agrees with the whole history ----

  /** The table holds only unspent challenges, and all of those unexpired at `now`. */
  ghost predicate Tracks(maxEntries: int, ops: seq<Op>, k: nat, m: Outstanding, now: real)
    requires k <= |ops|
  {
    forall n :: if n in m then Awaiting(maxEntries, ops, k, n, m[n].expiresAt) == Some(m[n])
                else Awaiting(maxEntries, ops, k, n, now) == None
  }

  lemma PruningKeepsTracking(maxEntries: int, ops: seq<Op>, k: nat, m: Outstanding, now: real, later: real)
    requires k <= |ops| && now <= later && Tracks(maxEntries, ops, k, m, now)
    ensures Tracks(maxEntries, ops, k, m, later) && Tracks(maxEntries, ops, k, Pruned(m, later), later)
    ensures forall n :: Awaiting(maxEntries, ops, k, n, later)
                        == if n in Pruned(m, later) then Some(m[n]) else None
  {
    hide LastTouch, ReplyOf;
  }

  lemma {:induction false} TouchHasNonce(maxEntries: int, ops: seq<Op>, k: nat, nonce: string)
    requires k <= |ops|
    ensures var t := LastTouch(maxEntries, ops, k, nonce);
            t.Some? ==> match ReplyOf(maxEntries, ops, t.value)
                        case Issued(c) => c.nonce == nonce
                        case Spent(c) => c.nonce == nonce
                        case _ => false
  {
    hide ReplyOf;
    if k > 0 {
      TouchHasNonce(maxEntries, ops, k - 1, nonce);
    }
  }

  lemma StepOf(maxEntries: int, ops: seq<Op>, k: nat)
    requires k < |ops|
    ensures (After(maxEntries, ops, k + 1), ReplyOf(maxEntries, ops, k))
            == Step(maxEntries, After(maxEntries, ops, k), ops[k])
  {
  }

  lemma StepKeepsTracking(maxEntries: int, ops: seq<Op>, k: nat)
    requires k < |ops| && Tracks(maxEntries, ops, k, After(maxEntries, ops, k), ops[k].at)
    requires Tracks(maxEntries, ops, k, Pruned(After(maxEntries, ops, k), ops[k].at), ops[k].at)
    ensures Tracks(maxEntries, ops, k + 1, After(maxEntries, ops, k + 1), ops[k].at)
  {
    hide ReplyOf, After, Pruned;
    StepOf(maxEntries, ops, k);
    var m' := After(maxEntries, ops, k + 1);
    if ops[k].Answer? && ops[k].response.Echo? {
      TouchHasNonce(maxEntries, ops, k, ops[k].response.nonce);
    }
    forall n
      ensures if n in m' then Awaiting(maxEntries, ops, k + 1, n, m'[n].expiresAt) == Some(m'[n])
              else Awaiting(maxEntries, ops, k + 1, n, ops[k].at) == None
    {
      TouchHasNonce(maxEntries, ops, k, n);
    }
  }

  lemma {:induction false} TableTracksHistory(maxEntries: int, ops: seq<Op>, k: nat, now: real)
    requires ClockAdvances(ops) && k <= |ops| && (k > 0 ==> ops[k - 1].at <= now)
    ensures Tracks(maxEntries, ops, k, After(maxEntries, ops, k), now)
    decreases k
  {
    if k > 0 {
      var m, at := After(maxEntries, ops, k - 1), ops[k - 1].at;
      assert k > 1 ==> ops[k - 2].at <= at;
      TableTracksHistory(maxEntries, ops, k - 1, at);
      PruningKeepsTracking(maxEntries, ops, k - 1, m, at, at);
      StepKeepsTracking(maxEntries, ops, k - 1);
      PruningKeepsTracking(maxEntries, ops, k, After(maxEntries, ops, k), at, now);
    }
  }

  /** Main result: an answer is given its challenge exactly when the nonce it echoes was
      issued, has not been spent since, and has not expired. */
  lemma SpentIffAwaiting(maxEntries: int, ops: seq<Op>, k: nat)
    requires ClockAdvances(ops) && k < |ops| && ops[k].Answer? && ops[k].response.Echo?
    ensures ReplyOf(maxEntries, ops, k)
            == match Awaiting(maxEntries, ops, k, ops[k].response.nonce, ops[k].at)
               case Some(c) => Spent(c)
               case None => ChallengeInvalid
  {
    hide Awaiting;
    TableTracksHistory(maxEntries, ops, k, ops[k].at);
    PruningKeepsTracking(maxEntries, ops, k, After(maxEntries, ops, k), ops[k].at, ops[k].at);
  }

  /** The nonces issued in the first `k` steps that still await an answer at `now`. */
  ghost function AwaitingNonces(maxEntries: int, ops: seq<Op>, k: nat, now: real): set<string>
    requires k <= |ops|
  {
    set i: nat | i < k && ReplyOf(maxEntries, ops, i).Issued?
                 && Awaiting(maxEntries, ops, k, ReplyOf(maxEntries, ops, i).challenge.nonce, now).Some?
      :: ReplyOf(maxEntries, ops, i).challenge.nonce
  }

  /** A challenge is issued exactly when the SDK makes one and fewer than `maxEntries` await an answer. */
  lemma IssuedIffRoom(maxEntries: int, ops: seq<Op>, k: nat)
    requires ClockAdvances(ops) && k < |ops| && ops[k].Ask?
    ensures ReplyOf(maxEntries, ops, k)
            == if |AwaitingNonces(maxEntries, ops, k, ops[k].at)| >= maxEntries then TooManyOutstanding
               else match ops[k].made case Some(c) => Issued(c) case None => SdkRefused
  {
    hide After, ReplyOf;
    var m, now := After(maxEntries, ops, k), ops[k].at;
    StepOf(maxEntries, ops, k);
    TableTracksHistory(maxEntries, ops, k, now);
    PruningKeepsTracking(maxEntries, ops, k, m, now, now);
    var kept := Pruned(m, now);
    forall n
      ensures n in kept <==> n in AwaitingNonces(maxEntries, ops, k, now)
    {
      TouchHasNonce(maxEntries, ops, k, n);
      if n in kept {
        var j := LastTouch(maxEntries, ops, k, n).value;
        assert ReplyOf(maxEntries, ops, j).Issued? && ReplyOf(maxEntries, ops, j).challenge.nonce == n;
      }
    }
    assert kept.Keys == AwaitingNonces(maxEntries, ops, k, now);
    assert |kept| == |kept.Keys|;
  }

  /** The challenge spent at step `k` was issued at an earlier step and is unexpired. */
  lemma SpentWasIssued(maxEntries: int, ops: seq<Op>, k: nat) returns (j: nat)
    requires ClockAdvances(ops) && k < |ops| && ReplyOf(maxEntries, ops, k).Spent?
    ensures var c := ReplyOf(maxEntries, ops, k).challenge;
            && j < k && ReplyOf(maxEntries, ops, j) == Issued(c) && ops[k].at <= c.expiresAt
            && ops[k].Answer? && ops[k].response == Echo(c.nonce)
            && LastTouch(maxEntries, ops, k, c.nonce) == Some(j)
  {
    SpentIffAwaiting(maxEntries, ops, k);
    TouchHasNonce(maxEntries, ops, k, ops[k].response.nonce);
    j := LastTouch(maxEntries, ops, k, ops[k].response.nonce).value;
  }

  lemma {:induction false} LastTouchIsLast(maxEntries: int, ops: seq<Op>, i: nat, k: nat)
    requires i < k <= |ops| && ReplyOf(maxEntries, ops, i).Spent?
    ensures var t := LastTouch(maxEntries, ops, k, ReplyOf(maxEntries, ops, i).challenge.nonce);
            t.Some? && i <= t.value
    decreases k
  {
    hide ReplyOf;
    if i < k - 1 {
      LastTouchIsLast(maxEntries, ops, i, k - 1);
    }
  }

  /** Main result: two spent challenges come from two different issues, so every issue is
      answered at most once, however many answers name its nonce. */
  lemma EachIssueSpentOnce(maxEntries: int, ops: seq<Op>, i: nat, k: nat) returns (from: nat, from': nat)
    requires ClockAdvances(ops) && i < k < |ops|
    requires ReplyOf(maxEntries, ops, i).Spent? && ReplyOf(maxEntries, ops, k).Spent?
    ensures from < i && ReplyOf(maxEntries, ops, from) == Issued(ReplyOf(maxEntries, ops, i).challenge)
    ensures from' < k && ReplyOf(maxEntries, ops, from') == Issued(ReplyOf(maxEntries, ops, k).challenge)
    ensures from != from'
  {
    hide ReplyOf, LastTouch;
    from := SpentWasIssued(maxEntries, ops, i);
    from' := SpentWasIssued(maxEntries, ops, k);
    LastTouchIsLast(maxEntries, ops, i, k);
  }

  // ---- the challenge table ----

  class ChallengeTable {
    const maxEntries: int
    var outstanding: Outstanding

    constructor (maxEntries: int)
      ensures this.maxEntries == maxEntries && outstanding == map[]
    {
      this.maxEntries := maxEntries;
      outstanding := map[];
    }

    method Ask(made: Option<Challenge>, now: real) returns (reply: Reply)
      modifies this
      ensures (outstanding, reply) == Issue(maxEntries, old(outstanding), made, now)
    {
      Prune(now);
      if |outstanding| >= maxEntries {
        return TooManyOutstanding;
      }
      match made
      case None =>
        reply := SdkRefused;
      case Some(c) =>
        outstanding := outstanding[c.nonce := c];
        reply := Issued(c);
    }

    method Answer(r: Response, now: real) returns (reply: Reply)
      modifies this
      ensures (outstanding, reply) == Consume(old(outstanding), r, now)
    {
      match r
      case NoNonce =>
        reply := ResponseInvalid;
      case Echo(nonce) =>
        Prune(now);
        if nonce !in outstanding {
          return ChallengeInvalid;
        }
        reply := Spent(outstanding[nonce]);
        outstanding := outstanding - {nonce};
    }

    method Prune(now: real)
      modifies this
      ensures outstanding == Pruned(old(outstanding), now)
    {
      var expired := set n | n in outstanding && outstanding[n].expiresAt < now;
      while expired != {}
        invariant expired == set n | n in outstanding && outstanding[n].expiresAt < now
        invariant forall n :: n in outstanding ==> n in old(outstanding) && outstanding[n] == old(outstanding)[n]
        invariant forall n :: n in old(outstanding) && n !in outstanding ==> old(outstanding)[n].expiresAt < now
        decreases expired
      {
        var n :| n in expired;
        outstanding := outstanding - {n};
        expired := expired - {n};
      }
      assert forall n :: n in outstanding ==> n !in expired;
    }
  }
}
