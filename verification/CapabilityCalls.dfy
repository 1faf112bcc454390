/** The decision on a capability call (`verify_capability_tct` and
    `_enforce_revocation_freshness`, agents/base/aitp_server.py): the order of its refusals,
    and its proof-of-possession exchange (RFC-AITP-0005 section 10.5). Decoding and the
    SDK's verification are answers given with the call. */
module CapabilityCalls {
  import opened RevocationStates
  import opened PopChallenges
  import opened Wrappers
  import RevocationProtocols

  /** What the agent holds when a call comes in. */
  datatype Gate = Gate(denials: Denials, canVerify: bool, maxStaleness: int, failMode: string, aid: string)

  datatype Token = Missing | Undecodable | Claims(jti: string, iss: Option<string>)

  /** The `x-aitp-pop-response` header, decoded. */
  datatype Proof = Absent | Garbled | Carries(response: Response)

  datatype Verdict = Accepts | FaultsProof(code: string) | Rejects

  /** `made` is the challenge the SDK would make for the token; `verdict` what it would say
      of token and proof, its deny-list check aside. */
  datatype Call = Call(token: Token, proof: Proof, made: Option<Challenge>, verdict: Verdict, at: real)

  datatype Refusal =
    | MissingToken | MalformedToken | RevokedLocally | RevokedByIssuer | StaleView | IssuerMismatch
    | PopResponseInvalid | PopChallengeInvalid | PopFault(code: string) | TctRejected

  datatype Outcome =
    | Forbidden(why: Refusal)
    | Challenged(challenge: Challenge)
    | TooMany
    | Granted(spent: Challenge)

  datatype Server = Server(outstanding: Outstanding, degradedServes: nat)

  /** The checks made on unverified claims, before any challenge is touched. */
  function EarlyRefusal(g: Gate, c: Call): Option<Refusal> {
    match c.token
    case Missing => Some(MissingToken)
    case Undecodable => Some(MalformedToken)
    case Claims(jti, iss) =>
      if jti != "" && IsRevoked(g.denials, jti) then
        Some(if jti in g.denials.local then RevokedLocally else RevokedByIssuer)
      else if !FreshEnough(g.denials, g.canVerify, g.maxStaleness, g.failMode, c.at) then Some(StaleView)
      else if iss != Some(g.aid) then Some(IssuerMismatch)
      else None
  }

  predicate ServesDegraded(g: Gate, c: Call) {
    && c.token.Claims? && !(c.token.jti != "" && IsRevoked(g.denials, c.token.jti))
    && PostureOf(g.denials, g.canVerify, g.maxStaleness, c.at) == Degraded && g.failMode == "soft_fail"
  }

  /** What the challenge table is asked by this call. */
  function OpOf(g: Gate, c: Call): Op {
    if EarlyRefusal(g, c).Some? then Elsewhere(c.at)
    else match c.proof
      case Absent => Ask(c.made, c.at)
      case Garbled => Elsewhere(c.at)
      case Carries(response) => Answer(response, c.at)
  }

  /** The SDK checks the deny-set again, then whatever else it checks. */
  function Verified(g: Gate, jti: string, verdict: Verdict, spent: Challenge): Outcome {
    if jti in EffectiveJtis(g.denials) then Forbidden(TctRejected)
    else match verdict
      case Accepts => Granted(spent)
      case FaultsProof(code) => Forbidden(PopFault(code))
      case Rejects => Forbidden(TctRejected)
  }

  function OutcomeOf(g: Gate, c: Call, reply: Reply): Outcome {
    if EarlyRefusal(g, c).Some? then Forbidden(EarlyRefusal(g, c).value)
    else match reply
      case Issued(challenge) => Challenged(challenge)
      case TooManyOutstanding => TooMany
      case SdkRefused => Forbidden(TctRejected)
      case Spent(challenge) => Verified(g, c.token.jti, c.verdict, challenge)
      case ResponseInvalid => Forbidden(PopResponseInvalid)
      case ChallengeInvalid => Forbidden(PopChallengeInvalid)
      case Untouched => Forbidden(PopResponseInvalid)
  }

  /** A token that fails an early check neither takes nor spends a challenge; an answer
      burns the challenge it names, whether or not it then verifies. */
  function Decide(maxEntries: int, s: Server, g: Gate, c: Call): (r: (Server, Outcome))
    ensures EarlyRefusal(g, c).Some? ==>
              r.0.outstanding == s.outstanding && r.1 == Forbidden(EarlyRefusal(g, c).value)
    ensures EarlyRefusal(g, c).None? && c.proof.Carries? && c.proof.response.Echo? ==>
              c.proof.response.nonce !in r.0.outstanding
  {
    var (outstanding, reply) := Step(maxEntries, s.outstanding, OpOf(g, c));
    (Server(outstanding, s.degradedServes + if ServesDegraded(g, c) then 1 else 0), OutcomeOf(g, c, reply))
  }

  // ---- runs of calls; the gate may change in any way between two of them ----

  datatype Arrival = Arrival(gate: Gate, call: Call)

  function Ops(calls: seq<Arrival>): seq<Op> {
    seq(|calls|, i requires 0 <= i < |calls| => OpOf(calls[i].gate, calls[i].call))
  }

  function ServerAfter(maxEntries: int, calls: seq<Arrival>, k: nat): Server
    requires k <= |calls|
  {
    if k == 0 then Server(map[], 0)
    else Decide(maxEntries, ServerAfter(maxEntries, calls, k - 1), calls[k - 1].gate, calls[k - 1].call).0
  }

  function OutcomeAt(maxEntries: int, calls: seq<Arrival>, k: nat): Outcome
    requires k < |calls|
  {
    Decide(maxEntries, ServerAfter(maxEntries, calls, k), calls[k].gate, calls[k].call).1
  }

  ghost predicate CallsInOrder(calls: seq<Arrival>) {
    forall i, j :: 0 <= i <= j < |calls| ==> calls[i].call.at <= calls[j].call.at
  }

  lemma {:induction false} TableIsChallengeRun(maxEntries: int, calls: seq<Arrival>, k: nat)
    requires k <= |calls|
    ensures ServerAfter(maxEntries, calls, k).outstanding == After(maxEntries, Ops(calls), k)
  {
    hide Step;
    if k > 0 {
      TableIsChallengeRun(maxEntries, calls, k - 1);
    }
  }

  lemma OutcomeFromReply(maxEntries: int, calls: seq<Arrival>, k: nat)
    requires k < |calls|
    ensures OutcomeAt(maxEntries, calls, k)
            == OutcomeOf(calls[k].gate, calls[k].call, ReplyOf(maxEntries, Ops(calls), k))
  {
    hide Step, OutcomeOf, After;
    TableIsChallengeRun(maxEntries, calls, k);
  }

  // ---- the early checks, in plain terms ----

  /** The jti is denied: locally, or by the snapshot in force. */
  predicate IsNamed(d: Denials, jti: string) {
    jti in d.local || (d.snapshot.Some? && jti in d.snapshot.value.entries)
  }

  /** Nothing to verify with, or the explicit opt-in, or a snapshot neither expired nor stale. */
  predicate TrustsView(g: Gate, at: real) {
    || !g.canVerify || g.failMode == "soft_fail"
    || (g.denials.snapshot.Some?
        && at < g.denials.snapshot.value.expiresAt as real
        && at <= g.denials.snapshot.value.publishedAt as real + g.maxStaleness as real)
  }

  predicate IsDenied(g: Gate, c: Call) {
    c.token.Claims? && c.token.jti != "" && IsNamed(g.denials, c.token.jti)
  }

  /** The token decodes, is not denied, the view is trusted, and this agent is the issuer. */
  predicate Passes(g: Gate, c: Call) {
    c.token.Claims? && !IsDenied(g, c) && TrustsView(g, c.at) && c.token.iss == Some(g.aid)
  }

  lemma PassesIff(g: Gate, c: Call)
    ensures EarlyRefusal(g, c).None? <==> Passes(g, c)
    ensures EarlyRefusal(g, c) == Some(MissingToken) <==> c.token.Missing?
    ensures EarlyRefusal(g, c) == Some(MalformedToken) <==> c.token.Undecodable?
    ensures EarlyRefusal(g, c) == Some(RevokedLocally) <==> IsDenied(g, c) && c.token.jti in g.denials.local
    ensures EarlyRefusal(g, c) == Some(RevokedByIssuer) <==> IsDenied(g, c) && c.token.jti !in g.denials.local
    ensures EarlyRefusal(g, c) == Some(StaleView) <==> c.token.Claims? && !IsDenied(g, c) && !TrustsView(g, c.at)
    ensures EarlyRefusal(g, c) == Some(IssuerMismatch)
            <==> c.token.Claims? && !IsDenied(g, c) && TrustsView(g, c.at) && c.token.iss != Some(g.aid)
    ensures EarlyRefusal(g, c).Some? ==>
              EarlyRefusal(g, c).value in {MissingToken, MalformedToken, RevokedLocally, RevokedByIssuer, StaleView, IssuerMismatch}
  {
    CurrentIffInsideWindow(g.denials, g.maxStaleness, c.at);
  }

  lemma ChallengedIffIssued(maxEntries: int, m: Outstanding, g: Gate, c: Call, challenge: Challenge)
    ensures OutcomeOf(g, c, Step(maxEntries, m, OpOf(g, c)).1) == Challenged(challenge)
            <==> Step(maxEntries, m, OpOf(g, c)).1 == Issued(challenge)
  {
  }

  /** Fewer challenges than the limit await an answer when call k comes. */
  ghost predicate HasRoom(maxEntries: int, calls: seq<Arrival>, k: nat)
    requires k < |calls|
  {
    |AwaitingNonces(maxEntries, Ops(calls), k, calls[k].call.at)| < maxEntries
  }

  /** The challenge that call k answers: issued, unspent and unexpired. */
  ghost function Answered(maxEntries: int, calls: seq<Arrival>, k: nat): Option<Challenge>
    requires k < |calls|
  {
    var c := calls[k].call;
    if c.proof.Carries? && c.proof.response.Echo?
    then Awaiting(maxEntries, Ops(calls), k, c.proof.response.nonce, c.at)
    else None
  }

  /** What the challenge table replies, from the history. */
  lemma ReplyIs(maxEntries: int, calls: seq<Arrival>, k: nat)
    requires CallsInOrder(calls) && k < |calls| && EarlyRefusal(calls[k].gate, calls[k].call).None?
    ensures var c := calls[k].call;
            ReplyOf(maxEntries, Ops(calls), k)
            == match c.proof
               case Absent =>
                 (if !HasRoom(maxEntries, calls, k) then TooManyOutstanding
                  else if c.made.Some? then Issued(c.made.value) else SdkRefused)
               case Garbled => Untouched
               case Carries(response) =>
                 (if response.NoNonce? then ResponseInvalid
                  else if Answered(maxEntries, calls, k).Some? then Spent(Answered(maxEntries, calls, k).value)
                  else ChallengeInvalid)
  {
    hide ReplyOf, Awaiting, After, AwaitingNonces;
    OpsInOrder(calls);
    StepOf(maxEntries, Ops(calls), k);
    match calls[k].call.proof
    case Absent => IssuedIffRoom(maxEntries, Ops(calls), k);
    case Garbled =>
    case Carries(response) =>
      if response.Echo? {
        SpentIffAwaiting(maxEntries, Ops(calls), k);
      }
  }

  /** Main result: a call is granted exactly when its token decodes, is neither denied nor
      another issuer's, the agent's view of revocations is trusted, the answer names a
      challenge issued, unspent and unexpired, and the SDK accepts the two together. The
      SDK's second look at the deny-set can matter only for a token without a jti. */
  lemma GrantedIff(maxEntries: int, calls: seq<Arrival>, k: nat, challenge: Challenge)
    requires CallsInOrder(calls) && k < |calls|
    ensures var (g, c) := (calls[k].gate, calls[k].call);
            OutcomeAt(maxEntries, calls, k) == Granted(challenge)
            <==> && Passes(g, c) && c.verdict.Accepts? && (c.token.jti == "" ==> !IsNamed(g.denials, ""))
                 && Answered(maxEntries, calls, k) == Some(challenge)
  {
    hide ReplyOf, Awaiting, OutcomeAt, After, HasRoom;
    var g, c := calls[k].gate, calls[k].call;
    OutcomeFromReply(maxEntries, calls, k);
    PassesIff(g, c);
    if Passes(g, c) {
      ReplyIs(maxEntries, calls, k);
      RevokedIffInDenySet(g.denials, c.token.jti);
    }
  }

  /** Main result: when each early refusal is given, and that a call is otherwise challenged
      or refused for its proof, exactly as its history says. */
  lemma RefusedIff(maxEntries: int, calls: seq<Arrival>, k: nat)
    requires CallsInOrder(calls) && k < |calls|
    ensures var (g, c, outcome) := (calls[k].gate, calls[k].call, OutcomeAt(maxEntries, calls, k));
            && (outcome == Forbidden(MissingToken) <==> c.token.Missing?)
            && (outcome == Forbidden(MalformedToken) <==> c.token.Undecodable?)
            && (outcome == Forbidden(RevokedLocally) <==> IsDenied(g, c) && c.token.jti in g.denials.local)
            && (outcome == Forbidden(RevokedByIssuer) <==> IsDenied(g, c) && c.token.jti !in g.denials.local)
            && (outcome == Forbidden(StaleView) <==> c.token.Claims? && !IsDenied(g, c) && !TrustsView(g, c.at))
            && (outcome == Forbidden(IssuerMismatch)
                <==> c.token.Claims? && !IsDenied(g, c) && TrustsView(g, c.at) && c.token.iss != Some(g.aid))
  {
    hide ReplyOf, OutcomeAt, After, EarlyRefusal;
    OutcomeFromReply(maxEntries, calls, k);
    PassesIff(calls[k].gate, calls[k].call);
  }

  lemma ProofOutcomeIff(maxEntries: int, calls: seq<Arrival>, k: nat)
    requires CallsInOrder(calls) && k < |calls|
    ensures var (g, c, outcome) := (calls[k].gate, calls[k].call, OutcomeAt(maxEntries, calls, k));
            var answered := Answered(maxEntries, calls, k);
            var denied := c.token.Claims? && c.token.jti == "" && IsNamed(g.denials, "");
            && (outcome.TooMany? <==> Passes(g, c) && c.proof.Absent? && !HasRoom(maxEntries, calls, k))
            && (outcome.Challenged? <==> Passes(g, c) && c.proof.Absent? && HasRoom(maxEntries, calls, k) && c.made.Some?)
            && (outcome.Challenged? ==> c.made == Some(outcome.challenge))
            && (outcome == Forbidden(PopResponseInvalid)
                <==> Passes(g, c) && (c.proof.Garbled? || (c.proof.Carries? && c.proof.response.NoNonce?)))
            && (outcome == Forbidden(PopChallengeInvalid)
                <==> Passes(g, c) && c.proof.Carries? && c.proof.response.Echo? && answered.None?)
            && (forall code ::
                  (outcome == Forbidden(PopFault(code))
                   <==> Passes(g, c) && answered.Some? && !denied && c.verdict == FaultsProof(code)))
            && (outcome == Forbidden(TctRejected)
                <==> Passes(g, c)
                     && ((c.proof.Absent? && HasRoom(maxEntries, calls, k) && c.made.None?)
                         || (answered.Some? && (denied || c.verdict.Rejects?))))
  {
    hide ReplyOf, Awaiting, OutcomeAt, After, HasRoom, EarlyRefusal;
    var g, c := calls[k].gate, calls[k].call;
    OutcomeFromReply(maxEntries, calls, k);
    PassesIff(g, c);
    if Passes(g, c) {
      ReplyIs(maxEntries, calls, k);
      RevokedIffInDenySet(g.denials, c.token.jti);
    }
  }

  /** How many of the first k calls went on under `soft_fail` although nothing current was
      in force. */
  function ServedDegraded(calls: seq<Arrival>, k: nat): nat
    requires k <= |calls|
  {
    if k == 0 then 0
    else
      var (g, c) := (calls[k - 1].gate, calls[k - 1].call);
      ServedDegraded(calls, k - 1)
      + if c.token.Claims? && !IsDenied(g, c) && g.failMode == "soft_fail" && !TrustsView(g.(failMode := ""), c.at) then 1 else 0
  }

  lemma {:induction false} DegradedServesAreCounted(maxEntries: int, calls: seq<Arrival>, k: nat)
    requires k <= |calls|
    ensures ServerAfter(maxEntries, calls, k).degradedServes == ServedDegraded(calls, k)
  {
    hide Step, OutcomeOf;
    if k > 0 {
      DegradedServesAreCounted(maxEntries, calls, k - 1);
      CurrentIffInsideWindow(calls[k - 1].gate.denials, calls[k - 1].gate.maxStaleness, calls[k - 1].call.at);
    }
  }

  lemma OpsInOrder(calls: seq<Arrival>)
    requires CallsInOrder(calls)
    ensures ClockAdvances(Ops(calls))
  {
  }

  /** Main result: granted calls inject into earlier 401 challenges. Each spends the
      challenge of an earlier refusal, no two the same refusal's, whatever happened between. */
  lemma EachGrantHasItsOwnChallenge(maxEntries: int, calls: seq<Arrival>, i: nat, k: nat)
    returns (from: nat, from': nat)
    requires CallsInOrder(calls) && i < k < |calls|
    requires OutcomeAt(maxEntries, calls, i).Granted? && OutcomeAt(maxEntries, calls, k).Granted?
    ensures from < i && OutcomeAt(maxEntries, calls, from) == Challenged(OutcomeAt(maxEntries, calls, i).spent)
    ensures from' < k && OutcomeAt(maxEntries, calls, from') == Challenged(OutcomeAt(maxEntries, calls, k).spent)
    ensures from != from'
  {
    hide OutcomeAt, After;
    var ops := Ops(calls);
    OpsInOrder(calls);
    OutcomeFromReply(maxEntries, calls, i);
    OutcomeFromReply(maxEntries, calls, k);
    from, from' := EachIssueSpentOnce(maxEntries, ops, i, k);
    IssueIsChallenge(maxEntries, calls, from);
    IssueIsChallenge(maxEntries, calls, from');
  }

  lemma IssueIsChallenge(maxEntries: int, calls: seq<Arrival>, k: nat)
    requires k < |calls| && ReplyOf(maxEntries, Ops(calls), k).Issued?
    ensures OutcomeAt(maxEntries, calls, k) == Challenged(ReplyOf(maxEntries, Ops(calls), k).challenge)
  {
    TableIsChallengeRun(maxEntries, calls, k);
    ChallengedIffIssued(maxEntries, After(maxEntries, Ops(calls), k), calls[k].gate, calls[k].call,
                        ReplyOf(maxEntries, Ops(calls), k).challenge);
  }

  // ---- the revocation protocol, seen by a call ----

  function GateOf(w: RevocationProtocols.World, cfg: RevocationProtocols.Config): Gate {
    Gate(RevocationProtocols.DenialsOf(w), true, cfg.maxStaleness, cfg.failMode, w.aid)
  }

  lemma GrantedIsHonoured(maxEntries: int, s: Server, w: RevocationProtocols.World, cfg: RevocationProtocols.Config, c: Call)
    requires c.at == w.now && Decide(maxEntries, s, GateOf(w, cfg), c).1.Granted?
    ensures c.token.Claims? && c.token.iss == Some(w.aid) && RevocationProtocols.Honours(w, cfg, c.token.jti)
  {
    hide Step;
  }

  /** End to end: a token whose jti the control plane recorded for its issuer at step i is
      granted no capability call outside the latency bound, in any interleaving of the
      revocation protocol. */
  lemma GrantedWithinLatency(maxEntries: int, s: Server, run: RevocationProtocols.Run, i: nat, k: nat, c: Call)
    requires i < k <= |run.steps| && run.cfg.failMode != "soft_fail" && c.token.Claims? && c.token.iss.Some?
    requires run.steps[i] == RevocationProtocols.Record(c.token.iss.value, c.token.jti)
    requires RevocationProtocols.Enabled(RevocationProtocols.After(run, i), run.cfg, run.steps[i])
    requires var w := RevocationProtocols.After(run, k);
             c.at == w.now && Decide(maxEntries, s, GateOf(w, run.cfg), c).1.Granted?
    ensures RevocationProtocols.WithinBound(run.cfg, RevocationProtocols.After(run, i).now, c.at)
  {
    hide Decide, RevocationProtocols.After, RevocationProtocols.Enabled, RevocationProtocols.Honours;
    GrantedIsHonoured(maxEntries, s, RevocationProtocols.After(run, k), run.cfg, c);
    RevocationProtocols.LatencyBound(run, i, k, c.token.jti);
  }

  // ---- redemptions ----

  /** A redemption as far as its decision goes: the request's form, the features it needs,
      the jtis the SDK checks against the deny-set, and its verdict apart from that. */
  datatype Redemption = Redemption(wellFormed: bool, multihop: bool, multihopBuilt: bool, sources: set<string>,
                                   accepted: bool, at: real)

  datatype RedeemOutcome = BadRequest | FeatureUnavailable | RefusedStale | Rejected | Minted

  function Redeem(g: Gate, r: Redemption): RedeemOutcome {
    if !r.wellFormed then BadRequest
    else if r.multihop && !r.multihopBuilt then FeatureUnavailable
    else if !FreshEnough(g.denials, g.canVerify, g.maxStaleness, g.failMode, r.at) then RefusedStale
    else if !r.accepted || r.sources * EffectiveJtis(g.denials) != {} then Rejected
    else Minted
  }

  /** A redemption mints exactly when the request is in form, its features are built, the
      view is trusted, none of its sources is denied, and the SDK accepts the rest; and each
      refusal has its place in that order. */
  lemma MintedIff(g: Gate, r: Redemption)
    ensures var usable := r.wellFormed && (r.multihop ==> r.multihopBuilt);
            var clean := r.accepted && forall jti :: jti in r.sources ==> !IsNamed(g.denials, jti);
            && (Redeem(g, r).BadRequest? <==> !r.wellFormed)
            && (Redeem(g, r).FeatureUnavailable? <==> r.wellFormed && r.multihop && !r.multihopBuilt)
            && (Redeem(g, r).RefusedStale? <==> usable && !TrustsView(g, r.at))
            && (Redeem(g, r).Rejected? <==> usable && TrustsView(g, r.at) && !clean)
            && (Redeem(g, r).Minted? <==> usable && TrustsView(g, r.at) && clean)
  {
    CurrentIffInsideWindow(g.denials, g.maxStaleness, r.at);
    assert r.sources * EffectiveJtis(g.denials) == {} <==> forall jti :: jti in r.sources ==> !IsNamed(g.denials, jti) by {
      forall jti ensures IsNamed(g.denials, jti) <==> jti in EffectiveJtis(g.denials) {
      }
      if exists jti :: jti in r.sources && IsNamed(g.denials, jti) {
        var jti :| jti in r.sources && IsNamed(g.denials, jti);
        assert jti in r.sources * EffectiveJtis(g.denials);
      }
    }
  }

  /** The same bound for redemptions: no fresh token is minted from a source this agent
      issued outside the latency bound after its revocation. */
  lemma MintedWithinLatency(run: RevocationProtocols.Run, i: nat, k: nat, r: Redemption, jti: string)
    requires i < k <= |run.steps| && run.cfg.failMode != "soft_fail" && jti in r.sources
    requires run.steps[i] == RevocationProtocols.Record(RevocationProtocols.After(run, k).aid, jti)
    requires RevocationProtocols.Enabled(RevocationProtocols.After(run, i), run.cfg, run.steps[i])
    requires var w := RevocationProtocols.After(run, k);
             r.at == w.now && Redeem(GateOf(w, run.cfg), r).Minted?
    ensures RevocationProtocols.WithinBound(run.cfg, RevocationProtocols.After(run, i).now, r.at)
  {
    hide RevocationProtocols.After, RevocationProtocols.Enabled;
    var g := GateOf(RevocationProtocols.After(run, k), run.cfg);
    assert jti in EffectiveJtis(g.denials) ==> jti in r.sources * EffectiveJtis(g.denials);
    RevocationProtocols.LatencyBound(run, i, k, jti);
  }

  /** With no list to serve and no rotation since the last one, any fail mode but
      `soft_fail` refuses every capability call and every redemption: what peers cannot
      check, the agent does not honour either. */
  lemma UnavailableRefusesAll(maxEntries: int, s: Server, run: RevocationProtocols.Run, k: nat, c: Call, r: Redemption)
    requires k <= |run.steps| && run.cfg.failMode != "soft_fail"
    requires var w := RevocationProtocols.After(run, k);
             && c.at == w.now && r.at == w.now && RevocationProtocols.Served(w, run.cfg).None?
             && (w.held.Some? ==> w.held.value.list.signer == w.aid)
    ensures var g := GateOf(RevocationProtocols.After(run, k), run.cfg);
            && Decide(maxEntries, s, g, c).1.Forbidden? && !Redeem(g, r).Minted?
            && (r.wellFormed && (r.multihop ==> r.multihopBuilt) ==> Redeem(g, r).RefusedStale?)
  {
    hide RevocationProtocols.After, RevocationProtocols.Served, Step;
    RevocationProtocols.UnavailableMeansDegraded(run, k);
  }

  // ---- the server object ----

  class CapabilityGate {
    const table: ChallengeTable
    var degradedServes: nat

    constructor (maxEntries: int)
      ensures fresh(table) && State() == Server(map[], 0) && table.maxEntries == maxEntries
    {
      table := new ChallengeTable(maxEntries);
      degradedServes := 0;
    }

    ghost function State(): Server
      reads this, table
    {
      Server(table.outstanding, degradedServes)
    }

    method EnforceFreshness(g: Gate, at: real) returns (refused: bool)
      modifies this
      ensures refused <==> !FreshEnough(g.denials, g.canVerify, g.maxStaleness, g.failMode, at)
      ensures degradedServes == old(degradedServes)
              + if PostureOf(g.denials, g.canVerify, g.maxStaleness, at) == Degraded && !refused then 1 else 0
    {
      var posture := PostureOf(g.denials, g.canVerify, g.maxStaleness, at);
      if posture != Degraded {
        return false;
      }
      if g.failMode != "soft_fail" {
        return true;
      }
      degradedServes := degradedServes + 1;
      refused := false;
    }

    method Verify(g: Gate, c: Call) returns (outcome: Outcome)
      modifies this, table
      ensures (State(), outcome) == Decide(table.maxEntries, old(State()), g, c)
    {
      if c.token.Missing? {
        return Forbidden(MissingToken);
      }
      if c.token.Undecodable? {
        return Forbidden(MalformedToken);
      }
      var jti := c.token.jti;
      if jti != "" && IsRevoked(g.denials, jti) {
        return Forbidden(if jti in g.denials.local then RevokedLocally else RevokedByIssuer);
      }
      var refused := EnforceFreshness(g, c.at);
      if refused {
        return Forbidden(StaleView);
      }
      if c.token.iss != Some(g.aid) {
        return Forbidden(IssuerMismatch);
      }
      if c.proof.Absent? {
        var reply := table.Ask(c.made, c.at);
        return match reply
          case Issued(challenge) => Challenged(challenge)
          case TooManyOutstanding => TooMany
          case _ => Forbidden(TctRejected);
      }
      if c.proof.Garbled? {
        return Forbidden(PopResponseInvalid);
      }
      var reply := table.Answer(c.proof.response, c.at);
      outcome := match reply
        case Spent(challenge) => Verified(g, jti, c.verdict, challenge)
        case ResponseInvalid => Forbidden(PopResponseInvalid)
        case _ => Forbidden(PopChallengeInvalid);
    }
  }
}
