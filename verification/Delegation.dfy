/** Delegation chains in a workflow (`_held_delegation_chain` and the `delegate` and
    `redeem_delegation` steps, src/aitp_playground/runner/engine.py). The agents' answers
    come with the step; a step that raises ends the workflow. */
module Delegations {
  import opened Wrappers

  datatype Chain = Chain(holder: string, issuer: string, manifestUrls: seq<string>)

  /** What a step leaves behind, as far as delegation reads it. */
  datatype Output = Token(issuerUrls: seq<string>) | Redeemed(chain: Chain) | Unrelated

  /** `step_outputs`: a dictionary in insertion order. */
  type Outputs = seq<(string, Output)>

  datatype Step =
    | Delegate(id: string, delegator: string, delegatee: string, viaPeer: string, scoped: bool, answered: bool)
    | Redeem(id: string, delegatee: string, target: string, viaDelegation: string, answered: bool)
    | Probe(id: string, delegatee: string, target: string, viaDelegation: string, granted: bool)
    | Handshake(id: string, initiator: string, responder: string, answered: bool)
    | Another(id: string)

  function Find(outputs: Outputs, id: string): Option<Output> {
    if outputs == [] then None
    else if outputs[|outputs| - 1].0 == id then Some(outputs[|outputs| - 1].1)
    else Find(outputs[..|outputs| - 1], id)
  }

  /** Assignment to a key: in place if it is there, else at the end. */
  function Put(outputs: Outputs, id: string, out: Output): Outputs {
    if outputs == [] then [(id, out)]
    else if outputs[|outputs| - 1].0 == id then outputs[..|outputs| - 1] + [(id, out)]
    else if Find(outputs, id).Some? then Put(outputs[..|outputs| - 1], id, out) + [outputs[|outputs| - 1]]
    else outputs + [(id, out)]
  }

  predicate Holds(out: Output, holder: string, issuer: string) {
    out.Redeemed? && out.chain.holder == holder && out.chain.issuer == issuer
  }

  function HeldChain(outputs: Outputs, holder: string, issuer: string): seq<string> {
    if outputs == [] then []
    else if Holds(outputs[|outputs| - 1].1, holder, issuer) then outputs[|outputs| - 1].1.chain.manifestUrls
    else HeldChain(outputs[..|outputs| - 1], holder, issuer)
  }

  /** The output of one step, or None when it raises. `running` gives each agent's manifest URL. */
  function OutputOf(running: map<string, string>, outputs: Outputs, step: Step): Option<Output> {
    match step
    case Delegate(_, delegator, delegatee, viaPeer, scoped, answered) =>
      if delegator in running && delegatee in running && viaPeer in running && scoped && answered
      then Some(Token(HeldChain(outputs, delegator, viaPeer) + [running[delegator]]))
      else None
    case Redeem(_, delegatee, target, viaDelegation, answered) =>
      var prior := Find(outputs, viaDelegation);
      if prior.Some? && prior.value.Token? && delegatee in running && target in running && answered
      then Some(Redeemed(Chain(delegatee, target, prior.value.issuerUrls)))
      else None
    case Probe(_, delegatee, target, viaDelegation, _) =>
      var prior := Find(outputs, viaDelegation);
      if prior.Some? && prior.value.Token? && delegatee in running && target in running then Some(Unrelated) else None
    case Handshake(_, initiator, responder, answered) =>
      if initiator in running && responder in running && answered then Some(Unrelated) else None
    case Another(_) => Some(Unrelated)
  }

  /** The outputs after k steps, or None when one of them raised. */
  function After(running: map<string, string>, steps: seq<Step>, k: nat): Option<Outputs>
    requires k <= |steps|
  {
    if k == 0 then Some([])
    else match After(running, steps, k - 1)
      case None => None
      case Some(outputs) =>
        match OutputOf(running, outputs, steps[k - 1])
        case None => None
        case Some(out) => Some(Put(outputs, steps[k - 1].id, out))
  }

  // ---- the hops of a token, from the history of steps ----

  ghost predicate DistinctIds(steps: seq<Step>) {
    forall i, j :: 0 <= i < j < |steps| ==> steps[i].id != steps[j].id
  }

  /** The last of the first k steps that is the step with this id. */
  function StepWithId(steps: seq<Step>, k: nat, id: string): (j: Option<nat>)
    requires k <= |steps|
    ensures j.Some? ==> j.value < k && steps[j.value].id == id
  {
    if k == 0 then None else if steps[k - 1].id == id then Some(k - 1) else StepWithId(steps, k - 1, id)
  }

  /** The last of the first k steps that redeemed a delegation for `holder` at `issuer`. */
  function LatestRedemption(steps: seq<Step>, k: nat, holder: string, issuer: string): (j: Option<nat>)
    requires k <= |steps|
    ensures j.Some? ==> j.value < k && steps[j.value].Redeem?
  {
    if k == 0 then None
    else if steps[k - 1].Redeem? && steps[k - 1].delegatee == holder && steps[k - 1].target == issuer then Some(k - 1)
    else LatestRedemption(steps, k - 1, holder, issuer)
  }

  /** The delegate steps behind the grant that `holder` has from `issuer` after k steps. */
  function HopsHeld(steps: seq<Step>, k: nat, holder: string, issuer: string): seq<nat>
    requires k <= |steps|
    decreases k, 0
  {
    match LatestRedemption(steps, k, holder, issuer)
    case None => []
    case Some(j) =>
      match StepWithId(steps, j, steps[j].viaDelegation)
      case None => []
      case Some(d) => Hops(steps, d)
  }

  /** The hops of the token issued at step i: those behind the delegator's own grant, then i. */
  function Hops(steps: seq<Step>, i: nat): seq<nat>
    requires i < |steps|
    decreases i, 1
  {
    if steps[i].Delegate? then HopsHeld(steps, i, steps[i].delegator, steps[i].viaPeer) + [i] else []
  }

  /** The manifest URLs of the delegators of these hops, in order. */
  function DelegatorUrls(running: map<string, string>, steps: seq<Step>, hops: seq<nat>): seq<string> {
    if hops == [] then []
    else
      var i := hops[|hops| - 1];
      DelegatorUrls(running, steps, hops[..|hops| - 1])
      + if i < |steps| && steps[i].Delegate? && steps[i].delegator in running then [running[steps[i].delegator]] else []
  }

  /** Assigning to a key changes what that key finds and no other; a key that was there keeps
      its place, and a new one goes last. */
  lemma {:induction false} PutAssigns(outputs: Outputs, id: string, out: Output, other: string)
    ensures Find(Put(outputs, id, out), other) == if other == id then Some(out) else Find(outputs, other)
    ensures Find(outputs, id).None? ==> Put(outputs, id, out) == outputs + [(id, out)]
    ensures Find(outputs, id).Some? ==> |Put(outputs, id, out)| == |outputs|
    ensures forall i :: 0 <= i < |outputs| ==> i < |Put(outputs, id, out)| && Put(outputs, id, out)[i].0 == outputs[i].0
  {
    if outputs != [] {
      var init, last := outputs[..|outputs| - 1], outputs[|outputs| - 1];
      var after := Put(outputs, id, out);
      PutAssigns(init, id, out, other);
      if last.0 == id {
        assert after[..|after| - 1] == init;
      } else if Find(outputs, id).Some? {
        assert after[..|after| - 1] == Put(init, id, out);
      } else {
        assert after[..|after| - 1] == outputs;
      }
    }
  }

  // ---- the dictionary with distinct ids is the history ----

  lemma {:induction false} FindAfter(running: map<string, string>, steps: seq<Step>, k: nat, id: string)
    requires k <= |steps| && DistinctIds(steps) && After(running, steps, k).Some?
    ensures var outputs := After(running, steps, k).value;
            match StepWithId(steps, k, id)
            case None => Find(outputs, id) == None
            case Some(j) => After(running, steps, j).Some?
                            && Find(outputs, id) == OutputOf(running, After(running, steps, j).value, steps[j])
  {
    hide OutputOf;
    if k > 0 {
      var before := After(running, steps, k - 1).value;
      var mine := steps[k - 1].id;
      FindAfter(running, steps, k - 1, id);
      FindAfter(running, steps, k - 1, mine);
      assert StepWithId(steps, k - 1, mine) == None;
      var out := OutputOf(running, before, steps[k - 1]).value;
      PutNew(before, mine, out);
      FindAppended(before, mine, out, id);
    }
  }

  lemma PutNew(outputs: Outputs, id: string, out: Output)
    requires Find(outputs, id).None?
    ensures Put(outputs, id, out) == outputs + [(id, out)]
  {
  }

  lemma FindAppended(outputs: Outputs, id: string, out: Output, other: string)
    ensures Find(outputs + [(id, out)], other) == if id == other then Some(out) else Find(outputs, other)
    ensures (outputs + [(id, out)])[..|outputs|] == outputs
  {
  }

  /** With distinct ids every step appends its output. */
  lemma AfterAppends(running: map<string, string>, steps: seq<Step>, k: nat)
    requires 0 < k <= |steps| && DistinctIds(steps) && After(running, steps, k).Some?
    ensures After(running, steps, k - 1).Some?
    ensures OutputOf(running, After(running, steps, k - 1).value, steps[k - 1]).Some?
    ensures var before := After(running, steps, k - 1).value;
            After(running, steps, k).value
            == before + [(steps[k - 1].id, OutputOf(running, before, steps[k - 1]).value)]
  {
    hide OutputOf;
    FindAfter(running, steps, k - 1, steps[k - 1].id);
    assert StepWithId(steps, k - 1, steps[k - 1].id) == None;
    PutNew(After(running, steps, k - 1).value, steps[k - 1].id,
           OutputOf(running, After(running, steps, k - 1).value, steps[k - 1]).value);
  }

  lemma {:induction false} EarlierSteps(running: map<string, string>, steps: seq<Step>, j: nat, k: nat)
    requires j <= k <= |steps| && After(running, steps, k).Some?
    ensures After(running, steps, j).Some?
  {
    if j < k {
      EarlierSteps(running, steps, j, k - 1);
    }
  }

  /** Main result, for grants: the chain the scan finds is that of the latest redemption,
      hop by hop in order; empty when there was none. */
  lemma {:induction false} HeldChainIsHops(running: map<string, string>, steps: seq<Step>, k: nat, holder: string, issuer: string)
    requires k <= |steps| && DistinctIds(steps) && After(running, steps, k).Some?
    ensures HeldChain(After(running, steps, k).value, holder, issuer)
            == DelegatorUrls(running, steps, HopsHeld(steps, k, holder, issuer))
    decreases k, 0
  {
    hide DelegatorUrls, Hops;
    if k > 0 {
      var m := k - 1;
      AfterAppends(running, steps, k);
      var before := After(running, steps, m).value;
      var out := OutputOf(running, before, steps[m]).value;
      HeldAppended(before, steps[m].id, out, holder, issuer);
      HeldChainIsHops(running, steps, m, holder, issuer);
      if Holds(out, holder, issuer) {
        RedemptionCarriesHops(running, steps, m);
      }
    } else {
      NoHops(running, steps);
    }
  }

  lemma NoHops(running: map<string, string>, steps: seq<Step>)
    ensures DelegatorUrls(running, steps, []) == []
  {
  }

  lemma HeldAppended(outputs: Outputs, id: string, out: Output, holder: string, issuer: string)
    ensures HeldChain(outputs + [(id, out)], holder, issuer)
            == if Holds(out, holder, issuer) then out.chain.manifestUrls else HeldChain(outputs, holder, issuer)
  {
    assert (outputs + [(id, out)])[..|outputs|] == outputs;
  }

  /** A redemption carries the hops of the token it redeemed. */
  lemma RedemptionCarriesHops(running: map<string, string>, steps: seq<Step>, j: nat)
    requires j < |steps| && steps[j].Redeem? && DistinctIds(steps) && After(running, steps, j).Some?
    requires OutputOf(running, After(running, steps, j).value, steps[j]).Some?
    ensures var d := StepWithId(steps, j, steps[j].viaDelegation);
            d.Some? && OutputOf(running, After(running, steps, j).value, steps[j]).value.chain.manifestUrls
                       == DelegatorUrls(running, steps, Hops(steps, d.value))
    decreases j, 0
  {
    hide DelegatorUrls, Hops;
    FindAfter(running, steps, j, steps[j].viaDelegation);
    var d := StepWithId(steps, j, steps[j].viaDelegation).value;
    EarlierSteps(running, steps, d, j);
    TokenCarriesHops(running, steps, d);
  }

  /** Main result, for tokens: the issuer manifest list attached to the token of step i is
      the delegators' manifest URLs of its hops, first to last. */
  lemma {:induction false} TokenCarriesHops(running: map<string, string>, steps: seq<Step>, i: nat)
    requires i < |steps| && DistinctIds(steps) && After(running, steps, i).Some?
    requires var out := OutputOf(running, After(running, steps, i).value, steps[i]); out.Some? && out.value.Token?
    ensures OutputOf(running, After(running, steps, i).value, steps[i]).value.issuerUrls
            == DelegatorUrls(running, steps, Hops(steps, i))
    decreases i, 1
  {
    hide HopsHeld;
    var held := HopsHeld(steps, i, steps[i].delegator, steps[i].viaPeer);
    HeldChainIsHops(running, steps, i, steps[i].delegator, steps[i].viaPeer);
    assert (held + [i])[..|held|] == held;
  }

  /** A chain of k hops carries k URLs: none is lost or repeated on the way. */
  lemma {:induction false} AllHopsHaveUrls(running: map<string, string>, steps: seq<Step>, i: nat)
    requires i < |steps| && DistinctIds(steps) && After(running, steps, i + 1).Some?
    requires steps[i].Delegate?
    ensures |DelegatorUrls(running, steps, Hops(steps, i))| == |Hops(steps, i)| > 0
    decreases i
  {
    var holder, issuer := steps[i].delegator, steps[i].viaPeer;
    var held := HopsHeld(steps, i, holder, issuer);
    EarlierSteps(running, steps, i, i + 1);
    assert (held + [i])[..|held|] == held;
    match LatestRedemption(steps, i, holder, issuer)
    case None =>
    case Some(j) =>
      EarlierSteps(running, steps, j + 1, i);
      EarlierSteps(running, steps, j, j + 1);
      FindAfter(running, steps, j, steps[j].viaDelegation);
      var d := StepWithId(steps, j, steps[j].viaDelegation).value;
      EarlierSteps(running, steps, d + 1, j);
      assert steps[d].Delegate?;
      AllHopsHaveUrls(running, steps, d);
  }

  // ---- when the workflow goes on ----

  /** Step k names running agents, its peer answered, and the delegation it redeems, if any,
      is the token of an earlier delegate step. */
  predicate Completes(running: map<string, string>, steps: seq<Step>, k: nat)
    requires k < |steps|
  {
    match steps[k]
    case Delegate(_, delegator, delegatee, viaPeer, scoped, answered) =>
      delegator in running && delegatee in running && viaPeer in running && scoped && answered
    case Redeem(_, delegatee, target, viaDelegation, answered) =>
      delegatee in running && target in running && answered && IssuesToken(steps, k, viaDelegation)
    case Probe(_, delegatee, target, viaDelegation, _) =>
      delegatee in running && target in running && IssuesToken(steps, k, viaDelegation)
    case Handshake(_, initiator, responder, answered) => initiator in running && responder in running && answered
    case Another(_) => true
  }

  predicate IssuesToken(steps: seq<Step>, k: nat, id: string)
    requires k <= |steps|
  {
    exists j :: 0 <= j < k && steps[j].Delegate? && steps[j].id == id
  }

  lemma {:induction false} StepWithIdIs(steps: seq<Step>, k: nat, id: string, j: nat)
    requires k <= |steps| && DistinctIds(steps) && j < k && steps[j].id == id
    ensures StepWithId(steps, k, id) == Some(j)
  {
    if j < k - 1 {
      StepWithIdIs(steps, k - 1, id, j);
    }
  }

  lemma TokenIffDelegate(running: map<string, string>, outputs: Outputs, step: Step)
    requires OutputOf(running, outputs, step).Some?
    ensures OutputOf(running, outputs, step).value.Token? <==> step.Delegate?
  {
    hide HeldChain, Find;
  }

  /** A delegation is found exactly when an earlier delegate step has that id. */
  lemma FoundIffIssued(running: map<string, string>, steps: seq<Step>, k: nat, via: string)
    requires k <= |steps| && DistinctIds(steps) && After(running, steps, k).Some?
    ensures var prior := Find(After(running, steps, k).value, via);
            prior.Some? && prior.value.Token? <==> IssuesToken(steps, k, via)
  {
    hide OutputOf, Find, After;
    FindAfter(running, steps, k, via);
    var j := StepWithId(steps, k, via);
    if j.Some? {
      CompletedOutput(running, steps, j.value, k);
      TokenIffDelegate(running, After(running, steps, j.value).value, steps[j.value]);
    }
    if IssuesToken(steps, k, via) {
      var i :| 0 <= i < k && steps[i].Delegate? && steps[i].id == via;
      StepWithIdIs(steps, k, via, i);
    }
  }

  lemma CompletedOutput(running: map<string, string>, steps: seq<Step>, j: nat, k: nat)
    requires j < k <= |steps| && After(running, steps, k).Some?
    ensures After(running, steps, j).Some? && OutputOf(running, After(running, steps, j).value, steps[j]).Some?
  {
    hide OutputOf;
    EarlierSteps(running, steps, j + 1, k);
  }

  lemma StepCompletesIff(running: map<string, string>, steps: seq<Step>, k: nat)
    requires k < |steps| && DistinctIds(steps) && After(running, steps, k).Some?
    ensures OutputOf(running, After(running, steps, k).value, steps[k]).Some? <==> Completes(running, steps, k)
  {
    hide IssuesToken, Find, HeldChain, After;
    match steps[k]
    case Redeem(_, _, _, via, _) => FoundIffIssued(running, steps, k, via);
    case Probe(_, _, _, via, _) => FoundIffIssued(running, steps, k, via);
    case _ =>
  }

  /** Main result: a workflow is under way after k steps exactly when each of them completes:
      an unanswered request, an agent that is not running, or a delegation nobody issued
      ends it, and nothing after that is recorded. */
  lemma {:induction false} GoesOnIff(running: map<string, string>, steps: seq<Step>, k: nat)
    requires k <= |steps| && DistinctIds(steps)
    ensures After(running, steps, k).Some? <==> forall i :: 0 <= i < k ==> Completes(running, steps, i)
  {
    hide OutputOf, Completes;
    if k > 0 {
      GoesOnIff(running, steps, k - 1);
      if After(running, steps, k - 1).Some? {
        StepCompletesIff(running, steps, k - 1);
      }
    }
  }

  // ---- the grant a pair really holds ----

  /** The step gives `holder` a new grant from `issuer`: a handshake it initiates, a
      redemption, or a probed redemption the issuer granted. */
  predicate Grants(step: Step, holder: string, issuer: string) {
    match step
    case Handshake(_, initiator, responder, _) => initiator == holder && responder == issuer
    case Redeem(_, delegatee, target, _, _) => delegatee == holder && target == issuer
    case Probe(_, delegatee, target, _, granted) => delegatee == holder && target == issuer && granted
    case _ => false
  }

  function LatestGrant(steps: seq<Step>, k: nat, holder: string, issuer: string): (j: Option<nat>)
    requires k <= |steps|
    ensures j.Some? ==> j.value < k && Grants(steps[j.value], holder, issuer)
  {
    if k == 0 then None else if Grants(steps[k - 1], holder, issuer) then Some(k - 1) else LatestGrant(steps, k - 1, holder, issuer)
  }

  /** The delegate step whose token step j redeemed. */
  function TokenOf(steps: seq<Step>, j: nat): (d: Option<nat>)
    requires j < |steps|
    ensures d.Some? ==> d.value < j
  {
    match steps[j]
    case Redeem(_, _, _, viaDelegation, _) => StepWithId(steps, j, viaDelegation)
    case Probe(_, _, _, viaDelegation, _) => StepWithId(steps, j, viaDelegation)
    case _ => None
  }

  /** The token behind the grant the scan takes the pair to hold. */
  function TokenAssumed(steps: seq<Step>, k: nat, holder: string, issuer: string): (d: Option<nat>)
    requires k <= |steps|
    ensures d.Some? ==> d.value < k
  {
    match LatestRedemption(steps, k, holder, issuer)
    case None => None
    case Some(j) => TokenOf(steps, j)
  }

  /** The token behind the grant the pair holds; none when that came from a handshake. */
  function TokenHeld(steps: seq<Step>, k: nat, holder: string, issuer: string): (d: Option<nat>)
    requires k <= |steps|
    ensures d.Some? ==> d.value < k
  {
    match LatestGrant(steps, k, holder, issuer)
    case None => None
    case Some(j) => TokenOf(steps, j)
  }

  /** The delegate steps really behind the grant, and behind the token of step i. */
  function TrueHopsHeld(steps: seq<Step>, k: nat, holder: string, issuer: string): seq<nat>
    requires k <= |steps|
    decreases k, 0
  {
    match TokenHeld(steps, k, holder, issuer)
    case None => []
    case Some(d) => TrueHops(steps, d)
  }

  function TrueHops(steps: seq<Step>, i: nat): seq<nat>
    requires i < |steps|
    decreases i, 1
  {
    if steps[i].Delegate? then TrueHopsHeld(steps, i, steps[i].delegator, steps[i].viaPeer) + [i] else []
  }

  /** At the pair and at every hop behind it, the token assumed is the token held. */
  predicate Unbroken(steps: seq<Step>, k: nat, holder: string, issuer: string)
    requires k <= |steps|
    decreases k
  {
    var d := TokenHeld(steps, k, holder, issuer);
    && TokenAssumed(steps, k, holder, issuer) == d
    && (d.Some? && steps[d.value].Delegate? ==> Unbroken(steps, d.value, steps[d.value].delegator, steps[d.value].viaPeer))
  }

  /** What a completed redemption redeemed, probed or not, is the token of a delegate step. */
  lemma RedeemedTokens(running: map<string, string>, steps: seq<Step>, j: nat)
    requires j < |steps| && DistinctIds(steps) && After(running, steps, j + 1).Some?
    requires steps[j].Redeem? || steps[j].Probe?
    ensures TokenOf(steps, j).Some? && steps[TokenOf(steps, j).value].Delegate?
  {
    EarlierSteps(running, steps, j, j + 1);
    FindAfter(running, steps, j, steps[j].viaDelegation);
  }

  lemma {:induction false} LatestRedemptionIsLatest(steps: seq<Step>, k: nat, holder: string, issuer: string)
    requires k <= |steps|
    ensures var g, j := LatestGrant(steps, k, holder, issuer), LatestRedemption(steps, k, holder, issuer);
            (j.Some? ==> g.Some? && j.value <= g.value) && (g.Some? && steps[g.value].Redeem? ==> j == g)
  {
    if k > 0 {
      LatestRedemptionIsLatest(steps, k - 1, holder, issuer);
    }
  }

  /** When the scan takes the pair to hold what it holds: the latest grant is a redemption
      that was not probed; or there was no redemption, and the latest grant, if any, is a
      handshake; or it is a granted probe of the very token redeemed last. */
  lemma AssumedIsHeldIff(running: map<string, string>, steps: seq<Step>, k: nat, holder: string, issuer: string)
    requires k <= |steps| && DistinctIds(steps) && After(running, steps, k).Some?
    ensures var g, j := LatestGrant(steps, k, holder, issuer), LatestRedemption(steps, k, holder, issuer);
            TokenAssumed(steps, k, holder, issuer) == TokenHeld(steps, k, holder, issuer)
            <==> || (g.Some? && steps[g.value].Redeem?)
                 || ((g.None? || steps[g.value].Handshake?) && j.None?)
                 || (g.Some? && steps[g.value].Probe? && j.Some? && TokenOf(steps, j.value) == TokenOf(steps, g.value))
  {
    LatestRedemptionIsLatest(steps, k, holder, issuer);
    var g, j := LatestGrant(steps, k, holder, issuer), LatestRedemption(steps, k, holder, issuer);
    if j.Some? {
      EarlierSteps(running, steps, j.value + 1, k);
      RedeemedTokens(running, steps, j.value);
    }
    if g.Some? && !steps[g.value].Handshake? {
      EarlierSteps(running, steps, g.value + 1, k);
      RedeemedTokens(running, steps, g.value);
    }
  }

  lemma HopsEndInToken(steps: seq<Step>, i: nat)
    requires i < |steps| && steps[i].Delegate?
    ensures var held, really := HopsHeld(steps, i, steps[i].delegator, steps[i].viaPeer),
                                TrueHopsHeld(steps, i, steps[i].delegator, steps[i].viaPeer);
            Hops(steps, i) == held + [i] && TrueHops(steps, i) == really + [i]
  {
  }

  lemma SnocInjective<T>(a: seq<T>, x: T, b: seq<T>, y: T)
    ensures a + [x] == b + [y] <==> a == b && x == y
  {
    if a + [x] == b + [y] {
      assert a == (a + [x])[..|a + [x]| - 1];
      assert b == (b + [y])[..|b + [y]| - 1];
      assert x == (a + [x])[|a + [x]| - 1];
      assert y == (b + [y])[|b + [y]| - 1];
    }
  }

  lemma AssumedTokenMakesHops(running: map<string, string>, steps: seq<Step>, k: nat, holder: string, issuer: string)
    requires k <= |steps| && DistinctIds(steps) && After(running, steps, k).Some?
    ensures var d := TokenAssumed(steps, k, holder, issuer);
            && HopsHeld(steps, k, holder, issuer) == (if d.Some? then Hops(steps, d.value) else [])
            && (d.Some? ==> steps[d.value].Delegate?)
    ensures var d := TokenHeld(steps, k, holder, issuer);
            && TrueHopsHeld(steps, k, holder, issuer) == (if d.Some? then TrueHops(steps, d.value) else [])
            && (d.Some? ==> steps[d.value].Delegate?)
  {
    hide Hops, TrueHops;
    var g, j := LatestGrant(steps, k, holder, issuer), LatestRedemption(steps, k, holder, issuer);
    if j.Some? {
      EarlierSteps(running, steps, j.value + 1, k);
      RedeemedTokens(running, steps, j.value);
    }
    if g.Some? && !steps[g.value].Handshake? {
      EarlierSteps(running, steps, g.value + 1, k);
      RedeemedTokens(running, steps, g.value);
    }
  }

  /** Main result: the hops the engine attaches are those really behind the grant exactly
      when, at the pair and at every hop behind it, the latest grant is one the scan sees. */
  lemma {:induction false} ChainIsTrueIff(running: map<string, string>, steps: seq<Step>, k: nat, holder: string, issuer: string)
    requires k <= |steps| && DistinctIds(steps) && After(running, steps, k).Some?
    ensures HopsHeld(steps, k, holder, issuer) == TrueHopsHeld(steps, k, holder, issuer) <==> Unbroken(steps, k, holder, issuer)
    decreases k
  {
    hide HopsHeld, TrueHopsHeld, Hops, TrueHops, TokenAssumed, TokenHeld;
    AssumedTokenMakesHops(running, steps, k, holder, issuer);
    var assumed, held := TokenAssumed(steps, k, holder, issuer), TokenHeld(steps, k, holder, issuer);
    if assumed.Some? {
      HopsEndInToken(steps, assumed.value);
    }
    if held.Some? {
      var d := held.value;
      HopsEndInToken(steps, d);
      EarlierSteps(running, steps, d, k);
      ChainIsTrueIff(running, steps, d, steps[d].delegator, steps[d].viaPeer);
      if assumed.Some? {
        var a := assumed.value;
        SnocInjective(HopsHeld(steps, a, steps[a].delegator, steps[a].viaPeer), a,
                      TrueHopsHeld(steps, d, steps[d].delegator, steps[d].viaPeer), d);
      }
    }
  }

  /** The list attached to a token then names the delegators of its true hops, in order. */
  lemma UnbrokenTokenCarriesTrueHops(running: map<string, string>, steps: seq<Step>, i: nat)
    requires i < |steps| && DistinctIds(steps) && After(running, steps, i + 1).Some? && steps[i].Delegate?
    ensures After(running, steps, i).Some?
    ensures Unbroken(steps, i, steps[i].delegator, steps[i].viaPeer) ==>
              OutputOf(running, After(running, steps, i).value, steps[i])
              == Some(Token(DelegatorUrls(running, steps, TrueHops(steps, i))))
  {
    hide DelegatorUrls, TrueHopsHeld, HopsHeld, Unbroken;
    EarlierSteps(running, steps, i, i + 1);
    AfterAppends(running, steps, i + 1);
    TokenCarriesHops(running, steps, i);
    ChainIsTrueIff(running, steps, i, steps[i].delegator, steps[i].viaPeer);
    HopsEndInToken(steps, i);
  }

  /** B redeems A's delegation at V, then shakes hands with V itself, then delegates. */
  const AFTER_HANDSHAKE := [
    Delegate("d1", "A", "B", "V", true, true), Redeem("r", "B", "V", "d1", true),
    Handshake("h", "B", "V", true), Delegate("d2", "B", "C", "V", true, true)]

  /** B redeems A's delegation at V in a probe, which V grants, then delegates. */
  const AFTER_PROBE := [
    Delegate("d1", "A", "B", "V", true, true), Probe("p", "B", "V", "d1", true),
    Delegate("d2", "B", "C", "V", true, true)]

  /** One more completed step with a new id. */
  lemma StepOutput(running: map<string, string>, steps: seq<Step>, k: nat, before: Outputs, out: Output)
    requires k < |steps| && After(running, steps, k) == Some(before)
    requires OutputOf(running, before, steps[k]) == Some(out) && Find(before, steps[k].id).None?
    ensures After(running, steps, k + 1) == Some(before + [(steps[k].id, out)])
    ensures forall holder, issuer :: HeldChain(before + [(steps[k].id, out)], holder, issuer)
              == if Holds(out, holder, issuer) then out.chain.manifestUrls else HeldChain(before, holder, issuer)
    ensures forall id :: Find(before + [(steps[k].id, out)], id) == if id == steps[k].id then Some(out) else Find(before, id)
  {
    PutNew(before, steps[k].id, out);
    forall holder, issuer
      ensures HeldChain(before + [(steps[k].id, out)], holder, issuer)
              == if Holds(out, holder, issuer) then out.chain.manifestUrls else HeldChain(before, holder, issuer)
    {
      HeldAppended(before, steps[k].id, out, holder, issuer);
    }
    forall id
      ensures Find(before + [(steps[k].id, out)], id) == if id == steps[k].id then Some(out) else Find(before, id)
    {
      FindAppended(before, steps[k].id, out, id);
    }
  }

  lemma AtFirst(running: map<string, string>, steps: seq<Step>)
    ensures After(running, steps, 0) == Some([])
    ensures forall holder, issuer :: HeldChain([], holder, issuer) == []
    ensures forall id :: Find([], id) == None
  {
  }

  /** A handshake does not clear the chain: B's token is B's alone, but carries A's manifest too. */
  lemma HandshakeKeepsChain(running: map<string, string>)
    requires "A" in running && "B" in running && "C" in running && "V" in running
    ensures After(running, AFTER_HANDSHAKE, 3).Some?
    ensures OutputOf(running, After(running, AFTER_HANDSHAKE, 3).value, AFTER_HANDSHAKE[3])
            == Some(Token([running["A"], running["B"]]))
    ensures TrueHops(AFTER_HANDSHAKE, 3) == [3]
  {
    hide After, HeldChain, Find;
    var steps, a := AFTER_HANDSHAKE, running["A"];
    AtFirst(running, steps);
    assert [] + [a] == [a];
    StepOutput(running, steps, 0, [], Token([a]));
    var s1 := [] + [("d1", Token([a]))];
    StepOutput(running, steps, 1, s1, Redeemed(Chain("B", "V", [a])));
    var s2 := s1 + [("r", Redeemed(Chain("B", "V", [a])))];
    StepOutput(running, steps, 2, s2, Unrelated);
    assert [a] + [running["B"]] == [a, running["B"]];
    assert LatestGrant(steps, 3, "B", "V") == Some(2);
    assert TokenHeld(steps, 3, "B", "V") == None;
  }

  /** A granted probe leaves no chain: B's token goes through A, but carries B's manifest only. */
  lemma ProbeLosesChain(running: map<string, string>)
    requires "A" in running && "B" in running && "C" in running && "V" in running
    ensures After(running, AFTER_PROBE, 2).Some?
    ensures OutputOf(running, After(running, AFTER_PROBE, 2).value, AFTER_PROBE[2]) == Some(Token([running["B"]]))
    ensures TrueHops(AFTER_PROBE, 2) == [0, 2]
  {
    hide After, HeldChain, Find;
    var steps, a := AFTER_PROBE, running["A"];
    AtFirst(running, steps);
    assert [] + [a] == [a];
    StepOutput(running, steps, 0, [], Token([a]));
    StepOutput(running, steps, 1, [] + [("d1", Token([a]))], Unrelated);
    assert [] + [running["B"]] == [running["B"]];
    assert LatestGrant(steps, 2, "B", "V") == Some(1);
    assert StepWithId(steps, 1, "d1") == Some(0);
    assert LatestGrant(steps, 0, "A", "V") == None;
    assert TrueHops(steps, 0) == [0];
  }

  // ---- the engine's own form ----

  class Workflow {
    const running: map<string, string>
    var outputs: Outputs

    constructor (running: map<string, string>)
      ensures this.running == running && outputs == []
    {
      this.running, outputs := running, [];
    }

    /** The scan from the newest output to the oldest. */
    method ScanHeldChain(holder: string, issuer: string) returns (urls: seq<string>)
      ensures urls == HeldChain(outputs, holder, issuer)
    {
      assert outputs[..|outputs|] == outputs;
      for i := |outputs| downto 0
        invariant HeldChain(outputs, holder, issuer) == HeldChain(outputs[..i], holder, issuer)
      {
        assert outputs[..i + 1][..i] == outputs[..i];
        if Holds(outputs[i].1, holder, issuer) {
          return outputs[i].1.chain.manifestUrls;
        }
      }
      urls := [];
    }

    /** One step; false when it raises, and then nothing is recorded. */
    method Dispatch(step: Step) returns (ok: bool)
      modifies this
      ensures ok <==> OutputOf(running, old(outputs), step).Some?
      ensures outputs == if ok then Put(old(outputs), step.id, OutputOf(running, old(outputs), step).value) else old(outputs)
    {
      var out: Output;
      match step {
        case Delegate(_, delegator, delegatee, viaPeer, scoped, answered) =>
          if delegator !in running || viaPeer !in running || delegatee !in running || !scoped || !answered {
            return false;
          }
          var held := ScanHeldChain(delegator, viaPeer);
          out := Token(held + [running[delegator]]);
        case Redeem(_, delegatee, target, viaDelegation, answered) =>
          var prior := Find(outputs, viaDelegation);
          if prior.None? || !prior.value.Token? || delegatee !in running || target !in running || !answered {
            return false;
          }
          out := Redeemed(Chain(delegatee, target, prior.value.issuerUrls));
        case Probe(_, delegatee, target, viaDelegation, _) =>
          var prior := Find(outputs, viaDelegation);
          if prior.None? || !prior.value.Token? || delegatee !in running || target !in running {
            return false;
          }
          out := Unrelated;
        case Handshake(_, initiator, responder, answered) =>
          if initiator !in running || responder !in running || !answered {
            return false;
          }
          out := Unrelated;
        case Another(_) =>
          out := Unrelated;
      }
      outputs := Put(outputs, step.id, out);
      ok := true;
    }
  }
}
