/** The issuer side of revocation: an agent's own signed list
    (agents/base/revocation_publish.py), and the one path that puts it into force
    (agents/base/revocation_refresh.py). Signing and verifying are the SDK's: a signed list
    carries the entries given, the whole second it was signed in, and a fixed lifetime. */
module RevocationLists {
  import opened RevocationStates
  import opened Wrappers

  datatype SignedList = SignedList(entries: set<string>, signer: string, publishedAt: int, expiresAt: int)

  // ---- the control plane's answer ----

  /** One entry of the answer: its `jti` in canonical form, or None when it is no UUID. */
  datatype RawEntry = RawEntry(jti: Option<string>)

  datatype Answer =
    | Unreachable
    | BadStatus(code: string)
    | Malformed
    | Body(iss: string, entries: seq<RawEntry>)

  datatype Pulled = Refused(cause: string) | Entries(jtis: set<string>)

  /** An answer is taken whole or not at all: no entry is ever left out of a list. */
  function PullOutcome(a: Answer, aid: string): (pulled: Pulled)
    ensures pulled.Entries?
            <==> a.Body? && a.iss == aid && forall i :: 0 <= i < |a.entries| ==> a.entries[i].jti.Some?
    ensures pulled.Entries? ==> forall jti :: jti in pulled.jtis <==> RawEntry(Some(jti)) in a.entries
  {
    match a
    case Unreachable => Refused("cp_unreachable")
    case BadStatus(code) => Refused(code)
    case Malformed => Refused("malformed_body")
    case Body(iss, entries) =>
      if iss != aid then Refused("issuer_mismatch")
      else if exists i :: 0 <= i < |entries| && entries[i].jti.None? then Refused("malformed_body")
      else Entries(set i | 0 <= i < |entries| :: entries[i].jti.value)
  }

  // ---- signing and serving ----

  function Sign(entries: set<string>, aid: string, ttl: int, now: real): SignedList {
    SignedList(entries, aid, now.Floor, now.Floor + ttl)
  }

  predicate Usable(l: SignedList, aid: string, now: real) {
    l.signer == aid && now < l.expiresAt as real
  }

  /** What the list route serves, with the list then held. None is the 503: a control plane
      is configured and no list of the current key is unexpired. */
  function Serveable(held: Option<SignedList>, aid: string, hasCp: bool, ttl: int, now: real)
    : (r: (Option<SignedList>, Option<SignedList>))
    ensures r.0.None? <==> hasCp && (held.None? || !Usable(held.value, aid, now))
    ensures hasCp ==> r.1 == held
    ensures r.0.Some? && ttl > 0 ==> Usable(r.0.value, aid, now)
    ensures r.0.Some? ==> r.0 == r.1
    ensures r.1 == held || (!hasCp && r.1 == Some(SignedList({}, aid, now.Floor, now.Floor + ttl)))
    ensures held.Some? && Usable(held.value, aid, now) ==> r.1 == held
  {
    var usable := if held.Some? && Usable(held.value, aid, now) then held else None;
    if usable.None? && !hasCp
    then var signed := Some(Sign({}, aid, ttl, now)); (signed, signed)
    else (usable, held)
  }

  // ---- one refresh, undisturbed ----

  function Republish(held: Option<SignedList>, aid: string, ttl: int, answer: Answer, now: real): Option<SignedList> {
    match PullOutcome(answer, aid)
    case Refused(_) => held
    case Entries(jtis) => Some(Sign(jtis, aid, ttl, now))
  }

  function PutIntoForce(d: Denials, held: Option<SignedList>, aid: string, verified: bool, now: real): Denials {
    if held.Some? && Usable(held.value, aid, now) && verified
    then ApplySnapshot(d, Snapshot(held.value.entries, held.value.publishedAt, held.value.expiresAt))
    else d
  }

  /** After a refresh that reached the control plane, exactly its entries and the local
      revocations are denied — an entry it no longer names is no longer revoked. */
  lemma RefreshEnforcesTheAnswer(d: Denials, held: Option<SignedList>, aid: string, ttl: int, answer: Answer,
                                 now: real, jti: string)
    requires ttl >= 1 && PullOutcome(answer, aid).Entries?
    ensures var d' := PutIntoForce(d, Republish(held, aid, ttl, answer, now), aid, true, now);
            && (IsRevoked(d', jti) <==> jti in PullOutcome(answer, aid).jtis || jti in d.local)
            && (forall maxStaleness: int :: maxStaleness >= 1 ==> PostureOf(d', true, maxStaleness, now) == Current)
  {
    assert now.Floor as real <= now < now.Floor as real + 1.0;
  }

  /** A budget of zero seconds is met exactly at whole seconds: `published_at` is truncated. */
  lemma ZeroBudgetNeedsWholeSecond(d: Denials, held: Option<SignedList>, aid: string, ttl: int, answer: Answer, now: real)
    requires ttl >= 1 && PullOutcome(answer, aid).Entries?
    ensures var d' := PutIntoForce(d, Republish(held, aid, ttl, answer, now), aid, true, now);
            PostureOf(d', true, 0, now) == Current <==> now == now.Floor as real
  {
    assert now.Floor as real <= now < now.Floor as real + 1.0;
  }

  class IssuerRevocationList {
    const ttl: int
    const hasCp: bool
    var current: Option<SignedList>

    constructor (ttl: int, hasCp: bool)
      ensures current == None && this.ttl == ttl && this.hasCp == hasCp
    {
      this.ttl, this.hasCp, current := ttl, hasCp, None;
    }

    method ToServe(aid: string, now: real) returns (signed: Option<SignedList>)
      modifies this`current
      ensures (signed, current) == Serveable(old(current), aid, hasCp, ttl, now)
    {
      signed := current;
      if signed.Some? && (signed.value.signer != aid || now >= signed.value.expiresAt as real) {
        signed := None;
      }
      if signed.None? && !hasCp {
        signed := Some(Sign({}, aid, ttl, now));
        current := signed;
      }
    }

    method Refresh(aid: string, answer: Answer, now: real) returns (published: bool)
      modifies this`current
      ensures current == if hasCp then Republish(old(current), aid, ttl, answer, now)
                         else Serveable(old(current), aid, false, ttl, now).1
      ensures published <==> !hasCp || PullOutcome(answer, aid).Entries?
      ensures !hasCp && ttl > 0 ==> current.Some? && Usable(current.value, aid, now)
    {
      if !hasCp {
        var signed := ToServe(aid, now);
        return true;
      }
      var pulled := PullOutcome(answer, aid);
      if pulled.Refused? {
        return false;
      }
      current := Some(Sign(pulled.jtis, aid, ttl, now));
      published := true;
    }
  }

  /** The shared ingest path with nothing interleaved. */
  method RefreshRevocations(state: RevocationState, issued: IssuerRevocationList, aid: string, answer: Answer,
                            verifies: bool, signedAt: real, now: real)
    returns (verified: bool)
    requires signedAt <= now
    modifies state`snapshot, issued`current
    ensures !verifies || issued.current.None? ==> state.Value() == old(state.Value()) && !verified
    ensures !issued.hasCp ==> state.Value() == old(state.Value()) && issued.current == old(issued.current) && !verified
    ensures issued.hasCp ==>
              && issued.current == Republish(old(issued.current), aid, issued.ttl, answer, signedAt)
              && state.Value() == PutIntoForce(old(state.Value()), issued.current, aid, verifies, now)
              && (verified <==> issued.current.Some? && Usable(issued.current.value, aid, now) && verifies)
  {
    if !issued.hasCp {
      return false;
    }
    var published := issued.Refresh(aid, answer, signedAt);
    var current := issued.ToServe(aid, now);
    if current.None? || !verifies {
      return false;
    }
    state.PutInForce(current.value.entries, current.value.publishedAt, current.value.expiresAt);
    verified := true;
  }
}
