/** What an agent denies as a verifier (agents/base/revocation_state.py): its own local
    revocations and the snapshot in force, kept apart and united only when enforced. */
module RevocationStates {
  import opened Wrappers

  datatype Snapshot = Snapshot(entries: set<string>, publishedAt: int, expiresAt: int)

  datatype Denials = Denials(local: set<string>, snapshot: Option<Snapshot>)

  datatype Posture = Unchecked | Current | Degraded

  predicate IsExpired(s: Snapshot, now: real) {
    now >= s.expiresAt as real
  }

  function AgeSecs(s: Snapshot, now: real): real {
    now - s.publishedAt as real
  }

  function EffectiveJtis(d: Denials): set<string> {
    if d.snapshot.None? then d.local else d.local + d.snapshot.value.entries
  }

  predicate IsRevoked(d: Denials, jti: string) {
    jti in d.local || (d.snapshot.Some? && jti in d.snapshot.value.entries)
  }

  function PostureOf(d: Denials, canVerify: bool, maxStaleness: int, now: real): Posture {
    if !canVerify then Unchecked
    else if d.snapshot.None? then Degraded
    else if IsExpired(d.snapshot.value, now) then Degraded
    else if AgeSecs(d.snapshot.value, now) > maxStaleness as real then Degraded
    else Current
  }

  /** The freshness rule: only the exact opt-in lets a degraded agent go on. */
  predicate FreshEnough(d: Denials, canVerify: bool, maxStaleness: int, failMode: string, now: real) {
    PostureOf(d, canVerify, maxStaleness, now) != Degraded || failMode == "soft_fail"
  }

  function ApplySnapshot(d: Denials, s: Snapshot): Denials {
    d.(snapshot := Some(s))
  }

  function RevokeLocal(d: Denials, jti: string): Denials {
    d.(local := d.local + {jti})
  }

  /** The precheck and the deny-set handed to the SDK never disagree. */
  lemma RevokedIffInDenySet(d: Denials, jti: string)
    ensures IsRevoked(d, jti) <==> jti in EffectiveJtis(d)
  {
  }

  /** With verification configured, an agent is degraded exactly outside one window of
      time: from one signature on, for as long as it is young enough and unexpired. */
  lemma CurrentIffInsideWindow(d: Denials, maxStaleness: int, now: real)
    ensures PostureOf(d, true, maxStaleness, now) == Current
            <==> d.snapshot.Some? && now < d.snapshot.value.expiresAt as real
                 && now <= d.snapshot.value.publishedAt as real + maxStaleness as real
  {
  }

  class RevocationState {
    var local: set<string>
    var snapshot: Option<Snapshot>

    ghost function Value(): Denials
      reads this
    {
      Denials(local, snapshot)
    }

    constructor ()
      ensures Value() == Denials({}, None)
    {
      local, snapshot := {}, None;
    }

    method Revoke(jti: string)
      modifies this`local
      ensures Value() == RevokeLocal(old(Value()), jti)
    {
      local := local + {jti};
    }

    method PutInForce(entries: set<string>, publishedAt: int, expiresAt: int)
      modifies this`snapshot
      ensures Value() == ApplySnapshot(old(Value()), Snapshot(entries, publishedAt, expiresAt))
    {
      snapshot := Some(Snapshot(entries, publishedAt, expiresAt));
    }

    method Denied() returns (jtis: set<string>)
      ensures forall jti :: jti in jtis <==> IsRevoked(Value(), jti)
    {
      jtis := local;
      if snapshot.Some? {
        jtis := jtis + snapshot.value.entries;
      }
    }
  }
}
