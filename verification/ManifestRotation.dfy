/** The served manifest against key rotation (`_fresh_manifest_json` and the rotate-keys
    route, agents/base/aitp_server.py). Any number of threads serve the manifest and any
    number rotate; each visit to a shared field or to the lock is one step. Keys are numbers,
    and minting is the SDK's: a manifest signed by the given key in the current second. */
module ManifestRotations {
  import opened Wrappers

  const COOLDOWN_SECS := 30

  datatype Manifest = Manifest(signer: nat, publishedAt: int, expiresAt: int)

  function Mint(key: nat, ttl: int, now: real): Manifest {
    Manifest(key, now.Floor, now.Floor + ttl)
  }

  /** The half-life, read out of the manifest itself. */
  function Deadline(m: Manifest): real {
    m.publishedAt as real + (m.expiresAt - m.publishedAt) as real / 2.0
  }

  predicate IsStale(m: Manifest, now: real) {
    now >= Deadline(m)
  }

  // ---- the steps of the threads ----

  /** Where a thread is. The `began` of a mint is the number of keys installed before it. */
  datatype Thread =
    | Checks(at: real)
    | ChecksCooldown(at: real)
    | WantsLock
    | Rechecks
    | Captures
    | Mints(agent: nat, began: nat)
    | Compares(agent: nat, minted: Manifest, began: nat)
    | Stores(minted: Manifest, began: nat)
    | Leaves(served: Option<Manifest>)
    | Reads
    | Served(manifest: Manifest)
    | WantsToRotate(key: nat, minted: Manifest)
    | SetsKey(key: nat, minted: Manifest)
    | SetsManifest(minted: Manifest)

  datatype World = World(now: real, ttl: int, agent: nat, manifest: Manifest, cooldown: real, installs: nat,
                         lock: Option<nat>, threads: map<nat, Thread>)

  /** A thread's next move; `mints` tells whether the SDK mints when it comes to that. */
  datatype Step = Tick(to: real) | Fetch(t: nat) | Rotate(t: nat, key: nat) | Move(t: nat, mints: bool)

  predicate Enabled(w: World, step: Step) {
    match step
    case Tick(to) => w.now <= to
    case Fetch(t) => t !in w.threads
    case Rotate(t, key) => t !in w.threads
    case Move(t, _) =>
      t in w.threads && !w.threads[t].Served? && ((w.threads[t].WantsLock? || w.threads[t].WantsToRotate?) ==> w.lock.None?)
  }

  function Go(w: World, t: nat, next: Thread): World {
    w.(threads := w.threads[t := next])
  }

  function Advance(w: World, t: nat, mints: bool): World
    requires Enabled(w, Move(t, mints))
  {
    match w.threads[t]
    case Checks(at) => Go(w, t, if at < Deadline(w.manifest) then Reads else ChecksCooldown(at))
    case ChecksCooldown(at) => Go(w, t, if at < w.cooldown then Reads else WantsLock)
    case WantsLock => Go(w, t, Rechecks).(lock := Some(t))
    case Rechecks => Go(w, t, if w.now < Deadline(w.manifest) then Leaves(Some(w.manifest)) else Captures)
    case Captures => Go(w, t, Mints(w.agent, w.installs))
    case Mints(agent, began) =>
      if mints then Go(w, t, Compares(agent, Mint(agent, w.ttl, w.now), began))
      else Go(w, t, Leaves(Some(w.manifest))).(cooldown := w.now + COOLDOWN_SECS as real)
    case Compares(agent, minted, began) => Go(w, t, if agent != w.agent then Leaves(Some(w.manifest)) else Stores(minted, began))
    case Stores(minted, _) => Go(w, t, Leaves(None)).(manifest := minted, cooldown := 0.0)
    case Leaves(served) => Go(w, t, if served.Some? then Served(served.value) else Reads).(lock := None)
    case Reads => Go(w, t, Served(w.manifest))
    case Served(_) => w
    case WantsToRotate(key, minted) => Go(w, t, SetsKey(key, minted)).(lock := Some(t))
    case SetsKey(key, minted) => Go(w, t, SetsManifest(minted)).(agent := key, installs := w.installs + 1)
    case SetsManifest(minted) => Go(w, t, Leaves(Some(minted))).(manifest := minted, cooldown := 0.0)
  }

  /** A step that cannot be taken leaves the world as it is. */
  function Next(w: World, step: Step): World {
    if !Enabled(w, step) then w
    else match step
      case Tick(to) => w.(now := to)
      case Fetch(t) => Go(w, t, Checks(w.now))
      case Rotate(t, key) => Go(w, t, WantsToRotate(key, Mint(key, w.ttl, w.now)))
      case Move(t, mints) => Advance(w, t, mints)
  }

  datatype Run = Run(start: real, ttl: int, key: nat, first: Manifest, steps: seq<Step>)

  function After(run: Run, k: nat): World
    requires k <= |run.steps|
  {
    if k == 0 then World(run.start, run.ttl, run.key, run.first, 0.0, 0, None, map[])
    else Next(After(run, k - 1), run.steps[k - 1])
  }

  // ---- what every step keeps ----

  predicate NeedsLock(th: Thread) {
    th.Rechecks? || th.Captures? || th.Mints? || th.Compares? || th.Stores? || th.Leaves? || th.SetsKey? || th.SetsManifest?
  }

  ghost predicate Sound(w: World, th: Thread) {
    match th
    case Captures => IsStale(w.manifest, w.now)
    case Mints(agent, began) => agent == w.agent && began == w.installs && IsStale(w.manifest, w.now)
    case Compares(agent, minted, began) =>
      agent == w.agent && minted.signer == agent && began == w.installs && Supersedes(w, minted)
    case Stores(minted, began) => minted.signer == w.agent && began == w.installs && Supersedes(w, minted)
    case WantsToRotate(key, minted) => minted.signer == key
    case SetsKey(key, minted) => minted.signer == key
    case SetsManifest(minted) => minted.signer == w.agent
    case _ => true
  }

  /** Minted at or after the half-life of the manifest it is to replace. */
  ghost predicate Supersedes(w: World, minted: Manifest) {
    minted.publishedAt >= Deadline(w.manifest).Floor
  }

  ghost predicate Rotating(w: World) {
    w.lock.Some? && w.lock.value in w.threads && w.threads[w.lock.value].SetsManifest?
  }

  ghost predicate Inv(w: World) {
    && (forall t :: t in w.threads ==> Sound(w, w.threads[t]) && (NeedsLock(w.threads[t]) ==> w.lock == Some(t)))
    && (w.manifest.signer != w.agent ==> Rotating(w))
  }

  lemma FloorMonotone(a: real, b: real)
    requires a <= b
    ensures a.Floor <= b.Floor
  {
  }

  /** No other thread can be anywhere the shared fields matter while one holds the lock. */
  lemma AdvanceKeeps(w: World, t: nat, mints: bool)
    requires Inv(w) && Enabled(w, Move(t, mints))
    ensures Inv(Advance(w, t, mints))
  {
    var w' := Advance(w, t, mints);
    assert Sound(w, w.threads[t]);
    if w.threads[t].Mints? {
      FloorMonotone(Deadline(w.manifest), w.now);
    }
    forall u | u in w'.threads
      ensures Sound(w', w'.threads[u]) && (NeedsLock(w'.threads[u]) ==> w'.lock == Some(u))
    {
      if u != t {
        assert Sound(w, w.threads[u]);
      }
    }
  }

  lemma NextKeeps(w: World, step: Step)
    requires Inv(w)
    ensures Inv(Next(w, step))
  {
    if Enabled(w, step) && step.Move? {
      AdvanceKeeps(w, step.t, step.mints);
    } else if Enabled(w, step) {
      var w' := Next(w, step);
      forall u | u in w'.threads
        ensures Sound(w', w'.threads[u]) && (NeedsLock(w'.threads[u]) ==> w'.lock == Some(u))
      {
        if u in w.threads {
          assert Sound(w, w.threads[u]);
        }
      }
    }
  }

  lemma {:induction false} RunKeeps(run: Run, k: nat)
    requires k <= |run.steps| && run.first.signer == run.key
    ensures Inv(After(run, k))
  {
    hide Next, Inv;
    if k == 0 {
      StartInv(run);
    } else {
      RunKeeps(run, k - 1);
      NextKeeps(After(run, k - 1), run.steps[k - 1]);
    }
  }

  lemma StartInv(run: Run)
    requires run.first.signer == run.key
    ensures Inv(After(run, 0))
  {
  }

  // ---- main results ----

  /** Whenever the lock is free, the stored manifest was minted by the current key. */
  lemma FreeLockMeansCurrentKey(run: Run, k: nat)
    requires k <= |run.steps| && run.first.signer == run.key && After(run, k).lock.None?
    ensures After(run, k).manifest.signer == After(run, k).agent
  {
    hide After;
    RunKeeps(run, k);
  }

  /** Even a reader without the lock sees another key's manifest only while a rotation
      stands between its two writes. */
  lemma UnlockedReadIsCurrentUnlessRotating(run: Run, k: nat)
    requires k <= |run.steps| && run.first.signer == run.key
    ensures After(run, k).manifest.signer == After(run, k).agent || Rotating(After(run, k))
  {
    hide After;
    RunKeeps(run, k);
  }

  /** A re-mint is stored only if no key was installed since it began, and it is then by
      the current key: a rotation is never undone. */
  lemma RemintNeverUndoesRotation(run: Run, k: nat, t: nat)
    requires k <= |run.steps| && run.first.signer == run.key
    requires t in After(run, k).threads && After(run, k).threads[t].Stores?
    ensures var w := After(run, k);
            && w.threads[t].began == w.installs && w.threads[t].minted.signer == w.agent
            && (w.manifest.expiresAt - w.manifest.publishedAt >= 2
                ==> w.threads[t].minted.publishedAt > w.manifest.publishedAt)
  {
    hide After;
    RunKeeps(run, k);
    var w := After(run, k);
    assert Sound(w, w.threads[t]);
    if w.manifest.expiresAt - w.manifest.publishedAt >= 2 {
      assert Deadline(w.manifest) >= (w.manifest.publishedAt + 1) as real;
      FloorMonotone((w.manifest.publishedAt + 1) as real, Deadline(w.manifest));
    }
  }

  /** The check for a rotation that landed during the mint never finds one: the mint runs
      under the lock that every rotation needs. */
  lemma SupersededBranchIsDead(run: Run, k: nat, t: nat)
    requires k <= |run.steps| && run.first.signer == run.key
    requires t in After(run, k).threads && After(run, k).threads[t].Compares?
    ensures After(run, k).threads[t].agent == After(run, k).agent
  {
    hide After;
    RunKeeps(run, k);
    assert Sound(After(run, k), After(run, k).threads[t]);
  }

  // ---- one call, undisturbed ----

  datatype Holder = Holder(agent: nat, manifest: Manifest, cooldown: real)

  /** `t1`, `t2`, `t3` are the clock at entry, at the re-check and at the mint. */
  function Fresh(h: Holder, ttl: int, t1: real, t2: real, t3: real, mints: bool): Holder {
    if t1 < Deadline(h.manifest) || t1 < h.cooldown || t2 < Deadline(h.manifest) then h
    else if mints then Holder(h.agent, Mint(h.agent, ttl, t3), 0.0)
    else h.(cooldown := t3 + COOLDOWN_SECS as real)
  }

  /** A call that mints serves a manifest still before its half-life. */
  lemma MintedIsFresh(h: Holder, ttl: int, t1: real, t2: real, t3: real)
    requires ttl >= 2 && t1 <= t2 <= t3 && h.cooldown <= t1 && IsStale(h.manifest, t1)
    ensures var served := Fresh(h, ttl, t1, t2, t3, true).manifest;
            !IsStale(served, t3) && served.signer == h.agent
  {
    FreshlyMintedIsFresh(h.agent, ttl, t3);
  }

  lemma FreshlyMintedIsFresh(key: nat, ttl: int, now: real)
    requires ttl >= 2
    ensures !IsStale(Mint(key, ttl, now), now)
  {
    assert now < now.Floor as real + 1.0;
  }

  /** Why two: a new manifest is always before its half-life exactly when it lives for two
      seconds or more. */
  lemma FreshnessNeedsTwoSeconds(key: nat, ttl: int)
    ensures (forall now: real :: !IsStale(Mint(key, ttl, now), now)) <==> ttl >= 2
  {
    if ttl >= 2 {
      forall now: real ensures !IsStale(Mint(key, ttl, now), now) {
        FreshlyMintedIsFresh(key, ttl, now);
      }
    } else {
      assert (0.5 as real).Floor == 0;
      assert IsStale(Mint(key, ttl, 0.5), 0.5);
    }
  }

  /** A manifest before its half-life is served as it is: nothing is minted or forgotten. */
  lemma FreshIsServedAsItIs(h: Holder, ttl: int, t1: real, t2: real, t3: real, mints: bool)
    requires !IsStale(h.manifest, t1) || !IsStale(h.manifest, t2)
    ensures Fresh(h, ttl, t1, t2, t3, mints) == h
  {
  }

  /** Two calls in a row: after a mint failed at t, a call within the next thirty seconds
      leaves everything as it is, whether it could mint or not; from then on a call tries
      again, and mints in its own second with the same key. */
  lemma FailedMintBacksOff(h: Holder, ttl: int, t1: real, t2: real, t: real, u1: real, u2: real, u3: real, mints: bool)
    requires t1 <= t2 <= t <= u1 <= u2 <= u3 && IsStale(h.manifest, t1) && h.cooldown <= t1
    ensures var failed := Fresh(h, ttl, t1, t2, t, false);
            && failed.manifest == h.manifest && failed.agent == h.agent
            && (u1 < t + 30.0 ==> Fresh(failed, ttl, u1, u2, u3, mints) == failed)
            && (u1 >= t + 30.0 ==>
                  && Fresh(failed, ttl, u1, u2, u3, true) == Holder(h.agent, Manifest(h.agent, u3.Floor, u3.Floor + ttl), 0.0)
                  && Fresh(failed, ttl, u1, u2, u3, false).cooldown == u3 + 30.0)
  {
  }

  /** Exactly when a call serves a manifest past its half-life: it found one, and either a
      failed mint's cooldown was still running or its own mint failed. */
  lemma StaleServedIff(h: Holder, ttl: int, now: real, mints: bool)
    requires ttl >= 2
    ensures IsStale(Fresh(h, ttl, now, now, now, mints).manifest, now)
            <==> IsStale(h.manifest, now) && (now < h.cooldown || !mints)
  {
    FreshlyMintedIsFresh(h.agent, ttl, now);
  }

  /** Thread t moves `moves` times with nothing in between. */
  function Alone(w: World, t: nat, mints: bool, moves: nat): (w': World)
    requires t in w.threads
    ensures t in w'.threads
  {
    if moves == 0 then w else Next(Alone(w, t, mints, moves - 1), Move(t, mints))
  }

  lemma OneMoveMore(w: World, t: nat, mints: bool, moves: nat)
    requires t in w.threads
    ensures Alone(w, t, mints, 0) == w
    ensures Alone(w, t, mints, moves + 1) == Next(Alone(w, t, mints, moves), Move(t, mints))
  {
  }

  lemma {:induction false} ServedIsTheEnd(w: World, t: nat, mints: bool, m: nat, n: nat)
    requires t in w.threads && m <= n && Alone(w, t, mints, m).threads[t].Served?
    ensures Alone(w, t, mints, n) == Alone(w, t, mints, m)
  {
    if m < n {
      ServedIsTheEnd(w, t, mints, m, n - 1);
    }
  }

  /** A fetch that need not or may not mint reads and returns without the lock. */
  lemma AloneWithoutMint(w: World, t: nat, mints: bool)
    requires t in w.threads && w.threads[t] == Checks(w.now) && (w.now < Deadline(w.manifest) || w.now < w.cooldown)
    ensures Alone(w, t, mints, 10) == Go(w, t, Served(w.manifest))
  {
    hide Alone, Deadline;
    OneMoveMore(w, t, mints, 0);
    OneMoveMore(w, t, mints, 1);
    OneMoveMore(w, t, mints, 2);
    ServedIsTheEnd(w, t, mints, if w.now < Deadline(w.manifest) then 2 else 3, 10);
  }

  lemma AloneUpToMint(w: World, t: nat, mints: bool)
    requires t in w.threads && w.threads[t] == Checks(w.now) && w.lock.None?
    requires Deadline(w.manifest) <= w.now && w.cooldown <= w.now
    ensures Alone(w, t, mints, 5) == Go(w, t, Mints(w.agent, w.installs)).(lock := Some(t))
  {
    hide Alone, Deadline;
    OneMoveMore(w, t, mints, 0);
    OneMoveMore(w, t, mints, 1);
    assert Alone(w, t, mints, 2) == Go(w, t, WantsLock);
    OneMoveMore(w, t, mints, 2);
    OneMoveMore(w, t, mints, 3);
    assert Alone(w, t, mints, 4) == Go(w, t, Captures).(lock := Some(t));
    OneMoveMore(w, t, mints, 4);
  }

  lemma AloneFromMint(w: World, t: nat, mints: bool)
    requires t in w.threads && w.threads[t] == Checks(w.now) && w.lock.None?
    requires Deadline(w.manifest) <= w.now && w.cooldown <= w.now
    ensures var w' := Alone(w, t, mints, 10);
            && Holder(w'.agent, w'.manifest, w'.cooldown)
               == Fresh(Holder(w.agent, w.manifest, w.cooldown), w.ttl, w.now, w.now, w.now, mints)
            && w'.threads[t] == Served(w'.manifest) && w'.lock.None?
  {
    hide Alone, Deadline;
    AloneUpToMint(w, t, mints);
    OneMoveMore(w, t, mints, 5);
    OneMoveMore(w, t, mints, 6);
    if mints {
      var minted := Mint(w.agent, w.ttl, w.now);
      assert Alone(w, t, mints, 7) == Go(w, t, Stores(minted, w.installs)).(lock := Some(t));
      OneMoveMore(w, t, mints, 7);
      OneMoveMore(w, t, mints, 8);
      OneMoveMore(w, t, mints, 9);
    } else {
      ServedIsTheEnd(w, t, mints, 7, 10);
    }
  }

  /** A thread that runs from entry to return with no other step between does what one
      undisturbed call does, and returns the manifest then held. */
  lemma AloneItIsOneCall(w: World, t: nat, mints: bool)
    requires t !in w.threads && w.lock.None?
    ensures var w' := Alone(Next(w, Fetch(t)), t, mints, 10);
            && Holder(w'.agent, w'.manifest, w'.cooldown)
               == Fresh(Holder(w.agent, w.manifest, w.cooldown), w.ttl, w.now, w.now, w.now, mints)
            && w'.threads[t] == Served(w'.manifest) && w'.lock.None?
  {
    hide Alone;
    var w0 := Next(w, Fetch(t));
    if w.now < Deadline(w.manifest) || w.now < w.cooldown {
      AloneWithoutMint(w0, t, mints);
    } else {
      AloneFromMint(w0, t, mints);
    }
  }

  /** A rotation with no other step between installs the key and its manifest together, ends
      any cooldown, and frees the lock. */
  lemma AloneItIsOneRotation(w: World, t: nat, key: nat, mints: bool)
    requires t !in w.threads && w.lock.None?
    ensures var w' := Alone(Next(w, Rotate(t, key)), t, mints, 4);
            && Holder(w'.agent, w'.manifest, w'.cooldown)
               == Holder(key, Manifest(key, w.now.Floor, w.now.Floor + w.ttl), 0.0)
            && w'.installs == w.installs + 1 && w'.lock.None?
  {
    hide Alone;
    var w0 := Next(w, Rotate(t, key));
    OneMoveMore(w0, t, mints, 0);
    OneMoveMore(w0, t, mints, 1);
    OneMoveMore(w0, t, mints, 2);
    OneMoveMore(w0, t, mints, 3);
  }

  // ---- the manifest object ----

  class ManifestServer {
    const ttl: int
    var agent: nat
    var manifest: Manifest
    var cooldownUntil: real

    ghost function State(): Holder
      reads this
    {
      Holder(agent, manifest, cooldownUntil)
    }

    constructor (ttl: int, agent: nat, manifest: Manifest)
      ensures State() == Holder(agent, manifest, 0.0) && this.ttl == ttl
    {
      this.ttl, this.agent, this.manifest, cooldownUntil := ttl, agent, manifest, 0.0;
    }

    method FreshManifest(t1: real, t2: real, t3: real, mints: bool) returns (served: Manifest)
      modifies this
      ensures State() == Fresh(old(State()), ttl, t1, t2, t3, mints) && served == manifest
    {
      if t1 < Deadline(manifest) || t1 < cooldownUntil {
        return manifest;
      }
      if t2 < Deadline(manifest) {
        return manifest;
      }
      if !mints {
        cooldownUntil := t3 + COOLDOWN_SECS as real;
        return manifest;
      }
      manifest := Mint(agent, ttl, t3);
      cooldownUntil := 0.0;
      served := manifest;
    }

    method RotateKeys(key: nat, now: real)
      modifies this
      ensures State() == Holder(key, Mint(key, ttl, now), 0.0)
    {
      var minted := Mint(key, ttl, now);
      agent := key;
      manifest := minted;
      cooldownUntil := 0.0;
    }
  }
}
