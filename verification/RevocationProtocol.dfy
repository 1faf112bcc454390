/** Revocation of an agent as a protocol over its steps (agents/base/revocation_publish.py,
    agents/base/revocation_refresh.py, agents/base/aitp_server.py): any number of refreshes
    — the poll's, the admin routes', a rotation's — interleave at the await inside the pull,
    while the control plane records entries, keys rotate and calls come in. */
module RevocationProtocols {
  import opened RevocationStates
  import opened RevocationLists
  import opened Wrappers

  /** The agent's settings: list lifetime, staleness budget, fail mode; and the bound on
      the delay between a control-plane answer and the signature over it. */
  datatype Config = Config(ttl: int, maxStaleness: int, failMode: string, delay: real)

  /** Where one refresh is. `Settled`: its pull is over, its verification is still to come. */
  datatype Pull =
    | Asked(aid: string, startedAt: real)
    | Answered(aid: string, startedAt: real, answeredAt: real, entries: set<string>)
    | Settled

  /** A signed list with the moment its entries are known to be complete for. */
  datatype Issued = Issued(list: SignedList, basis: real)

  /** `cp` holds, per issuer and jti, when the control plane first recorded it;
      `installed`, when each key of the agent was put in place. */
  datatype World = World(
    now: real, cp: map<(string, string), real>, aid: string, installed: map<string, real>,
    held: Option<Issued>, inForce: Option<Issued>, local: set<string>, pulls: map<nat, Pull>)

  datatype Step =
    | Tick(to: real)
    | Record(iss: string, jti: string)
    | PullStart(p: nat)
    | PullAnswer(p: nat)
    | PullRefused(p: nat)
    | SignAnswer(p: nat)
    | Apply(p: nat, verifies: bool)
    | LocalRevoke(jti: string)
    | Rotate(newAid: string)

  function Initial(aid: string, start: real): World {
    World(start, map[], aid, map[aid := start], None, None, {}, map[])
  }

  function CpEntries(w: World, aid: string): set<string> {
    set key | key in w.cp && key.0 == aid :: key.1
  }

  /** The entries were asked for `pull.aid`. When the key changed during the pull, they say
      nothing about the new key's tokens beyond the moment the pull started. */
  function BasisOf(w: World, pull: Pull): real
    requires pull.Answered?
  {
    if pull.aid == w.aid then pull.answeredAt else pull.startedAt
  }

  predicate Enabled(w: World, cfg: Config, step: Step) {
    match step
    case Tick(to) => w.now <= to
    case Record(iss, _) => iss in w.installed
    case PullStart(p) => p !in w.pulls
    case PullAnswer(p) => p in w.pulls && w.pulls[p].Asked?
    case PullRefused(p) => p in w.pulls && !w.pulls[p].Settled?
    case SignAnswer(p) => p in w.pulls && w.pulls[p].Answered? && w.now <= BasisOf(w, w.pulls[p]) + cfg.delay
    case Apply(p, _) => p in w.pulls && w.pulls[p].Settled?
    case LocalRevoke(_) => true
    case Rotate(newAid) => newAid !in w.installed
  }

  function HeldList(w: World): Option<SignedList> {
    if w.held.Some? then Some(w.held.value.list) else None
  }

  function Taken(w: World, cfg: Config, step: Step): World
    requires Enabled(w, cfg, step)
  {
    match step
    case Tick(to) => w.(now := to)
    case Record(iss, jti) => if (iss, jti) in w.cp then w else w.(cp := w.cp[(iss, jti) := w.now])
    case PullStart(p) => w.(pulls := w.pulls[p := Asked(w.aid, w.now)])
    case PullAnswer(p) =>
      var pull := w.pulls[p];
      w.(pulls := w.pulls[p := Answered(pull.aid, pull.startedAt, w.now, CpEntries(w, pull.aid))])
    case PullRefused(p) => w.(pulls := w.pulls[p := Settled])
    case SignAnswer(p) =>
      var pull := w.pulls[p];
      var signed := Issued(Sign(pull.entries, w.aid, cfg.ttl, w.now), BasisOf(w, pull));
      w.(held := Some(signed), pulls := w.pulls[p := Settled])
    case Apply(p, verifies) =>
      var rest := w.(pulls := w.pulls - {p});
      if Serveable(HeldList(w), w.aid, true, cfg.ttl, w.now).0.Some? && verifies then rest.(inForce := w.held) else rest
    case LocalRevoke(jti) => w.(local := w.local + {jti})
    case Rotate(newAid) => w.(aid := newAid, installed := w.installed[newAid := w.now])
  }

  /** A step that cannot be taken leaves the world as it is. */
  function Next(w: World, cfg: Config, step: Step): World {
    if Enabled(w, cfg, step) then Taken(w, cfg, step) else w
  }

  datatype Run = Run(cfg: Config, aid: string, start: real, steps: seq<Step>)

  function After(run: Run, k: nat): World
    requires k <= |run.steps|
  {
    if k == 0 then Initial(run.aid, run.start) else Next(After(run, k - 1), run.cfg, run.steps[k - 1])
  }

  // ---- what the agent honours ----

  function DenialsOf(w: World): Denials {
    Denials(w.local, if w.inForce.None? then None
                     else var l := w.inForce.value.list; Some(Snapshot(l.entries, l.publishedAt, l.expiresAt)))
  }

  /** The revocation gates of a redemption, and of a capability call up to its issuer
      check: not denied, and fresh enough or explicitly opted out. */
  predicate Honours(w: World, cfg: Config, jti: string) {
    && FreshEnough(DenialsOf(w), true, cfg.maxStaleness, cfg.failMode, w.now)
    && jti !in EffectiveJtis(DenialsOf(w))
  }

  // ---- what every step keeps ----

  /** Entries known for `issuer`: everything recorded before `basis` is among them. */
  ghost predicate Complete(w: World, issuer: string, entries: set<string>, basis: real) {
    forall jti :: (issuer, jti) in w.cp ==> jti in entries || basis <= w.cp[(issuer, jti)]
  }

  ghost predicate SoundList(w: World, cfg: Config, l: Issued) {
    && l.basis <= w.now && l.list.signer in w.installed
    && l.list.publishedAt as real <= l.basis + cfg.delay
    && l.list.publishedAt as real <= w.now
    && l.list.expiresAt == l.list.publishedAt + cfg.ttl
    && Complete(w, w.aid, l.list.entries, l.basis)
  }

  ghost predicate SoundPull(w: World, pull: Pull) {
    match pull
    case Asked(aid, startedAt) =>
      aid in w.installed && startedAt <= w.now && (aid != w.aid ==> w.aid in w.installed && startedAt <= w.installed[w.aid])
    case Answered(aid, startedAt, answeredAt, entries) =>
      && aid in w.installed && startedAt <= answeredAt <= w.now && (aid != w.aid ==> w.aid in w.installed && startedAt <= w.installed[w.aid])
      && Complete(w, aid, entries, answeredAt)
    case Settled => true
  }

  ghost predicate SoundRecords(w: World) {
    && w.aid in w.installed
    && (forall aid :: aid in w.installed ==> w.installed[aid] <= w.now)
    && (forall key :: key in w.cp ==> key.0 in w.installed && w.installed[key.0] <= w.cp[key] <= w.now)
  }

  /** The list held is at least as young as the one in force. */
  ghost predicate HeldIsYoungest(w: World) {
    w.inForce.Some? ==> w.held.Some? && w.inForce.value.list.publishedAt <= w.held.value.list.publishedAt
  }

  ghost predicate Inv(w: World, cfg: Config) {
    && SoundRecords(w)
    && (w.held.Some? ==> SoundList(w, cfg, w.held.value))
    && (w.inForce.Some? ==> SoundList(w, cfg, w.inForce.value))
    && (forall p :: p in w.pulls ==> SoundPull(w, w.pulls[p]))
    && HeldIsYoungest(w)
  }

  lemma TickKeeps(w: World, cfg: Config, to: real)
    requires Inv(w, cfg) && w.now <= to
    ensures Inv(w.(now := to), cfg)
  {
    var w' := w.(now := to);
    assert forall issuer, entries, basis :: Complete(w, issuer, entries, basis) ==> Complete(w', issuer, entries, basis);
    forall p | p in w'.pulls ensures SoundPull(w', w'.pulls[p]) { assert SoundPull(w, w.pulls[p]); }
  }

  /** A new record comes after everything already answered or signed. */
  lemma RecordKeeps(w: World, cfg: Config, iss: string, jti: string)
    requires Inv(w, cfg) && iss in w.installed && (iss, jti) !in w.cp
    ensures Inv(w.(cp := w.cp[(iss, jti) := w.now]), cfg)
  {
    var w' := w.(cp := w.cp[(iss, jti) := w.now]);
    assert forall issuer, entries, basis ::
      Complete(w, issuer, entries, basis) && basis <= w.now ==> Complete(w', issuer, entries, basis);
    forall p | p in w'.pulls ensures SoundPull(w', w'.pulls[p]) { assert SoundPull(w, w.pulls[p]); }
  }

  lemma AnswerKeeps(w: World, cfg: Config, p: nat)
    requires Inv(w, cfg) && p in w.pulls && w.pulls[p].Asked?
    ensures Inv(Taken(w, cfg, PullAnswer(p)), cfg)
  {
    var w' := Taken(w, cfg, PullAnswer(p));
    var aid := w.pulls[p].aid;
    assert SoundPull(w, w.pulls[p]);
    assert Complete(w', aid, CpEntries(w, aid), w.now) by {
      forall jti | (aid, jti) in w'.cp ensures jti in CpEntries(w, aid) { assert (aid, jti) in w.cp; }
    }
    SameFacts(w, w', cfg);
  }

  /** Lists and records are sound whatever becomes of the pulls. */
  lemma SameFacts(w: World, w': World, cfg: Config)
    requires Inv(w, cfg) && w'.now == w.now && w'.cp == w.cp && w'.aid == w.aid && w'.installed == w.installed
    ensures SoundRecords(w')
    ensures forall l :: SoundList(w, cfg, l) ==> SoundList(w', cfg, l)
    ensures forall pull :: SoundPull(w, pull) ==> SoundPull(w', pull)
  {
    assert forall issuer, entries, basis :: Complete(w, issuer, entries, basis) ==> Complete(w', issuer, entries, basis);
  }

  lemma SignKeeps(w: World, cfg: Config, p: nat)
    requires Inv(w, cfg) && Enabled(w, cfg, SignAnswer(p))
    ensures Inv(Taken(w, cfg, SignAnswer(p)), cfg)
  {
    var w' := Taken(w, cfg, SignAnswer(p));
    var pull := w.pulls[p];
    var basis := BasisOf(w, pull);
    assert SoundPull(w, pull);
    FloorFacts(w.now);
    assert Complete(w, w.aid, pull.entries, basis) by {
      if pull.aid != w.aid {
        forall jti | (w.aid, jti) in w.cp ensures basis <= w.cp[(w.aid, jti)] {
          assert w.installed[w.aid] <= w.cp[(w.aid, jti)];
        }
      }
    }
    var signed := Issued(Sign(pull.entries, w.aid, cfg.ttl, w.now), basis);
    assert SoundList(w, cfg, signed);
    SameFacts(w, w', cfg);
    if w.inForce.Some? {
      FloorBelow(w.inForce.value.list.publishedAt, w.now);
    }
  }

  lemma FloorFacts(t: real)
    ensures t.Floor as real <= t < t.Floor as real + 1.0
  {
  }

  lemma FloorBelow(n: int, t: real)
    requires n as real <= t
    ensures n <= t.Floor
  {
  }

  /** The new key has no records yet, and every pull under way started before it. */
  lemma RotateKeeps(w: World, cfg: Config, newAid: string)
    requires Inv(w, cfg) && newAid !in w.installed
    ensures Inv(Taken(w, cfg, Rotate(newAid)), cfg)
  {
    var w' := Taken(w, cfg, Rotate(newAid));
    assert forall jti :: (newAid, jti) !in w.cp;
    assert forall issuer, entries, basis :: Complete(w, issuer, entries, basis) ==> Complete(w', issuer, entries, basis);
    forall p | p in w'.pulls ensures SoundPull(w', w'.pulls[p]) { assert SoundPull(w, w.pulls[p]); }
  }

  lemma NextKeeps(w: World, cfg: Config, step: Step)
    requires Inv(w, cfg)
    ensures Inv(Next(w, cfg, step), cfg)
  {
    if Enabled(w, cfg, step) {
      match step
      case Tick(to) => TickKeeps(w, cfg, to);
      case Record(iss, jti) => if (iss, jti) !in w.cp { RecordKeeps(w, cfg, iss, jti); }
      case PullAnswer(p) => AnswerKeeps(w, cfg, p);
      case SignAnswer(p) => SignKeeps(w, cfg, p);
      case Rotate(newAid) => RotateKeeps(w, cfg, newAid);
      case _ => SameFacts(w, Taken(w, cfg, step), cfg);
    }
  }

  lemma InitialInv(cfg: Config, aid: string, start: real)
    ensures Inv(Initial(aid, start), cfg)
  {
  }

  lemma {:induction false} RunKeeps(run: Run, k: nat)
    requires k <= |run.steps|
    ensures Inv(After(run, k), run.cfg)
  {
    hide Next, Inv;
    if k == 0 {
      InitialInv(run.cfg, run.aid, run.start);
    } else {
      RunKeeps(run, k - 1);
      NextKeeps(After(run, k - 1), run.cfg, run.steps[k - 1]);
    }
  }

  // ---- the latency bound ----

  /** At any moment, a recorded jti of the current key that the agent still honours was
      recorded less than one signing delay and the staleness budget ago, and less than one
      signing delay and the list lifetime ago. */
  lemma HonouredMeansRecent(w: World, cfg: Config, jti: string)
    requires Inv(w, cfg) && cfg.failMode != "soft_fail"
    requires (w.aid, jti) in w.cp && Honours(w, cfg, jti)
    ensures WithinBound(cfg, w.cp[(w.aid, jti)], w.now)
  {
    CurrentIffInsideWindow(DenialsOf(w), cfg.maxStaleness, w.now);
    var l := w.inForce.value;
    assert SoundList(w, cfg, l);
    assert jti !in l.list.entries;
  }

  /** The latency bound: the smaller of budget and lifetime, plus one signing delay. */
  predicate WithinBound(cfg: Config, recorded: real, now: real) {
    now <= recorded + cfg.maxStaleness as real + cfg.delay && now < recorded + cfg.ttl as real + cfg.delay
  }

  /** Once recorded, always recorded, and with the same time. */
  lemma {:induction false} RecordsStay(run: Run, i: nat, k: nat, key: (string, string))
    requires i <= k <= |run.steps| && key in After(run, i).cp
    ensures key in After(run, k).cp && After(run, k).cp[key] == After(run, i).cp[key]
  {
    if i < k {
      RecordsStay(run, i, k - 1, key);
    }
  }

  /** Main result: under any fail mode but `soft_fail`, in every interleaving of polls,
      admin refreshes, failed pulls, discarded lists and key rotations, a jti the control
      plane records for its issuer at step i is honoured by that issuer at no later moment
      than one signing delay and the staleness budget after, and strictly before one signing
      delay and the list lifetime after. */
  lemma LatencyBound(run: Run, i: nat, k: nat, jti: string)
    requires i < k <= |run.steps| && run.cfg.failMode != "soft_fail"
    requires var w := After(run, i);
             run.steps[i] == Record(After(run, k).aid, jti) && Enabled(w, run.cfg, run.steps[i])
    requires Honours(After(run, k), run.cfg, jti)
    ensures WithinBound(run.cfg, After(run, i).now, After(run, k).now)
  {
    hide Honours, Inv;
    var key := (After(run, k).aid, jti);
    RunKeeps(run, i);
    RunKeeps(run, k);
    RecordedBy(After(run, i), run.cfg, key.0, jti);
    assert After(run, i + 1) == Next(After(run, i), run.cfg, run.steps[i]);
    RecordsStay(run, i + 1, k, key);
    HonouredMeansRecent(After(run, k), run.cfg, jti);
  }

  lemma RecordedBy(w: World, cfg: Config, iss: string, jti: string)
    requires Inv(w, cfg) && Enabled(w, cfg, Record(iss, jti))
    ensures var w' := Next(w, cfg, Record(iss, jti)); (iss, jti) in w'.cp && w'.cp[(iss, jti)] <= w.now
  {
  }

  /** The entry is recorded between the answer and the signature over it. */
  function LateRecord(cfg: Config, aid: string, jti: string, d: nat, to: real): Run {
    Run(cfg, aid, 0.0, [PullStart(0), PullAnswer(0), Record(aid, jti), Tick(d as real), SignAnswer(0), Apply(0, true),
                        Tick(to)])
  }

  lemma Unrolled(run: Run, k: nat)
    requires k < |run.steps|
    ensures After(run, 0) == Initial(run.aid, run.start)
    ensures After(run, k + 1) == Next(After(run, k), run.cfg, run.steps[k])
  {
  }

  /** The bound is exact: for every whole delay, this one run honours the jti at exactly the
      moments the bound allows. */
  lemma BoundIsExact(cfg: Config, aid: string, jti: string, d: nat, to: real)
    requires cfg.delay == d as real <= to && cfg.ttl >= 1 && cfg.failMode != "soft_fail"
    ensures var run := LateRecord(cfg, aid, jti, d, to);
            && After(run, 7).now == to && After(run, 7).aid == aid
            && Enabled(After(run, 2), cfg, run.steps[2])
            && (Honours(After(run, 7), cfg, jti) <==> WithinBound(cfg, After(run, 2).now, to))
  {
    hide After;
    var run := LateRecord(cfg, aid, jti, d, to);
    Unrolled(run, 0);
    Unrolled(run, 1);
    Unrolled(run, 2);
    Unrolled(run, 3);
    Unrolled(run, 4);
    Unrolled(run, 5);
    Unrolled(run, 6);
    assert After(run, 1).pulls[0] == Asked(aid, 0.0);
    assert After(run, 2).pulls[0] == Answered(aid, 0.0, 0.0, {});
    assert After(run, 4).now == d as real;
    assert After(run, 5).held.value.list == SignedList({}, aid, d, d + cfg.ttl);
    assert Usable(After(run, 5).held.value.list, aid, After(run, 5).now);
    assert After(run, 6).inForce == After(run, 5).held;
    CurrentIffInsideWindow(DenialsOf(After(run, 7)), cfg.maxStaleness, to);
  }

  /** Under `soft_fail` an agent whose refreshes never get through honours a recorded jti at
      any later time whatever. */
  lemma SoftFailHonours(cfg: Config, aid: string, jti: string, to: real)
    requires cfg.failMode == "soft_fail" && 0.0 <= to
    ensures var run := Run(cfg, aid, 0.0, [Record(aid, jti), Tick(to)]);
            && After(run, 0).now == 0.0 && After(run, 2).now == to && After(run, 2).aid == aid
            && Enabled(After(run, 0), cfg, run.steps[0])
            && Honours(After(run, 2), cfg, jti)
  {
    var run := Run(cfg, aid, 0.0, [Record(aid, jti), Tick(to)]);
    Unrolled(run, 0);
    Unrolled(run, 1);
  }

  /** Step k finds a jti honoured more than `b` after its record at step i. */
  ghost predicate HonouredLate(run: Run, i: nat, k: nat, jti: string, b: real) {
    && i < k <= |run.steps|
    && run.steps[i] == Record(After(run, k).aid, jti) && Enabled(After(run, i), run.cfg, run.steps[i])
    && Honours(After(run, k), run.cfg, jti)
    && After(run, k).now > After(run, i).now + b
  }

  ghost predicate Bounds(cfg: Config, b: real) {
    forall run: Run, i: nat, k: nat, jti :: run.cfg == cfg ==> !HonouredLate(run, i, k, jti, b)
  }

  /** Main result: an agent has some latency bound, over all its runs, exactly when its fail
      mode is not `soft_fail` — any other string, recognised or not, will do. */
  lemma BoundedIffNotSoftFail(cfg: Config)
    ensures (exists b :: Bounds(cfg, b)) <==> cfg.failMode != "soft_fail"
  {
    hide After, Honours, Enabled;
    if cfg.failMode != "soft_fail" {
      var b := cfg.maxStaleness as real + cfg.delay;
      forall run: Run, i: nat, k: nat, jti | run.cfg == cfg
        ensures !HonouredLate(run, i, k, jti, b)
      {
        if HonouredLate(run, i, k, jti, b) {
          LatencyBound(run, i, k, jti);
        }
      }
      assert Bounds(cfg, b);
    } else {
      forall b
        ensures !Bounds(cfg, b)
      {
        var to := if b < 0.0 then 1.0 else b + 1.0;
        var run := Run(cfg, "agent", 0.0, [Record("agent", "token"), Tick(to)]);
        SoftFailHonours(cfg, "agent", "token", to);
        assert HonouredLate(run, 0, 2, "token", b);
      }
    }
  }

  // ---- local revocations ----

  lemma {:induction false} LocalStays(run: Run, i: nat, k: nat, jti: string)
    requires i <= k <= |run.steps| && jti in After(run, i).local
    ensures jti in After(run, k).local
  {
    if i < k {
      LocalStays(run, i, k - 1, jti);
    }
  }

  /** A local revocation holds from then on, whatever snapshots come and under any mode. */
  lemma LocalRevocationIsForever(run: Run, i: nat, k: nat, jti: string)
    requires i < k <= |run.steps| && run.steps[i] == LocalRevoke(jti)
    ensures !Honours(After(run, k), run.cfg, jti)
  {
    assert After(run, i + 1) == Next(After(run, i), run.cfg, run.steps[i]);
    LocalStays(run, i + 1, k, jti);
  }

  // ---- what is served, and what is enforced ----

  function Served(w: World, cfg: Config): Option<SignedList> {
    Serveable(HeldList(w), w.aid, true, cfg.ttl, w.now).0
  }

  /** When the list route answers 503, the agent is degraded too — unless the key was
      rotated since the held list was signed. */
  lemma UnavailableMeansDegraded(run: Run, k: nat)
    requires k <= |run.steps|
    ensures var w := After(run, k);
            Served(w, run.cfg).None? && !(w.held.Some? && w.held.value.list.signer != w.aid)
            ==> PostureOf(DenialsOf(w), true, run.cfg.maxStaleness, w.now) == Degraded
  {
    hide After;
    RunKeeps(run, k);
  }

  /** Main result: the 503 and the posture disagree exactly when the key was rotated since the
      held list was signed and the snapshot in force is still young and unexpired. */
  lemma UnavailableDisagreesIff(run: Run, k: nat)
    requires k <= |run.steps|
    ensures var w := After(run, k);
            Served(w, run.cfg).None? && PostureOf(DenialsOf(w), true, run.cfg.maxStaleness, w.now) != Degraded
            <==> && w.held.Some? && w.held.value.list.signer != w.aid && w.inForce.Some?
                 && w.now < w.inForce.value.list.expiresAt as real
                 && w.now <= w.inForce.value.list.publishedAt as real + run.cfg.maxStaleness as real
  {
    hide After;
    UnavailableMeansDegraded(run, k);
    var w := After(run, k);
    CurrentIffInsideWindow(DenialsOf(w), run.cfg.maxStaleness, w.now);
  }

  /** Right after a rotation nothing is served, and what the old key's snapshot allowed just
      before is still allowed. */
  lemma RotationPartsThem(run: Run, k: nat)
    requires k < |run.steps| && run.steps[k].Rotate? && Enabled(After(run, k), run.cfg, run.steps[k])
    ensures var w, w' := After(run, k), After(run, k + 1);
            && Served(w', run.cfg).None?
            && PostureOf(DenialsOf(w'), true, run.cfg.maxStaleness, w'.now)
               == PostureOf(DenialsOf(w), true, run.cfg.maxStaleness, w.now)
  {
    RunKeeps(run, k);
  }

  /** A run that gets there: one refresh, then a rotation. */
  lemma RotationLeavesItCurrent(cfg: Config, aid: string, newAid: string)
    requires newAid != aid && cfg.ttl >= 1 && cfg.maxStaleness >= 0 && cfg.delay >= 0.0
    ensures var run := Run(cfg, aid, 0.0, [PullStart(0), PullAnswer(0), SignAnswer(0), Apply(0, true), Rotate(newAid)]);
            var w := After(run, 5);
            Served(w, cfg).None? && PostureOf(DenialsOf(w), true, cfg.maxStaleness, w.now) == Current
  {
    hide After;
    var run := Run(cfg, aid, 0.0, [PullStart(0), PullAnswer(0), SignAnswer(0), Apply(0, true), Rotate(newAid)]);
    Unrolled(run, 0);
    Unrolled(run, 1);
    Unrolled(run, 2);
    Unrolled(run, 3);
    Unrolled(run, 4);
    assert After(run, 2).pulls[0] == Answered(aid, 0.0, 0.0, {});
    assert After(run, 3).held.value.list == SignedList({}, aid, 0, cfg.ttl);
    assert After(run, 4).inForce == After(run, 3).held;
  }

  /** Step i is a control-plane answer of exactly these entries, for the issuer asked. */
  ghost predicate AnswersWith(run: Run, i: nat, entries: set<string>)
    requires i < |run.steps|
  {
    var w := After(run, i);
    run.steps[i].PullAnswer? && Enabled(w, run.cfg, run.steps[i])
    && entries == CpEntries(w, w.pulls[run.steps[i].p].aid)
  }

  ghost predicate Sourced(run: Run, k: nat, entries: set<string>)
    requires k <= |run.steps|
  {
    exists i: nat :: i < k && AnswersWith(run, i, entries)
  }

  ghost predicate AllSourced(run: Run, k: nat)
    requires k <= |run.steps|
  {
    var w := After(run, k);
    && (forall p :: p in w.pulls && w.pulls[p].Answered? ==> Sourced(run, k, w.pulls[p].entries))
    && (w.held.Some? ==> Sourced(run, k, w.held.value.list.entries))
    && (w.inForce.Some? ==> Sourced(run, k, w.inForce.value.list.entries))
  }

  lemma SourcedStays(run: Run, k: nat)
    requires k < |run.steps|
    ensures forall entries :: Sourced(run, k, entries) ==> Sourced(run, k + 1, entries)
  {
  }

  lemma {:induction false} EverythingIsSourced(run: Run, k: nat)
    requires k <= |run.steps|
    ensures AllSourced(run, k)
  {
    hide Sourced;
    if k > 0 {
      var m := k - 1;
      EverythingIsSourced(run, m);
      SourcedStays(run, m);
      var w := After(run, m);
      if run.steps[m].PullAnswer? && Enabled(w, run.cfg, run.steps[m]) {
        AnswerIsSource(run, m);
      }
    }
  }

  lemma AnswerIsSource(run: Run, k: nat)
    requires k < |run.steps| && run.steps[k].PullAnswer? && Enabled(After(run, k), run.cfg, run.steps[k])
    ensures var w := After(run, k); Sourced(run, k + 1, CpEntries(w, w.pulls[run.steps[k].p].aid))
  {
    assert AnswersWith(run, k, CpEntries(After(run, k), After(run, k).pulls[run.steps[k].p].aid));
  }

  /** Everything ever served is unexpired, signed by the current key, and carries exactly
      the entries of some successful control-plane answer; so does what is enforced. */
  lemma ServedComesFromAnAnswer(run: Run, k: nat)
    requires k <= |run.steps|
    ensures var w := After(run, k);
            && (Served(w, run.cfg).Some? ==>
                  && Usable(Served(w, run.cfg).value, w.aid, w.now)
                  && Sourced(run, k, Served(w, run.cfg).value.entries))
            && (w.inForce.Some? ==> Sourced(run, k, w.inForce.value.list.entries))
  {
    hide After, Sourced;
    EverythingIsSourced(run, k);
  }

  /** At step i the held list, of the current key and unexpired, was verified and applied. */
  ghost predicate PutsInForce(run: Run, i: nat, l: Issued)
    requires i < |run.steps|
  {
    var w := After(run, i);
    && run.steps[i].Apply? && run.steps[i].verifies && Enabled(w, run.cfg, run.steps[i])
    && w.held == Some(l) && l.list.signer == w.aid && w.now < l.list.expiresAt as real
  }

  /** Main result: whatever is in force was, at some earlier step, the list held, of the key
      of that moment and unexpired, and passed verification there: a discarded list never
      takes effect, not even in part. */
  lemma {:induction false} InForceWasVerified(run: Run, k: nat)
    requires k <= |run.steps|
    ensures var w := After(run, k);
            w.inForce.Some? ==> exists i: nat :: i < k && PutsInForce(run, i, w.inForce.value)
  {
    if k > 0 {
      var m := k - 1;
      InForceWasVerified(run, m);
      var w, w' := After(run, m), After(run, k);
      if w'.inForce.Some? && w'.inForce != w.inForce {
        assert PutsInForce(run, m, w'.inForce.value);
      }
    }
  }

  /** And a verified apply of such a list does take effect, whatever was in force before. */
  lemma VerifiedTakesEffect(run: Run, k: nat, l: Issued)
    requires k < |run.steps| && PutsInForce(run, k, l)
    ensures After(run, k + 1).inForce == Some(l)
  {
  }

  // ---- only a signature makes the view younger ----

  function Youngest(w: World): Option<int> {
    if w.held.Some? then Some(w.held.value.list.publishedAt) else None
  }

  /** Failed pulls, discarded or re-applied lists, ticks and rotations never make the
      agent's view younger: no snapshot in force is younger than the list held, and only a
      signature over a control-plane answer replaces that list. */
  lemma OnlySigningMakesYounger(run: Run, k: nat)
    requires k < |run.steps| && !run.steps[k].SignAnswer?
    ensures Youngest(After(run, k + 1)) == Youngest(After(run, k))
    ensures var w := After(run, k + 1);
            w.inForce.Some? ==> w.held.Some? && w.inForce.value.list.publishedAt <= Youngest(w).value
  {
    RunKeeps(run, k + 1);
  }
}
