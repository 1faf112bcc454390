/** Fan-out of run events to subscribers (src/aitp_playground/runner/store.py). An append
    is one step under the lock; telling each subscriber's loop, the loop running its
    callback, and the subscriber taking an event are steps of their own, so the steps of
    any number of producers and subscribers interleave freely. */
module EventBus {
  import opened RunStores

  const QUEUE_LIMIT: nat := 500

  /** What has become of the log positions meant for one subscriber: handed to its loop,
      waiting in its queue, taken by it, or dropped (queue full or loop closed). */
  datatype Mailbox = Mailbox(run: string, backlog: nat, handed: seq<nat>, queue: seq<nat>, consumed: seq<nat>, dropped: seq<nat>)

  /** `posts` holds, per event still being announced, the subscribers not yet told. */
  datatype Bus = Bus(store: Store, boxes: map<nat, Mailbox>, posts: map<(string, nat), seq<nat>>)

  datatype Step =
    | Append(run: string, event: Event, now: string)
    | Write(run: string, update: Record, now: string)
    | WriteUnlessCancelled(run: string, update: Record, now: string)
    | Notify(run: string, index: nat, closed: bool)
    | Callback(q: nat)
    | Take(q: nat)
    | Join(run: string, q: nat)
    | Leave(run: string, q: nat)

  function Announce(b: Bus, run: string, e: Event, now: string): Bus {
    var (store, subs) := AppendEvent(b.store, run, e, now);
    Bus(store, b.boxes, if subs == [] then b.posts else b.posts[(run, |EventsOf(b.store, run)|) := subs])
  }

  /** Tell the next subscriber's loop about the event. */
  function Tell(b: Bus, run: string, index: nat, closed: bool): Bus {
    var key := (run, index);
    if key !in b.posts || b.posts[key] == [] || b.posts[key][0] !in b.boxes then b
    else
      var q, rest := b.posts[key][0], b.posts[key][1..];
      var m := b.boxes[q];
      var m' := if closed then m.(dropped := m.dropped + [index]) else m.(handed := m.handed + [index]);
      b.(boxes := b.boxes[q := m'], posts := if rest == [] then b.posts - {key} else b.posts[key := rest])
  }

  /** The subscriber's loop runs its oldest callback: into the queue, or dropped when full. */
  function Deliver(m: Mailbox): Mailbox {
    if m.handed == [] then m
    else if |m.queue| < QUEUE_LIMIT then m.(handed := m.handed[1..], queue := m.queue + [m.handed[0]])
    else m.(handed := m.handed[1..], dropped := m.dropped + [m.handed[0]])
  }

  function TakeOne(m: Mailbox): Mailbox {
    if m.queue == [] then m else m.(queue := m.queue[1..], consumed := m.consumed + [m.queue[0]])
  }

  /** One step; a step that is not possible changes nothing. */
  function Next(b: Bus, step: Step): Bus {
    match step
    case Append(run, e, now) => Announce(b, run, e, now)
    case Write(run, update, now) => b.(store := Upsert(b.store, run, update, now))
    case WriteUnlessCancelled(run, update, now) => b.(store := UpsertUnlessCancelled(b.store, run, update, now).0)
    case Notify(run, index, closed) => Tell(b, run, index, closed)
    case Callback(q) => if q in b.boxes then b.(boxes := b.boxes[q := Deliver(b.boxes[q])]) else b
    case Take(q) => if q in b.boxes then b.(boxes := b.boxes[q := TakeOne(b.boxes[q])]) else b
    case Join(run, q) =>
      if q in b.boxes then b
      else
        var (store, backlog) := Subscribe(b.store, run, q);
        b.(store := store, boxes := b.boxes[q := Mailbox(run, |backlog|, [], [], [], [])])
    case Leave(run, q) => b.(store := Unsubscribe(b.store, run, q))
  }

  const START := Bus(EMPTY, map[], map[])

  function After(steps: seq<Step>, k: nat): Bus
    requires k <= |steps|
  {
    if k == 0 then START else Next(After(steps, k - 1), steps[k - 1])
  }

  // ---- conservation ----

  function Length(b: Bus, run: string): nat {
    |EventsOf(b.store, run)|
  }

  ghost predicate IsLive(b: Bus, q: nat) {
    q in b.boxes && q in SubscribersOf(b.store, b.boxes[q].run)
  }

  /** How often position `i` occurs among the places it can be once announced. */
  function Held(m: Mailbox, i: nat): nat {
    multiset(m.handed)[i] + multiset(m.queue)[i] + multiset(m.consumed)[i] + multiset(m.dropped)[i]
  }

  predicate Pending(b: Bus, q: nat, run: string, i: nat) {
    (run, i) in b.posts && q in b.posts[(run, i)]
  }

  /** How often position `i` is on its way to, or has reached, subscriber `q`. */
  function Copies(b: Bus, q: nat, i: nat): nat
    requires q in b.boxes
  {
    Held(b.boxes[q], i) + if Pending(b, q, b.boxes[q].run, i) then 1 else 0
  }

  ghost predicate NoDuplicates(s: seq<nat>) {
    forall i, j :: 0 <= i < j < |s| ==> s[i] != s[j]
  }

  ghost predicate SubscribersOk(b: Bus) {
    forall run :: NoDuplicates(SubscribersOf(b.store, run))
                  && forall q :: q in SubscribersOf(b.store, run) ==> q in b.boxes && b.boxes[q].run == run
  }

  ghost predicate PostsOk(b: Bus) {
    forall key :: key in b.posts ==>
      && key.1 < Length(b, key.0) && b.posts[key] != [] && NoDuplicates(b.posts[key])
      && forall q :: q in b.posts[key] ==> q in b.boxes && b.boxes[q].run == key.0
  }

  /** Positions before the backlog or beyond the log are nowhere; the others are in one
      place, or in none if the subscriber left before they were announced. */
  ghost predicate CopiesOk(b: Bus, q: nat, i: nat)
    requires q in b.boxes
  {
    var m := b.boxes[q];
    && m.backlog <= Length(b, m.run)
    && Copies(b, q, i) <= (if m.backlog <= i < Length(b, m.run) then 1 else 0)
    && (IsLive(b, q) && m.backlog <= i < Length(b, m.run) ==> Copies(b, q, i) == 1)
  }

  ghost predicate Conserved(b: Bus) {
    SubscribersOk(b) && PostsOk(b) && forall q, i :: q in b.boxes ==> CopiesOk(b, q, i)
  }

  ghost predicate EventFree(step: Step) {
    (step.Write? || step.WriteUnlessCancelled?) ==> step.update.events == []
  }

  /** What an append does, for each run: one more event for its own, the same subscribers. */
  lemma AppendFacts(s: Store, run: string, e: Event, now: string)
    ensures var (t, subs) := AppendEvent(s, run, e, now);
            && subs == SubscribersOf(s, run)
            && (forall other :: SubscribersOf(t, other) == SubscribersOf(s, other))
            && (forall other :: |EventsOf(t, other)| == |EventsOf(s, other)| + if other == run then 1 else 0)
  {
  }

  lemma AnnounceKeepsLists(b: Bus, run: string, e: Event, now: string)
    requires SubscribersOk(b) && PostsOk(b)
    ensures SubscribersOk(Announce(b, run, e, now)) && PostsOk(Announce(b, run, e, now))
  {
    hide AppendEvent, EventsOf, SubscribersOf, NoDuplicates;
    AppendFacts(b.store, run, e, now);
  }

  lemma AnnounceKeepsCopies(b: Bus, run: string, e: Event, now: string, q: nat, i: nat)
    requires SubscribersOk(b) && PostsOk(b) && q in b.boxes && CopiesOk(b, q, i)
    ensures CopiesOk(Announce(b, run, e, now), q, i)
  {
    hide AppendEvent, EventsOf, SubscribersOf, NoDuplicates, Held;
    AppendFacts(b.store, run, e, now);
    assert (run, Length(b, run)) !in b.posts;
  }

  lemma AnnounceConserves(b: Bus, run: string, e: Event, now: string)
    requires Conserved(b)
    ensures Conserved(Announce(b, run, e, now))
  {
    hide AppendEvent, EventsOf, SubscribersOf, CopiesOk, SubscribersOk, PostsOk;
    AnnounceKeepsLists(b, run, e, now);
    forall q, i | q in b.boxes
      ensures CopiesOk(Announce(b, run, e, now), q, i)
    {
      AnnounceKeepsCopies(b, run, e, now, q, i);
    }
  }

  lemma WriteFacts(s: Store, run: string, update: Record, now: string)
    requires update.events == []
    ensures var t := Upsert(s, run, update, now);
            && (forall other :: EventsOf(t, other) == EventsOf(s, other))
            && (forall other :: SubscribersOf(t, other) == SubscribersOf(s, other))
  {
  }

  lemma WriteConserves(b: Bus, run: string, update: Record, now: string)
    requires Conserved(b) && update.events == []
    ensures Conserved(b.(store := Upsert(b.store, run, update, now)))
  {
    hide Held, Upsert, EventsOf, SubscribersOf, NoDuplicates;
    WriteFacts(b.store, run, update, now);
    var b' := b.(store := Upsert(b.store, run, update, now));
    forall q, i | q in b'.boxes
      ensures CopiesOk(b', q, i)
    {
      assert CopiesOk(b, q, i);
    }
  }

  lemma SnocCount(s: seq<nat>, x: nat, i: nat)
    ensures multiset(s + [x])[i] == multiset(s)[i] + if i == x then 1 else 0
  {
  }

  lemma TellHolds(m: Mailbox, index: nat, i: nat)
    ensures Held(m.(handed := m.handed + [index]), i) == Held(m, i) + if i == index then 1 else 0
    ensures Held(m.(dropped := m.dropped + [index]), i) == Held(m, i) + if i == index then 1 else 0
  {
    SnocCount(m.handed, index, i);
    SnocCount(m.dropped, index, i);
  }

  /** The told subscriber is no longer among those to tell; the others still are. */
  lemma FirstOfPost(qs: seq<nat>)
    requires qs != [] && NoDuplicates(qs)
    ensures qs[0] in qs && qs[0] !in qs[1..] && NoDuplicates(qs[1..])
    ensures forall q :: q in qs <==> q == qs[0] || q in qs[1..]
  {
  }

  lemma TellKeepsLists(b: Bus, run: string, index: nat, closed: bool)
    requires SubscribersOk(b) && PostsOk(b)
    ensures SubscribersOk(Tell(b, run, index, closed)) && PostsOk(Tell(b, run, index, closed))
  {
    hide EventsOf, SubscribersOf, NoDuplicates;
    var key := (run, index);
    if key in b.posts && b.posts[key] != [] {
      FirstOfPost(b.posts[key]);
    }
  }

  lemma TellKeepsCopies(b: Bus, run: string, index: nat, closed: bool, q: nat, i: nat)
    requires PostsOk(b) && q in b.boxes && CopiesOk(b, q, i)
    ensures CopiesOk(Tell(b, run, index, closed), q, i)
  {
    hide EventsOf, SubscribersOf, NoDuplicates, Held;
    var key := (run, index);
    if key in b.posts && b.posts[key] != [] {
      FirstOfPost(b.posts[key]);
      TellHolds(b.boxes[q], index, i);
    }
  }

  lemma TellConserves(b: Bus, run: string, index: nat, closed: bool)
    requires Conserved(b)
    ensures Conserved(Tell(b, run, index, closed))
  {
    hide EventsOf, SubscribersOf, CopiesOk, SubscribersOk, PostsOk;
    TellKeepsLists(b, run, index, closed);
    forall q, i | q in b.boxes
      ensures CopiesOk(Tell(b, run, index, closed), q, i)
    {
      TellKeepsCopies(b, run, index, closed, q, i);
    }
  }

  /** Moving the head of one queue to the end of another loses and repeats nothing. */
  lemma HeadMoves(s: seq<nat>, t: seq<nat>, i: nat)
    requires s != []
    ensures multiset(s[1..])[i] + multiset(t + [s[0]])[i] == multiset(s)[i] + multiset(t)[i]
  {
    assert s == [s[0]] + s[1..];
    SnocCount(t, s[0], i);
  }

  lemma DeliverHolds(m: Mailbox, i: nat)
    ensures Held(Deliver(m), i) == Held(m, i)
  {
    if m.handed != [] {
      HeadMoves(m.handed, m.queue, i);
      HeadMoves(m.handed, m.dropped, i);
    }
  }

  lemma TakeHolds(m: Mailbox, i: nat)
    ensures Held(TakeOne(m), i) == Held(m, i)
  {
    if m.queue != [] {
      HeadMoves(m.queue, m.consumed, i);
    }
  }

  lemma MoveConserves(b: Bus, q: nat, m: Mailbox)
    requires Conserved(b) && q in b.boxes && (m == Deliver(b.boxes[q]) || m == TakeOne(b.boxes[q]))
    ensures Conserved(b.(boxes := b.boxes[q := m]))
  {
    hide Held, EventsOf, SubscribersOf, NoDuplicates;
    var b' := b.(boxes := b.boxes[q := m]);
    forall p, i | p in b'.boxes
      ensures CopiesOk(b', p, i)
    {
      assert CopiesOk(b, p, i);
      DeliverHolds(b.boxes[q], i);
      TakeHolds(b.boxes[q], i);
    }
  }

  lemma JoinFacts(b: Bus, run: string, q: nat)
    requires q !in b.boxes
    ensures var b' := Next(b, Join(run, q));
            && b'.posts == b.posts && b'.boxes == b.boxes[q := Mailbox(run, Length(b, run), [], [], [], [])]
            && (forall other :: EventsOf(b'.store, other) == EventsOf(b.store, other))
            && SubscribersOf(b'.store, run) == SubscribersOf(b.store, run) + [q]
            && (forall other :: other != run ==> SubscribersOf(b'.store, other) == SubscribersOf(b.store, other))
  {
  }

  lemma JoinKeepsLists(b: Bus, run: string, q: nat)
    requires SubscribersOk(b) && PostsOk(b) && q !in b.boxes
    ensures SubscribersOk(Next(b, Join(run, q))) && PostsOk(Next(b, Join(run, q)))
  {
    hide Next, EventsOf, SubscribersOf;
    JoinFacts(b, run, q);
  }

  lemma JoinKeepsCopies(b: Bus, run: string, q: nat, p: nat, i: nat)
    requires PostsOk(b) && q !in b.boxes && (p == q || (p in b.boxes && CopiesOk(b, p, i)))
    ensures p in Next(b, Join(run, q)).boxes && CopiesOk(Next(b, Join(run, q)), p, i)
  {
    hide Next, EventsOf, SubscribersOf, NoDuplicates;
    JoinFacts(b, run, q);
  }

  lemma JoinConserves(b: Bus, run: string, q: nat)
    requires Conserved(b)
    ensures Conserved(Next(b, Join(run, q)))
  {
    if q !in b.boxes {
      hide Next, EventsOf, SubscribersOf, CopiesOk, SubscribersOk, PostsOk;
      JoinFacts(b, run, q);
      JoinKeepsLists(b, run, q);
      forall p, i | p in b.boxes || p == q
        ensures CopiesOk(Next(b, Join(run, q)), p, i)
      {
        JoinKeepsCopies(b, run, q, p, i);
      }
    }
  }

  lemma {:induction false} WithoutKeepsDistinct(qs: seq<nat>, q: nat)
    requires NoDuplicates(qs)
    ensures NoDuplicates(Without(qs, q))
  {
    if qs != [] {
      var init, last := qs[..|qs| - 1], qs[|qs| - 1];
      WithoutKeepsDistinct(init, q);
      assert last !in init;
      assert last !in Without(init, q);
    }
  }

  lemma LeaveConserves(b: Bus, run: string, q: nat)
    requires Conserved(b)
    ensures Conserved(Next(b, Leave(run, q)))
  {
    hide Held;
    var b' := Next(b, Leave(run, q));
    WithoutKeepsDistinct(SubscribersOf(b.store, run), q);
    assert SubscribersOf(b'.store, run) == Without(SubscribersOf(b.store, run), q);
    assert forall other :: other != run ==> SubscribersOf(b'.store, other) == SubscribersOf(b.store, other);
    assert forall other :: EventsOf(b'.store, other) == EventsOf(b.store, other);
    assert SubscribersOk(b');
    forall p, i | p in b'.boxes
      ensures CopiesOk(b', p, i)
    {
      assert CopiesOk(b, p, i);
    }
  }

  lemma NextConserves(b: Bus, step: Step)
    requires Conserved(b) && EventFree(step)
    ensures Conserved(Next(b, step))
  {
    hide Conserved, Announce, Tell, Deliver, TakeOne, Upsert;
    match step
    case Append(run, e, now) => AnnounceConserves(b, run, e, now);
    case Write(run, update, now) => WriteConserves(b, run, update, now);
    case WriteUnlessCancelled(run, update, now) => WriteConserves(b, run, update, now);
    case Notify(run, index, closed) => TellConserves(b, run, index, closed);
    case Callback(q) => if q in b.boxes { MoveConserves(b, q, Deliver(b.boxes[q])); }
    case Take(q) => if q in b.boxes { MoveConserves(b, q, TakeOne(b.boxes[q])); }
    case Join(run, q) => JoinConserves(b, run, q);
    case Leave(run, q) => LeaveConserves(b, run, q);
  }

  lemma {:induction false} RunConserves(steps: seq<Step>, k: nat)
    requires k <= |steps| && forall i :: 0 <= i < k ==> EventFree(steps[i])
    ensures Conserved(After(steps, k))
  {
    hide Next;
    if k > 0 {
      RunConserves(steps, k - 1);
      NextConserves(After(steps, k - 1), steps[k - 1]);
    }
  }

  /** Main result: in every interleaving, each log position is, for each live subscriber,
      either in its backlog or in exactly one place on its way to it: about to be told,
      handed to its loop, queued, taken, or dropped. */
  lemma NoGapNoDuplicate(steps: seq<Step>, k: nat, q: nat, i: nat)
    requires k <= |steps| && forall j :: 0 <= j < k ==> EventFree(steps[j])
    requires IsLive(After(steps, k), q)
    ensures var b := After(steps, k);
            var m := b.boxes[q];
            && m.backlog <= Length(b, m.run)
            && Copies(b, q, i) == if m.backlog <= i < Length(b, m.run) then 1 else 0
  {
    RunConserves(steps, k);
    assert CopiesOk(After(steps, k), q, i);
  }

  /** Events merged in by an upsert are never announced: with a live subscriber, an upsert
      keeps the bus conserved exactly when it carries no events. */
  lemma UpsertConservesIffEventFree(b: Bus, q: nat, update: Record, now: string)
    requires Conserved(b) && IsLive(b, q)
    ensures Conserved(Next(b, Write(b.boxes[q].run, update, now))) <==> update.events == []
  {
    var m := b.boxes[q];
    var b' := Next(b, Write(m.run, update, now));
    if update.events == [] {
      WriteConserves(b, m.run, update, now);
    } else {
      assert CopiesOk(b, q, Length(b, m.run));
      assert Length(b', m.run) == Length(b, m.run) + |update.events|;
      assert IsLive(b', q);
      assert !CopiesOk(b', q, Length(b, m.run));
    }
  }

  // ---- what is dropped, and what is where ----

  function BoxOf(b: Bus, q: nat): Mailbox {
    if q in b.boxes then b.boxes[q] else Mailbox("", 0, [], [], [], [])
  }

  /** The step tells subscriber q of position i: q is the next to be told. */
  predicate Tells(b: Bus, step: Step, q: nat, i: nat) {
    && step.Notify? && step.index == i && q in b.boxes
    && (step.run, i) in b.posts && b.posts[(step.run, i)] != [] && b.posts[(step.run, i)][0] == q
  }

  /** The step runs the oldest callback of q's loop, which is for position i. */
  predicate CallsBack(b: Bus, step: Step, q: nat, i: nat) {
    step == Callback(q) && BoxOf(b, q).handed != [] && BoxOf(b, q).handed[0] == i
  }

  /** The step loses position i for q: its loop is closed, or its queue is full. */
  predicate Loses(b: Bus, step: Step, q: nat, i: nat) {
    || (Tells(b, step, q, i) && step.closed)
    || (CallsBack(b, step, q, i) && |BoxOf(b, q).queue| >= 500)
  }

  lemma DroppedStep(b: Bus, step: Step, q: nat, i: nat)
    ensures i in BoxOf(Next(b, step), q).dropped <==> i in BoxOf(b, q).dropped || Loses(b, step, q, i)
  {
    hide AppendEvent, Upsert, EventsOf, SubscribersOf, Subscribe, Unsubscribe, UpsertUnlessCancelled;
  }

  /** Main result: a position is dropped for a subscriber exactly when some step told it of
      that position through a closed loop, or ran its callback while 500 positions waited. */
  lemma {:induction false} DroppedIffLost(steps: seq<Step>, k: nat, q: nat, i: nat)
    requires k <= |steps|
    ensures i in BoxOf(After(steps, k), q).dropped
            <==> exists j :: 0 <= j < k && Loses(After(steps, j), steps[j], q, i)
  {
    hide Next, Loses, BoxOf;
    if k == 0 {
      EmptyBox(q);
    } else {
      var m := k - 1;
      DroppedIffLost(steps, m, q, i);
      DroppedStep(After(steps, m), steps[m], q, i);
    }
  }

  lemma EmptyBox(q: nat)
    ensures BoxOf(START, q) == Mailbox("", 0, [], [], [], [])
  {
  }

  /** No step of the run finds a closed loop or a full queue. */
  ghost predicate Lossless(steps: seq<Step>, k: nat, q: nat)
    requires k <= |steps|
  {
    forall j, i :: 0 <= j < k ==> !Loses(After(steps, j), steps[j], q, i)
  }

  lemma LosslessDropsNothing(steps: seq<Step>, k: nat, q: nat)
    requires k <= |steps| && Lossless(steps, k, q)
    ensures BoxOf(After(steps, k), q).dropped == []
  {
    hide After, Loses, BoxOf;
    if BoxOf(After(steps, k), q).dropped != [] {
      var i := BoxOf(After(steps, k), q).dropped[0];
      DroppedIffLost(steps, k, q, i);
    }
  }

  /** How many of the first k steps told q of a position through an open loop, ran a callback
      of its loop, or took a position out of its queue. */
  datatype Doing = Telling | CallingBack | Taking

  predicate Does(b: Bus, step: Step, q: nat, what: Doing) {
    match what
    case Telling => step.Notify? && Tells(b, step, q, step.index) && !step.closed
    case CallingBack => step == Callback(q) && BoxOf(b, q).handed != [] && |BoxOf(b, q).queue| < 500
    case Taking => step == Take(q) && BoxOf(b, q).queue != []
  }

  function Times(steps: seq<Step>, k: nat, q: nat, what: Doing): nat
    requires k <= |steps|
  {
    if k == 0 then 0
    else Times(steps, k - 1, q, what) + if Does(After(steps, k - 1), steps[k - 1], q, what) then 1 else 0
  }

  function FullCallbacks(steps: seq<Step>, k: nat, q: nat): nat
    requires k <= |steps|
  {
    if k == 0 then 0
    else
      var b := After(steps, k - 1);
      FullCallbacks(steps, k - 1, q)
      + if steps[k - 1] == Callback(q) && BoxOf(b, q).handed != [] && |BoxOf(b, q).queue| >= 500 then 1 else 0
  }

  lemma BoxStep(b: Bus, step: Step, q: nat)
    ensures var m, m' := BoxOf(b, q), BoxOf(Next(b, step), q);
            var full := step == Callback(q) && m.handed != [] && |m.queue| >= 500;
            && |m'.consumed| == |m.consumed| + (if Does(b, step, q, Taking) then 1 else 0)
            && |m'.queue| == |m.queue| + (if Does(b, step, q, CallingBack) then 1 else 0) - (if Does(b, step, q, Taking) then 1 else 0)
            && |m'.handed| == |m.handed| + (if Does(b, step, q, Telling) then 1 else 0)
                              - (if Does(b, step, q, CallingBack) then 1 else 0) - (if full then 1 else 0)
  {
    hide AppendEvent, Upsert, EventsOf, SubscribersOf, Subscribe, Unsubscribe, UpsertUnlessCancelled;
  }

  /** Where the positions of a subscriber are, in numbers: taken ones were taken out of the
      queue, which holds what callbacks put there, out of what its open loop was told. */
  lemma {:induction false} BoxIsCounted(steps: seq<Step>, k: nat, q: nat)
    requires k <= |steps|
    ensures var m := BoxOf(After(steps, k), q);
            && |m.consumed| == Times(steps, k, q, Taking)
            && |m.queue| == Times(steps, k, q, CallingBack) - Times(steps, k, q, Taking)
            && |m.handed| == Times(steps, k, q, Telling) - Times(steps, k, q, CallingBack) - FullCallbacks(steps, k, q)
  {
    hide Next, Does, BoxOf;
    if k == 0 {
      EmptyBox(q);
    } else {
      BoxIsCounted(steps, k - 1, q);
      BoxStep(After(steps, k - 1), steps[k - 1], q);
    }
  }

  // ---- order, with one producer per run ----

  /** Everything the subscriber was handed and did not lose, oldest first. */
  function Trail(m: Mailbox): seq<nat> {
    m.consumed + m.queue + m.handed
  }

  function Span(lo: int, hi: int): (s: seq<nat>)
    requires 0 <= lo
    ensures forall i :: 0 <= i < |s| ==> s[i] == lo + i
    ensures |s| == if lo <= hi then hi - lo else 0
    decreases hi - lo
  {
    if lo < hi then Span(lo, hi - 1) + [hi - 1] else []
  }

  /** The first position not yet handed to `q`, when one event is announced at a time. */
  function Reached(b: Bus, q: nat): int
    requires q in b.boxes
  {
    var run := b.boxes[q].run;
    if Length(b, run) > 0 && Pending(b, q, run, Length(b, run) - 1) then Length(b, run) - 1 else Length(b, run)
  }

  ghost predicate OnlyNewestPosted(b: Bus) {
    forall key :: key in b.posts ==> key.1 == Length(b, key.0) - 1
  }

  ghost predicate InOrder(b: Bus, q: nat)
    requires q in b.boxes
  {
    IsLive(b, q) && b.boxes[q].dropped == [] ==> Trail(b.boxes[q]) == Span(b.boxes[q].backlog, Reached(b, q))
  }

  ghost predicate Ordered(b: Bus) {
    OnlyNewestPosted(b) && forall q :: q in b.boxes ==> InOrder(b, q)
  }

  /** The producer of a run announces one event before it appends the next. */
  ghost predicate TakesTurns(b: Bus, step: Step) {
    step.Append? ==> forall i: nat :: (step.run, i) !in b.posts
  }

  /** A live subscriber of the run is about to be told of the new event; the others see nothing. */
  lemma AnnounceKeepsOrder(b: Bus, run: string, e: Event, now: string, q: nat)
    requires SubscribersOk(b) && q in b.boxes && InOrder(b, q) && forall i: nat :: (run, i) !in b.posts
    ensures InOrder(Announce(b, run, e, now), q)
  {
    hide AppendEvent, EventsOf, SubscribersOf, NoDuplicates, Trail;
    AppendFacts(b.store, run, e, now);
    var b' := Announce(b, run, e, now);
    if IsLive(b', q) {
      if b.boxes[q].run == run {
        assert Pending(b', q, run, Length(b, run));
      }
      assert Reached(b', q) == Reached(b, q);
    }
  }

  lemma AnnounceOrders(b: Bus, run: string, e: Event, now: string)
    requires Conserved(b) && Ordered(b) && forall i: nat :: (run, i) !in b.posts
    ensures Ordered(Announce(b, run, e, now))
  {
    hide AppendEvent, EventsOf, SubscribersOf, SubscribersOk, PostsOk, CopiesOk, InOrder;
    AppendFacts(b.store, run, e, now);
    forall q | q in b.boxes
      ensures InOrder(Announce(b, run, e, now), q)
    {
      AnnounceKeepsOrder(b, run, e, now, q);
    }
  }

  lemma WriteOrders(b: Bus, run: string, update: Record, now: string)
    requires Ordered(b) && update.events == []
    ensures Ordered(b.(store := Upsert(b.store, run, update, now)))
  {
    hide Upsert, EventsOf, SubscribersOf, Trail;
    WriteFacts(b.store, run, update, now);
    var b' := b.(store := Upsert(b.store, run, update, now));
    forall q | q in b'.boxes
      ensures InOrder(b', q)
    {
      assert InOrder(b, q);
    }
  }

  lemma TellKeepsOrder(b: Bus, run: string, index: nat, closed: bool, q: nat)
    requires PostsOk(b) && OnlyNewestPosted(b) && q in b.boxes && InOrder(b, q) && CopiesOk(b, q, index)
    ensures InOrder(Tell(b, run, index, closed), q)
  {
    hide EventsOf, SubscribersOf, NoDuplicates, Held, CopiesOk, Trail;
    var key := (run, index);
    if key in b.posts && b.posts[key] != [] {
      FirstOfPost(b.posts[key]);
      TrailGrows(b.boxes[q], index);
      if Pending(b, q, run, index) {
        PendingIsBeyondBacklog(b, q, run, index);
      }
    }
  }

  lemma TellOrders(b: Bus, run: string, index: nat, closed: bool)
    requires Conserved(b) && Ordered(b)
    ensures Ordered(Tell(b, run, index, closed))
  {
    hide EventsOf, SubscribersOf, CopiesOk, SubscribersOk, PostsOk, InOrder;
    forall q | q in b.boxes
      ensures InOrder(Tell(b, run, index, closed), q)
    {
      assert CopiesOk(b, q, index);
      TellKeepsOrder(b, run, index, closed, q);
    }
  }

  lemma TrailGrows(m: Mailbox, index: nat)
    ensures Trail(m.(handed := m.handed + [index])) == Trail(m) + [index]
  {
  }

  lemma PendingIsBeyondBacklog(b: Bus, q: nat, run: string, i: nat)
    requires q in b.boxes && b.boxes[q].run == run && Pending(b, q, run, i) && CopiesOk(b, q, i)
    ensures b.boxes[q].backlog <= i
  {
  }

  lemma HeadMovesOver(s: seq<nat>, t: seq<nat>)
    requires s != []
    ensures (t + [s[0]]) + s[1..] == t + s
  {
  }

  lemma MoveKeepsTrail(m: Mailbox)
    ensures Trail(TakeOne(m)) == Trail(m)
    ensures Deliver(m).dropped == [] ==> m.dropped == [] && Trail(Deliver(m)) == Trail(m)
    ensures TakeOne(m).dropped == m.dropped
    ensures (TakeOne(m).run, TakeOne(m).backlog) == (Deliver(m).run, Deliver(m).backlog) == (m.run, m.backlog)
  {
    if m.handed != [] {
      HeadMovesOver(m.handed, m.queue);
      assert m.consumed + (m.queue + [m.handed[0]]) + m.handed[1..] == m.consumed + ((m.queue + [m.handed[0]]) + m.handed[1..]);
      assert m.consumed + m.queue + m.handed == m.consumed + (m.queue + m.handed);
    }
    if m.queue != [] {
      HeadMovesOver(m.queue, m.consumed);
    }
  }

  lemma MoveOrders(b: Bus, q: nat, m: Mailbox)
    requires Ordered(b) && q in b.boxes && (m == Deliver(b.boxes[q]) || m == TakeOne(b.boxes[q]))
    ensures Ordered(b.(boxes := b.boxes[q := m]))
  {
    hide Deliver, TakeOne, Trail;
    MoveKeepsTrail(b.boxes[q]);
    var b' := b.(boxes := b.boxes[q := m]);
    forall p | p in b'.boxes
      ensures InOrder(b', p)
    {
      assert InOrder(b, p);
    }
  }

  lemma JoinKeepsOrder(b: Bus, run: string, q: nat, p: nat)
    requires PostsOk(b) && q !in b.boxes && (p == q || (p in b.boxes && InOrder(b, p)))
    ensures p in Next(b, Join(run, q)).boxes && InOrder(Next(b, Join(run, q)), p)
  {
    hide Next, EventsOf, SubscribersOf, NoDuplicates;
    JoinFacts(b, run, q);
  }

  lemma JoinOrders(b: Bus, run: string, q: nat)
    requires Conserved(b) && Ordered(b)
    ensures Ordered(Next(b, Join(run, q)))
  {
    if q !in b.boxes {
      hide Next, EventsOf, SubscribersOf, CopiesOk, SubscribersOk, PostsOk, InOrder;
      JoinFacts(b, run, q);
      forall p | p in b.boxes || p == q
        ensures InOrder(Next(b, Join(run, q)), p)
      {
        JoinKeepsOrder(b, run, q, p);
      }
    }
  }

  lemma LeaveOrders(b: Bus, run: string, q: nat)
    requires Ordered(b)
    ensures Ordered(Next(b, Leave(run, q)))
  {
    var b' := Next(b, Leave(run, q));
    assert SubscribersOf(b'.store, run) == Without(SubscribersOf(b.store, run), q);
    assert forall other :: EventsOf(b'.store, other) == EventsOf(b.store, other);
    assert forall other :: other != run ==> SubscribersOf(b'.store, other) == SubscribersOf(b.store, other);
    forall p | p in b'.boxes
      ensures InOrder(b', p)
    {
      assert InOrder(b, p);
    }
  }

  lemma NextOrders(b: Bus, step: Step)
    requires Conserved(b) && Ordered(b) && EventFree(step) && TakesTurns(b, step)
    ensures Ordered(Next(b, step))
  {
    hide Conserved, Ordered, Announce, Tell, Deliver, TakeOne, Upsert;
    match step
    case Append(run, e, now) => AnnounceOrders(b, run, e, now);
    case Write(run, update, now) => WriteOrders(b, run, update, now);
    case WriteUnlessCancelled(run, update, now) => WriteOrders(b, run, update, now);
    case Notify(run, index, closed) => TellOrders(b, run, index, closed);
    case Callback(q) => if q in b.boxes { MoveOrders(b, q, Deliver(b.boxes[q])); }
    case Take(q) => if q in b.boxes { MoveOrders(b, q, TakeOne(b.boxes[q])); }
    case Join(run, q) => JoinOrders(b, run, q);
    case Leave(run, q) => LeaveOrders(b, run, q);
  }

  lemma {:induction false} RunOrders(steps: seq<Step>, k: nat)
    requires k <= |steps|
    requires forall i :: 0 <= i < k ==> EventFree(steps[i]) && TakesTurns(After(steps, i), steps[i])
    ensures Ordered(After(steps, k))
  {
    hide Next, EventFree, TakesTurns;
    if k > 0 {
      RunConserves(steps, k - 1);
      RunOrders(steps, k - 1);
      NextOrders(After(steps, k - 1), steps[k - 1]);
    }
  }

  /** The backlog followed by everything delivered since, as events. */
  function Replay(b: Bus, q: nat): seq<Event>
    requires q in b.boxes && b.boxes[q].backlog <= Length(b, b.boxes[q].run)
    requires forall i :: 0 <= i < |Trail(b.boxes[q])| ==> Trail(b.boxes[q])[i] < Length(b, b.boxes[q].run)
  {
    var m := b.boxes[q];
    var log := EventsOf(b.store, m.run);
    log[..m.backlog] + seq(|Trail(m)|, i requires 0 <= i < |Trail(m)| => log[Trail(m)[i]])
  }

  lemma ReachedIsBetween(b: Bus, q: nat)
    requires Conserved(b) && q in b.boxes
    ensures b.boxes[q].backlog <= Reached(b, q) <= Length(b, b.boxes[q].run)
  {
    hide Held;
    var m := b.boxes[q];
    assert CopiesOk(b, q, 0);
    if Length(b, m.run) > 0 {
      assert CopiesOk(b, q, Length(b, m.run) - 1);
    }
  }

  lemma SpanReplays(log: seq<Event>, lo: nat, hi: nat)
    requires lo <= hi <= |log|
    ensures log[..lo] + seq(|Span(lo, hi)|, i requires 0 <= i < |Span(lo, hi)| => log[Span(lo, hi)[i]]) == log[..hi]
  {
  }

  /** Main result: with one producer per run and nothing dropped, the backlog followed by
      the deliveries is the log itself, in order, up to what is still being announced. */
  lemma BacklogThenDeliveriesIsTheLog(steps: seq<Step>, k: nat, q: nat)
    requires k <= |steps|
    requires forall i :: 0 <= i < k ==> EventFree(steps[i]) && TakesTurns(After(steps, i), steps[i])
    requires IsLive(After(steps, k), q) && After(steps, k).boxes[q].dropped == []
    ensures var b := After(steps, k);
            var m := b.boxes[q];
            && m.backlog <= Reached(b, q) <= Length(b, m.run)
            && Trail(m) == Span(m.backlog, Reached(b, q))
            && Replay(b, q) == EventsOf(b.store, m.run)[..Reached(b, q)]
  {
    hide After, Next, EventFree, TakesTurns, Conserved, OnlyNewestPosted, Reached, Trail;
    RunConserves(steps, k);
    RunOrders(steps, k);
    var b := After(steps, k);
    var m := b.boxes[q];
    assert InOrder(b, q);
    ReachedIsBetween(b, q);
    SpanReplays(EventsOf(b.store, m.run), m.backlog, Reached(b, q));
  }

  /** The same with no word about drops: as long as no loop closes and no callback finds 500
      waiting, a live subscriber gets the whole log of its run, in order. */
  lemma LosslessReplayIsTheLog(steps: seq<Step>, k: nat, q: nat)
    requires k <= |steps|
    requires forall i :: 0 <= i < k ==> EventFree(steps[i]) && TakesTurns(After(steps, i), steps[i])
    requires IsLive(After(steps, k), q) && Lossless(steps, k, q)
    ensures var b := After(steps, k);
            var m := b.boxes[q];
            && m.backlog <= Reached(b, q) <= Length(b, m.run)
            && Trail(m) == Span(m.backlog, Reached(b, q))
            && Replay(b, q) == EventsOf(b.store, m.run)[..Reached(b, q)]
  {
    hide After, Next, EventFree, TakesTurns, Lossless, Reached, Trail, Replay;
    LosslessDropsNothing(steps, k, q);
    BacklogThenDeliveriesIsTheLog(steps, k, q);
  }
}
