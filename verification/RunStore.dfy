/** The in-memory run store (src/aitp_playground/runner/store.py). Every method of the
    source does its work on the shared tables under one lock, so each is one step here. */
module RunStores {
  import opened Wrappers

  /** One entry of a run's event log (src/aitp_playground/runner/context.py). */
  datatype Event = Event(kind: string, runId: Option<string>, code: Option<string>, capability: Option<string>)

  /** A run record: its scalar fields and its event log. */
  datatype Record = Record(scalars: map<string, string>, events: seq<Event>)

  /** The runs, and per run the queues subscribed to it in the order they subscribed. */
  datatype Store = Store(runs: map<string, Record>, subscribers: map<string, seq<nat>>)

  const EMPTY := Store(map[], map[])

  function RecordOf(s: Store, id: string): Record {
    if id in s.runs then s.runs[id] else Record(map[], [])
  }

  function EventsOf(s: Store, id: string): seq<Event> {
    RecordOf(s, id).events
  }

  function StatusOf(s: Store, id: string): Option<string> {
    if "status" in RecordOf(s, id).scalars then Some(RecordOf(s, id).scalars["status"]) else None
  }

  function SubscribersOf(s: Store, id: string): seq<nat> {
    if id in s.subscribers then s.subscribers[id] else []
  }

  /** New fields win, events are appended, and the first write stamps `created_at`. */
  function Merged(existing: Record, update: Record, now: string): Record {
    var scalars :=
      if "created_at" !in existing.scalars && "created_at" !in update.scalars
      then update.scalars["created_at" := now] else update.scalars;
    Record(existing.scalars + scalars, existing.events + update.events)
  }

  function Upsert(s: Store, id: string, update: Record, now: string): Store {
    s.(runs := s.runs[id := Merged(RecordOf(s, id), update, now)])
  }

  function UpsertUnlessCancelled(s: Store, id: string, update: Record, now: string): (Store, bool) {
    if StatusOf(s, id) == Some("cancelled") then (s, false) else (Upsert(s, id, update, now), true)
  }

  /** Appends the event, creating a running record if there was none, and takes the
      subscribers to notify once the lock is released. */
  function AppendEvent(s: Store, id: string, e: Event, now: string): (Store, seq<nat>) {
    var record :=
      if id in s.runs then s.runs[id]
      else Record(map["run_id" := id, "status" := "running", "created_at" := now], []);
    (s.(runs := s.runs[id := record.(events := record.events + [e])]), SubscribersOf(s, id))
  }

  function Subscribe(s: Store, id: string, q: nat): (Store, seq<Event>) {
    (s.(subscribers := s.subscribers[id := SubscribersOf(s, id) + [q]]), EventsOf(s, id))
  }

  function Without(qs: seq<nat>, q: nat): (r: seq<nat>)
    ensures forall x :: x in r <==> x in qs && x != q
  {
    if qs == [] then []
    else
      var last := qs[|qs| - 1];
      assert qs == qs[..|qs| - 1] + [last];
      Without(qs[..|qs| - 1], q) + if last == q then [] else [last]
  }

  function Unsubscribe(s: Store, id: string, q: nat): Store {
    s.(subscribers := s.subscribers[id := Without(SubscribersOf(s, id), q)])
  }

  // ---- a cancelled run stays cancelled ----

  datatype Write =
    | Plain(update: Record)
    | UnlessCancelled(update: Record)
    | Append(event: Event)

  function Apply(s: Store, id: string, w: Write, now: string): Store {
    match w
    case Plain(update) => Upsert(s, id, update, now)
    case UnlessCancelled(update) => UpsertUnlessCancelled(s, id, update, now).0
    case Append(event) => AppendEvent(s, id, event, now).0
  }

  /** A single write ends a cancellation exactly when it is an unconditional upsert that
      carries another status. */
  lemma CancelledSurvivesIff(s: Store, id: string, other: string, w: Write, now: string)
    requires StatusOf(s, id) == Some("cancelled")
    ensures StatusOf(Apply(s, other, w, now), id) == Some("cancelled")
            <==> !(other == id && w.Plain? && "status" in w.update.scalars && w.update.scalars["status"] != "cancelled")
  {
  }

  /** Writes by any number of threads, each one step under the lock. */
  function ApplyAll(s: Store, ids: seq<string>, ws: seq<Write>, nows: seq<string>, k: nat): Store
    requires k <= |ws| == |ids| == |nows|
  {
    if k == 0 then s else Apply(ApplyAll(s, ids, ws, nows, k - 1), ids[k - 1], ws[k - 1], nows[k - 1])
  }

  /** Main result: at full thread granularity, a cancelled status survives every
      conditional write, every append and every upsert without a status, in any order. */
  lemma {:induction false} CancelledSurvives(s: Store, id: string, ids: seq<string>, ws: seq<Write>, nows: seq<string>, k: nat)
    requires k <= |ws| == |ids| == |nows| && StatusOf(s, id) == Some("cancelled")
    requires forall i :: 0 <= i < k && ids[i] == id && ws[i].Plain? ==> "status" !in ws[i].update.scalars
    ensures StatusOf(ApplyAll(s, ids, ws, nows, k), id) == Some("cancelled")
  {
    hide Apply, StatusOf;
    if k > 0 {
      CancelledSurvives(s, id, ids, ws, nows, k - 1);
      CancelledSurvivesIff(ApplyAll(s, ids, ws, nows, k - 1), id, ids[k - 1], ws[k - 1], nows[k - 1]);
    }
  }

  // ---- what an upsert keeps ----

  function FieldOf(s: Store, id: string, field: string): Option<string> {
    if field in RecordOf(s, id).scalars then Some(RecordOf(s, id).scalars[field]) else None
  }

  /** Field by field: the update's value where it has one, else what was there, else — for
      `created_at` alone — the time of this write. No other run changes. */
  lemma UpsertOverlays(s: Store, id: string, update: Record, now: string, other: string, field: string)
    ensures FieldOf(Upsert(s, id, update, now), other, field)
            == if other == id && field in update.scalars then Some(update.scalars[field])
               else if FieldOf(s, other, field).Some? then FieldOf(s, other, field)
               else if other == id && field == "created_at" then Some(now)
               else None
    ensures EventsOf(Upsert(s, id, update, now), other) == EventsOf(s, other) + if other == id then update.events else []
  {
    if other != id {
      assert EventsOf(Upsert(s, id, update, now), other) + [] == EventsOf(s, other);
    }
  }

  /** The conditional write does nothing at all to a cancelled run, and says so; to any other
      it does all that a plain write does. */
  lemma ConditionalWriteLaw(s: Store, id: string, update: Record, now: string, other: string, field: string)
    ensures var (t, written) := UpsertUnlessCancelled(s, id, update, now);
            && (written <==> FieldOf(s, id, "status") != Some("cancelled"))
            && FieldOf(t, other, field)
               == (if !written || other != id then FieldOf(s, other, field)
                   else if field in update.scalars then Some(update.scalars[field])
                   else if FieldOf(s, other, field).Some? then FieldOf(s, other, field)
                   else if field == "created_at" then Some(now)
                   else None)
            && EventsOf(t, other) == EventsOf(s, other) + (if written && other == id then update.events else [])
            && SubscribersOf(t, other) == SubscribersOf(s, other)
            && (other in t.runs <==> other in s.runs || (written && other == id))
  {
    UpsertOverlays(s, id, update, now, other, field);
    assert EventsOf(s, other) + [] == EventsOf(s, other);
  }

  /** An append adds one event to its run; a run it creates is `running`, with its id and the
      time of the append; no other field and no other run changes. */
  lemma AppendLaw(s: Store, id: string, e: Event, now: string, other: string, field: string)
    ensures var (t, notify) := AppendEvent(s, id, e, now);
            && notify == SubscribersOf(s, id)
            && FieldOf(t, other, field)
               == (if other == id && id !in s.runs
                   then if field == "run_id" then Some(id) else if field == "status" then Some("running")
                        else if field == "created_at" then Some(now) else None
                   else FieldOf(s, other, field))
            && EventsOf(t, other) == EventsOf(s, other) + (if other == id then [e] else [])
            && SubscribersOf(t, other) == SubscribersOf(s, other)
            && (other in t.runs <==> other in s.runs || other == id)
  {
    assert EventsOf(s, other) + [] == EventsOf(s, other);
  }

  /** A subscription sees the log so far and is told last; it changes no run. */
  lemma SubscribeLaw(s: Store, id: string, q: nat, other: string)
    ensures var (t, backlog) := Subscribe(s, id, q);
            && t.runs == s.runs && backlog == EventsOf(s, id)
            && SubscribersOf(t, other) == SubscribersOf(s, other) + (if other == id then [q] else [])
  {
    assert SubscribersOf(s, other) + [] == SubscribersOf(s, other);
  }

  lemma {:induction false} WithoutConcat(a: seq<nat>, b: seq<nat>, q: nat)
    ensures Without(a + b, q) == Without(a, q) + Without(b, q)
  {
    if b == [] {
      assert a + b == a;
      assert Without(a, q) + [] == Without(a, q);
    } else {
      var init, last := b[..|b| - 1], b[|b| - 1];
      WithoutConcat(a, init, q);
      assert (a + b)[..|a + b| - 1] == a + init && (a + b)[|a + b| - 1] == last;
    }
  }

  lemma {:induction false} WithoutKeepsAll(qs: seq<nat>, q: nat)
    requires q !in qs
    ensures Without(qs, q) == qs
  {
    if qs != [] {
      assert qs == qs[..|qs| - 1] + [qs[|qs| - 1]];
      WithoutKeepsAll(qs[..|qs| - 1], q);
    }
  }

  /** Leaving takes the queue out from between the others, which keep their order, and
      changes nothing else. */
  lemma UnsubscribeLaw(s: Store, id: string, q: nat, before: seq<nat>, after: seq<nat>, other: string)
    requires SubscribersOf(s, id) == before + [q] + after && q !in before && q !in after
    ensures var t := Unsubscribe(s, id, q);
            t.runs == s.runs && SubscribersOf(t, other) == if other == id then before + after else SubscribersOf(s, other)
  {
    WithoutConcat(before + [q], after, q);
    WithoutConcat(before, [q], q);
    WithoutKeepsAll(before, q);
    WithoutKeepsAll(after, q);
    WithoutItself(q);
    assert before + [] == before;
  }

  lemma WithoutItself(q: nat)
    ensures Without([q], q) == []
  {
  }

  predicate SetsField(w: Write, field: string) {
    !w.Append? && field in w.update.scalars
  }

  lemma FieldStays(s: Store, id: string, w: Write, now: string, other: string, field: string)
    requires FieldOf(s, other, field).Some? && (other == id ==> !SetsField(w, field))
    ensures FieldOf(Apply(s, id, w, now), other, field) == FieldOf(s, other, field)
  {
    if !w.Append? {
      UpsertOverlays(s, id, w.update, now, other, field);
    }
  }

  /** A run keeps the creation time of its first write, and any other field, through every
      write that does not carry that field itself. */
  lemma {:induction false} FieldStaysUntilSet(s: Store, id: string, field: string, ids: seq<string>, ws: seq<Write>,
                                              nows: seq<string>, k: nat)
    requires k <= |ws| == |ids| == |nows| && FieldOf(s, id, field).Some?
    requires forall i :: 0 <= i < k && ids[i] == id ==> !SetsField(ws[i], field)
    ensures FieldOf(ApplyAll(s, ids, ws, nows, k), id, field) == FieldOf(s, id, field)
  {
    hide Apply, FieldOf;
    if k > 0 {
      var m := k - 1;
      FieldStaysUntilSet(s, id, field, ids, ws, nows, m);
      FieldStays(ApplyAll(s, ids, ws, nows, m), ids[m], ws[m], nows[m], id, field);
    }
  }

  // ---- the store object ----

  class RunStore {
    var runs: map<string, Record>
    var subscribers: map<string, seq<nat>>

    ghost function State(): Store
      reads this
    {
      Store(runs, subscribers)
    }

    constructor ()
      ensures State() == EMPTY
    {
      runs, subscribers := map[], map[];
    }

    method Merge(id: string, update: Record, now: string)
      modifies this`runs
      ensures State() == Upsert(old(State()), id, update, now)
    {
      var existing := if id in runs then runs[id] else Record(map[], []);
      var scalars := update.scalars;
      if "created_at" !in existing.scalars && "created_at" !in scalars {
        scalars := scalars["created_at" := now];
      }
      runs := runs[id := Record(existing.scalars + scalars, existing.events + update.events)];
    }

    method MergeUnlessCancelled(id: string, update: Record, now: string) returns (written: bool)
      modifies this`runs
      ensures (State(), written) == UpsertUnlessCancelled(old(State()), id, update, now)
    {
      if id in runs && "status" in runs[id].scalars && runs[id].scalars["status"] == "cancelled" {
        return false;
      }
      Merge(id, update, now);
      written := true;
    }

    method Append(id: string, e: Event, now: string) returns (notify: seq<nat>)
      modifies this`runs
      ensures (State(), notify) == AppendEvent(old(State()), id, e, now)
    {
      if id !in runs {
        runs := runs[id := Record(map["run_id" := id, "status" := "running", "created_at" := now], [])];
      }
      runs := runs[id := runs[id].(events := runs[id].events + [e])];
      assert runs == AppendEvent(old(State()), id, e, now).0.runs;
      notify := if id in subscribers then subscribers[id] else [];
    }

    method Attach(id: string, q: nat) returns (backlog: seq<Event>)
      modifies this`subscribers
      ensures (State(), backlog) == Subscribe(old(State()), id, q)
    {
      backlog := if id in runs then runs[id].events else [];
      var before := if id in subscribers then subscribers[id] else [];
      subscribers := subscribers[id := before + [q]];
    }

    method Detach(id: string, q: nat)
      modifies this`subscribers
      ensures State() == Unsubscribe(old(State()), id, q)
    {
      var before := if id in subscribers then subscribers[id] else [];
      var kept := [];
      for i := 0 to |before|
        invariant kept == Without(before[..i], q)
      {
        assert before[..i + 1][..i] == before[..i];
        kept := kept + if before[i] == q then [] else [before[i]];
      }
      assert before[..|before|] == before;
      subscribers := subscribers[id := kept];
    }
  }
}
