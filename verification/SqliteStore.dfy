/** The SQLite sidecar of the run store (src/aitp_playground/runner/store.py). JSON
    encoding of scalars and events is the identity here. */
module SqliteStores {
  import opened RunStores

  /** Table `runs` (the scalars of each run) and table `run_events` (seq -> event per run). */
  datatype Tables = Tables(rows: map<string, map<string, string>>, log: map<string, map<nat, Event>>)

  datatype Db = Db(store: Store, tables: Tables)

  function EventRows(t: Tables, id: string): map<nat, Event> {
    if id in t.log then t.log[id] else map[]
  }

  // ---- SELECT ... ORDER BY seq ----

  predicate IsLeast(m: nat, s: set<nat>) {
    m in s && forall x: nat :: x in s ==> m <= x
  }

  lemma {:induction false} LeastExists(s: set<nat>)
    requires s != {}
    ensures exists m: nat :: IsLeast(m, s)
  {
    var y: nat :| y in s;
    var rest := s - {y};
    assert forall x: nat :: x in s ==> x == y || x in rest;
    if rest == {} {
      assert IsLeast(y, s);
    } else {
      LeastExists(rest);
      var m: nat :| IsLeast(m, rest);
      assert IsLeast(if y < m then y else m, s);
    }
  }

  function Least(s: set<nat>): (m: nat)
    requires s != {}
    ensures IsLeast(m, s)
  {
    LeastExists(s);
    var m: nat :| IsLeast(m, s);
    m
  }

  /** The events in order of their sequence numbers. */
  function Ascending(rows: map<nat, Event>): seq<Event>
    decreases rows.Keys
  {
    if rows.Keys == {} then []
    else
      var m := Least(rows.Keys);
      [rows[m]] + Ascending(rows - {m})
  }

  /** `_hydrate`: the runs as read back from the tables. */
  function Hydrated(t: Tables): map<string, Record> {
    map id | id in t.rows :: Record(t.rows[id], Ascending(EventRows(t, id)))
  }

  // ---- the mirrored operations ----

  function PersistRecord(t: Tables, s: Store, id: string): Tables {
    if id in s.runs then t.(rows := t.rows[id := s.runs[id].scalars]) else t
  }

  function InsertEvent(t: Tables, id: string, n: nat, e: Event): Tables {
    t.(log := t.log[id := EventRows(t, id)[n := e]])
  }

  datatype Op =
    | Put(id: string, update: Record, now: string)
    | PutUnlessCancelled(id: string, update: Record, now: string)
    | Log(id: string, event: Event, now: string)
    | Restart

  function Mirror(d: Db, op: Op): Db {
    match op
    case Put(id, update, now) =>
      var s := Upsert(d.store, id, update, now);
      Db(s, PersistRecord(d.tables, s, id))
    case PutUnlessCancelled(id, update, now) =>
      var (s, written) := UpsertUnlessCancelled(d.store, id, update, now);
      Db(s, if written then PersistRecord(d.tables, s, id) else d.tables)
    case Log(id, event, now) =>
      var s := AppendEvent(d.store, id, event, now).0;
      Db(s, PersistRecord(InsertEvent(d.tables, id, |EventsOf(s, id)| - 1, event), s, id))
    case Restart => Db(Store(Hydrated(d.tables), map[]), d.tables)
  }

  function After(ops: seq<Op>, k: nat): Db
    requires k <= |ops|
  {
    if k == 0 then Db(EMPTY, Tables(map[], map[])) else Mirror(After(ops, k - 1), ops[k - 1])
  }

  ghost predicate EventFree(op: Op) {
    (op.Put? || op.PutUnlessCancelled?) ==> op.update.events == []
  }

  // ---- the tables mirror memory ----

  /** Sequence numbers are 0..n-1 without gaps, each holding the event at that position. */
  ghost predicate Numbers(rows: map<nat, Event>, events: seq<Event>) {
    && (forall i: nat :: i in rows <==> i < |events|)
    && (forall i: nat :: i < |events| ==> rows[i] == events[i])
  }

  ghost predicate Mirrors(d: Db) {
    && d.tables.rows.Keys == d.store.runs.Keys
    && (forall id :: id in d.store.runs ==> d.tables.rows[id] == d.store.runs[id].scalars)
    && (forall id :: Numbers(EventRows(d.tables, id), EventsOf(d.store, id)))
  }

  lemma {:induction false} AscendingFrom(rows: map<nat, Event>, events: seq<Event>, k: nat)
    requires k <= |events|
    requires forall i: nat :: i in rows <==> k <= i < |events|
    requires forall i: nat :: k <= i < |events| ==> rows[i] == events[i]
    ensures Ascending(rows) == events[k..]
    decreases |events| - k
  {
    if k == |events| {
      assert rows.Keys == {};
    } else {
      assert k in rows;
      assert Least(rows.Keys) == k;
      AscendingFrom(rows - {k}, events, k + 1);
    }
  }

  lemma HydratedRecord(d: Db, id: string)
    requires Mirrors(d) && id in d.store.runs
    ensures Hydrated(d.tables)[id] == d.store.runs[id]
  {
    AscendingFrom(EventRows(d.tables, id), EventsOf(d.store, id), 0);
  }

  /** Reading back mirroring tables gives exactly the runs in memory. */
  lemma MirrorsHydrate(d: Db)
    requires Mirrors(d)
    ensures Hydrated(d.tables) == d.store.runs
  {
    forall id | id in d.store.runs
      ensures Hydrated(d.tables)[id] == d.store.runs[id]
    {
      HydratedRecord(d, id);
    }
  }

  /** A record written back with its events unchanged leaves the mirror in place. */
  lemma PersistMirrors(d: Db, id: string, record: Record)
    requires Mirrors(d) && record.events == EventsOf(d.store, id)
    ensures var s := d.store.(runs := d.store.runs[id := record]);
            Mirrors(Db(s, PersistRecord(d.tables, s, id)))
  {
    var s := d.store.(runs := d.store.runs[id := record]);
    var t := PersistRecord(d.tables, s, id);
    forall other
      ensures Numbers(EventRows(t, other), EventsOf(s, other))
    {
      assert EventRows(t, other) == EventRows(d.tables, other);
      assert EventsOf(s, other) == EventsOf(d.store, other);
    }
  }

  lemma LogMirrors(d: Db, id: string, event: Event, now: string)
    requires Mirrors(d)
    ensures Mirrors(Mirror(d, Log(id, event, now)))
  {
    var s := AppendEvent(d.store, id, event, now).0;
    var n := |EventsOf(d.store, id)|;
    assert EventsOf(s, id) == EventsOf(d.store, id) + [event];
    var t := PersistRecord(InsertEvent(d.tables, id, n, event), s, id);
    forall other
      ensures Numbers(EventRows(t, other), EventsOf(s, other))
    {
      if other == id {
        assert EventRows(t, id) == EventRows(d.tables, id)[n := event];
      } else {
        assert EventRows(t, other) == EventRows(d.tables, other);
        assert EventsOf(s, other) == EventsOf(d.store, other);
      }
    }
  }

  lemma MirrorKeepsMirrors(d: Db, op: Op)
    requires Mirrors(d) && EventFree(op)
    ensures Mirrors(Mirror(d, op))
  {
    hide Mirrors;
    match op
    case Put(id, update, now) =>
      PersistMirrors(d, id, Merged(RecordOf(d.store, id), update, now));
    case PutUnlessCancelled(id, update, now) =>
      PersistMirrors(d, id, Merged(RecordOf(d.store, id), update, now));
    case Log(id, event, now) =>
      LogMirrors(d, id, event, now);
    case Restart =>
      RestartMirrors(d);
  }

  lemma RestartMirrors(d: Db)
    requires Mirrors(d)
    ensures Mirrors(Mirror(d, Restart))
  {
    MirrorsHydrate(d);
    assert forall id :: EventsOf(Store(d.store.runs, map[]), id) == EventsOf(d.store, id);
  }

  lemma {:induction false} RunMirrors(ops: seq<Op>, k: nat)
    requires k <= |ops| && forall i :: 0 <= i < k ==> EventFree(ops[i])
    ensures Mirrors(After(ops, k))
  {
    hide Mirror, EventFree, Mirrors;
    if k == 0 {
      EmptyMirrors();
    } else {
      RunMirrors(ops, k - 1);
      MirrorKeepsMirrors(After(ops, k - 1), ops[k - 1]);
    }
  }

  lemma EmptyMirrors()
    ensures Mirrors(Db(EMPTY, Tables(map[], map[])))
  {
  }

  /** Main result: after any sequence of event-free upserts, conditional upserts, appends
      and restarts, reading the tables back gives exactly the runs in memory, and the
      stored sequence numbers of each run are 0..n-1. */
  lemma SidecarRefinesMemory(ops: seq<Op>, k: nat)
    requires k <= |ops| && forall i :: 0 <= i < k ==> EventFree(ops[i])
    ensures var d := After(ops, k);
            && Hydrated(d.tables) == d.store.runs
            && (forall id, i: nat :: i in EventRows(d.tables, id) <==> i < |EventsOf(d.store, id)|)
  {
    hide After, EventFree;
    RunMirrors(ops, k);
    MirrorsHydrate(After(ops, k));
  }

  /** A restart keeps the runs and forgets the subscribers. */
  lemma RestartForgetsSubscribers(ops: seq<Op>, k: nat, id: string)
    requires k < |ops| && ops[k].Restart? && forall i :: 0 <= i < k ==> EventFree(ops[i])
    ensures var d, d' := After(ops, k), After(ops, k + 1);
            d'.store.runs == d.store.runs && SubscribersOf(d'.store, id) == [] && d'.tables == d.tables
  {
    hide EventFree, Hydrated;
    SidecarRefinesMemory(ops, k);
  }

  // ---- where the sidecar falls behind ----

  lemma {:induction false} AscendingLength(rows: map<nat, Event>)
    ensures |Ascending(rows)| == |rows.Keys|
    decreases rows.Keys
  {
    if rows.Keys != {} {
      var m := Least(rows.Keys);
      AscendingLength(rows - {m});
      assert rows.Keys == (rows - {m}).Keys + {m};
    }
  }

  /** Upserted events never reach the events table: from mirroring tables, an upsert keeps
      them readable as the memory state exactly when it carries no events. */
  lemma UpsertMirrorsIffEventFree(d: Db, id: string, update: Record, now: string)
    requires Mirrors(d)
    ensures var d' := Mirror(d, Put(id, update, now));
            Hydrated(d'.tables) == d'.store.runs <==> update.events == []
  {
    var d' := Mirror(d, Put(id, update, now));
    if update.events == [] {
      MirrorKeepsMirrors(d, Put(id, update, now));
      MirrorsHydrate(d');
    } else {
      assert EventRows(d'.tables, id) == EventRows(d.tables, id);
      AscendingFrom(EventRows(d.tables, id), EventsOf(d.store, id), 0);
      assert Hydrated(d'.tables)[id].events == EventsOf(d.store, id);
      assert |d'.store.runs[id].events| > |EventsOf(d.store, id)|;
    }
  }

  // ---- the store object ----

  class SqliteRunStore {
    const memory: RunStore
    var rows: map<string, map<string, string>>
    var log: map<string, map<nat, Event>>

    ghost function State(): Db
      reads this, memory
    {
      Db(memory.State(), Tables(rows, log))
    }

    /** Opening an existing file hydrates memory from it. */
    constructor (rows: map<string, map<string, string>>, log: map<string, map<nat, Event>>)
      ensures State() == Mirror(Db(EMPTY, Tables(rows, log)), Restart) && fresh(memory)
    {
      memory := new RunStore();
      this.rows, this.log := rows, log;
      new;
      Hydrate();
    }

    method Hydrate()
      requires memory.runs == map[]
      modifies memory`runs
      ensures memory.runs == Hydrated(Tables(rows, log))
    {
      var todo := rows.Keys;
      while todo != {}
        invariant todo <= rows.Keys
        invariant memory.runs == map id | id in rows && id !in todo :: Hydrated(Tables(rows, log))[id]
        decreases todo
      {
        var id :| id in todo;
        var events := Ascending(if id in log then log[id] else map[]);
        memory.runs := memory.runs[id := Record(rows[id], events)];
        todo := todo - {id};
      }
    }

    method Persist(id: string)
      modifies this`rows
      ensures Tables(rows, log) == PersistRecord(old(Tables(rows, log)), memory.State(), id)
    {
      if id in memory.runs {
        rows := rows[id := memory.runs[id].scalars];
      }
    }

    method Merge(id: string, update: Record, now: string)
      modifies this`rows, memory`runs
      ensures State() == Mirror(old(State()), Put(id, update, now))
    {
      memory.Merge(id, update, now);
      Persist(id);
    }

    method MergeUnlessCancelled(id: string, update: Record, now: string) returns (written: bool)
      modifies this`rows, memory`runs
      ensures State() == Mirror(old(State()), PutUnlessCancelled(id, update, now))
      ensures written == UpsertUnlessCancelled(old(State()).store, id, update, now).1
    {
      written := memory.MergeUnlessCancelled(id, update, now);
      if written {
        Persist(id);
      }
    }

    /** One thread at a time: nothing appends between the memory step and the row. */
    method AppendRow(id: string, e: Event, now: string) returns (notify: seq<nat>)
      modifies this`rows, this`log, memory`runs
      ensures State() == Mirror(old(State()), Log(id, e, now))
      ensures notify == SubscribersOf(old(State()).store, id)
    {
      notify := memory.Append(id, e, now);
      var n := |memory.runs[id].events| - 1;
      log := log[id := (if id in log then log[id] else map[])[n := e]];
      Persist(id);
    }
  }
}
