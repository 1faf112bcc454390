/** The SQLite sidecar at thread granularity (src/aitp_playground/runner/store.py): any
    number of threads each make one call about the same run. A call is a memory step under
    one lock, then — for an append — reading the sequence number and inserting the row,
    then taking the snapshot of the scalars and writing it; anything may come in between. */
module SqliteRaces {
  import opened RunStores
  import opened SqliteStores
  import opened Wrappers

  datatype Job = Logs(event: Event) | Puts(update: Record, guarded: bool)

  datatype Stage = Begins | ReadsNumber | InsertsRow | TakesSnapshot | WritesRow | Through

  /** One thread; `own` is the position its event took in the log. */
  datatype Writer = Writer(stage: Stage, own: nat, number: nat, snapshot: map<string, string>)

  datatype Race = Race(db: Db, writers: seq<Writer>)

  /** `turns[i]` is the thread that takes turn i. */
  datatype Run = Run(start: Db, id: string, jobs: seq<Job>, turns: seq<nat>, now: string)

  function Move(run: Run, r: Race, t: nat): Race
    requires |r.writers| == |run.jobs|
  {
    if t >= |run.jobs| then r
    else
      var w, d, id := r.writers[t], r.db, run.id;
      match w.stage
      case Begins =>
        (match run.jobs[t]
         case Logs(event) =>
           Race(d.(store := AppendEvent(d.store, id, event, run.now).0),
                r.writers[t := w.(stage := ReadsNumber, own := |EventsOf(d.store, id)|)])
         case Puts(update, guarded) =>
           var (s, written) :=
             if guarded then UpsertUnlessCancelled(d.store, id, update, run.now)
             else (Upsert(d.store, id, update, run.now), true);
           Race(d.(store := s), r.writers[t := w.(stage := if written then TakesSnapshot else Through)]))
      case ReadsNumber =>
        var n := |EventsOf(d.store, id)|;
        r.(writers := r.writers[t := w.(stage := InsertsRow, number := if n == 0 then 0 else n - 1)])
      case InsertsRow =>
        Race(if run.jobs[t].Logs? then d.(tables := InsertEvent(d.tables, id, w.number, run.jobs[t].event)) else d,
             r.writers[t := w.(stage := TakesSnapshot)])
      case TakesSnapshot =>
        r.(writers := r.writers[t := w.(stage := WritesRow, snapshot := RecordOf(d.store, id).scalars)])
      case WritesRow =>
        Race(d.(tables := d.tables.(rows := d.tables.rows[id := w.snapshot])), r.writers[t := w.(stage := Through)])
      case Through => r
  }

  function After(run: Run, k: nat): (r: Race)
    requires k <= |run.turns|
    ensures |r.writers| == |run.jobs|
  {
    if k == 0 then Race(run.start, seq(|run.jobs|, _ => Writer(Begins, 0, 0, map[])))
    else Move(run, After(run, k - 1), run.turns[k - 1])
  }

  predicate AllThrough(r: Race) {
    forall t :: 0 <= t < |r.writers| ==> r.writers[t].stage.Through?
  }

  predicate UpsertsAreEventFree(run: Run) {
    forall t :: 0 <= t < |run.jobs| && run.jobs[t].Puts? ==> run.jobs[t].update.events == []
  }

  // ---- the log ----

  /** Turn k is the memory step of an append. */
  predicate Appends(run: Run, k: nat)
    requires k < |run.turns|
  {
    var t := run.turns[k];
    t < |run.jobs| && run.jobs[t].Logs? && After(run, k).writers[t].stage.Begins?
  }

  /** In the first k turns, another thread appended after thread t did and before t read its
      sequence number. */
  ghost predicate Overtaken(run: Run, k: nat, t: nat)
    requires k <= |run.turns| && t < |run.jobs|
  {
    exists j: nat :: j < k && Appends(run, j) && run.turns[j] != t && After(run, j).writers[t].stage.ReadsNumber?
  }

  predicate HasAppended(run: Run, w: Writer, t: nat)
    requires t < |run.jobs|
  {
    run.jobs[t].Logs? && !w.stage.Begins?
  }

  predicate HasNumber(run: Run, w: Writer, t: nat)
    requires t < |run.jobs|
  {
    HasAppended(run, w, t) && !w.stage.ReadsNumber?
  }

  predicate HasInserted(run: Run, w: Writer, t: nat)
    requires t < |run.jobs|
  {
    HasNumber(run, w, t) && !w.stage.InsertsRow?
  }

  // ---- what every turn keeps ----

  ghost predicate OwnedBy(run: Run, writers: seq<Writer>, i: nat)
    requires |writers| == |run.jobs|
  {
    exists t :: 0 <= t < |writers| && HasAppended(run, writers[t], t) && writers[t].own == i
  }

  /** Each appended event is at its thread's own position, from `base` on, one thread each. */
  ghost predicate OwnPositions(run: Run, events: seq<Event>, writers: seq<Writer>, base: seq<Event>)
    requires |writers| == |run.jobs|
  {
    && |base| <= |events| && base == events[..|base|]
    && (forall t :: 0 <= t < |writers| && HasAppended(run, writers[t], t) ==>
          |base| <= writers[t].own < |events| && events[writers[t].own] == run.jobs[t].event)
    && (forall t, u :: 0 <= t < u < |writers| && HasAppended(run, writers[t], t) && HasAppended(run, writers[u], u) ==>
          writers[t].own != writers[u].own)
    && (forall i: nat :: |base| <= i < |events| ==> OwnedBy(run, writers, i))
  }

  /** A thread's number is its own position exactly when nobody overtook it. */
  ghost predicate NumberTells(run: Run, events: seq<Event>, w: Writer, t: nat, overtaken: bool)
    requires t < |run.jobs|
  {
    && (run.jobs[t].Logs? && w.stage.Begins? ==> !overtaken)
    && (run.jobs[t].Logs? && w.stage.ReadsNumber? ==> w.own < |events| && (w.own + 1 == |events| <==> !overtaken))
    && (HasNumber(run, w, t) ==> w.own <= w.number < |events| && (w.own == w.number <==> !overtaken))
  }

  ghost predicate NumberHolds(run: Run, k: nat, t: nat)
    requires k <= |run.turns| && t < |run.jobs|
  {
    var r := After(run, k);
    NumberTells(run, EventsOf(r.db.store, run.id), r.writers[t], t, Overtaken(run, k, t))
  }

  ghost predicate InsertedBy(run: Run, writers: seq<Writer>, i: nat, e: Event)
    requires |writers| == |run.jobs|
  {
    exists t :: 0 <= t < |writers| && HasInserted(run, writers[t], t) && writers[t].number == i && run.jobs[t].event == e
  }

  /** The rows are the old ones and one for each number some thread has inserted under,
      holding the event of such a thread. */
  ghost predicate RowsTell(run: Run, rows: map<nat, Event>, writers: seq<Writer>, base: seq<Event>)
    requires |writers| == |run.jobs|
  {
    && (forall i: nat :: i < |base| ==> i in rows && rows[i] == base[i])
    && (forall i: nat :: i in rows && |base| <= i ==> InsertedBy(run, writers, i, rows[i]))
    && (forall t :: 0 <= t < |writers| && HasInserted(run, writers[t], t) ==> writers[t].number in rows)
  }

  ghost predicate Inv(run: Run, k: nat)
    requires k <= |run.turns|
  {
    var r := After(run, k);
    var events, base := EventsOf(r.db.store, run.id), EventsOf(run.start.store, run.id);
    && OwnPositions(run, events, r.writers, base)
    && (forall t :: 0 <= t < |run.jobs| ==> NumberHolds(run, k, t))
    && RowsTell(run, EventRows(r.db.tables, run.id), r.writers, base)
  }

  /** What a turn does to the log, the rows and its own thread. */
  lemma MoveParts(run: Run, k: nat)
    requires k < |run.turns| && UpsertsAreEventFree(run)
    ensures var r, r', t := After(run, k), After(run, k + 1), run.turns[k];
            var events, events' := EventsOf(r.db.store, run.id), EventsOf(r'.db.store, run.id);
            var rows, rows' := EventRows(r.db.tables, run.id), EventRows(r'.db.tables, run.id);
            if t >= |run.jobs| then r' == r
            else
              var w := r.writers[t];
              && (forall u :: 0 <= u < |run.jobs| && u != t ==> r'.writers[u] == r.writers[u])
              && (if Appends(run, k)
                  then events' == events + [run.jobs[t].event] && rows' == rows
                       && r'.writers[t] == w.(stage := ReadsNumber, own := |events|)
                  else events' == events)
              && (run.jobs[t].Logs? && w.stage.ReadsNumber? ==>
                    rows' == rows && r'.writers[t] == w.(stage := InsertsRow, number := if |events| == 0 then 0 else |events| - 1))
              && (run.jobs[t].Logs? && w.stage.InsertsRow? ==>
                    rows' == rows[w.number := run.jobs[t].event] && r'.writers[t] == w.(stage := TakesSnapshot))
              && (run.jobs[t].Puts? || w.stage.TakesSnapshot? || w.stage.WritesRow? || w.stage.Through? ==> rows' == rows)
              && (run.jobs[t].Logs? && (w.stage.TakesSnapshot? || w.stage.WritesRow? || w.stage.Through?) ==>
                    && r'.writers[t].own == w.own && r'.writers[t].number == w.number
                    && (r'.writers[t].stage.WritesRow? || r'.writers[t].stage.Through?))
  {
    var r, t := After(run, k), run.turns[k];
    if t < |run.jobs| && r.writers[t].stage.Begins? && run.jobs[t].Logs? {
      AppendEvents(r.db.store, run.id, run.jobs[t].event, run.now);
    }
  }

  lemma AppendEvents(s: Store, id: string, e: Event, now: string)
    ensures EventsOf(AppendEvent(s, id, e, now).0, id) == EventsOf(s, id) + [e]
  {
  }

  lemma OvertakenStep(run: Run, k: nat, t: nat)
    requires k < |run.turns| && t < |run.jobs|
    ensures Overtaken(run, k + 1, t)
            <==> Overtaken(run, k, t) || (Appends(run, k) && run.turns[k] != t && After(run, k).writers[t].stage.ReadsNumber?)
  {
    hide After;
  }

  lemma OwnAppend(run: Run, events: seq<Event>, writers: seq<Writer>, writers': seq<Writer>, base: seq<Event>, t: nat)
    requires |writers| == |writers'| == |run.jobs| && t < |run.jobs| && run.jobs[t].Logs? && writers[t].stage.Begins?
    requires OwnPositions(run, events, writers, base)
    requires forall u :: 0 <= u < |run.jobs| && u != t ==> writers'[u] == writers[u]
    requires writers'[t] == writers[t].(stage := ReadsNumber, own := |events|)
    ensures OwnPositions(run, events + [run.jobs[t].event], writers', base)
  {
    forall i: nat | |base| <= i < |events| + 1
      ensures OwnedBy(run, writers', i)
    {
      if i < |events| {
        assert OwnedBy(run, writers, i);
        var u :| 0 <= u < |writers| && HasAppended(run, writers[u], u) && writers[u].own == i;
        assert HasAppended(run, writers'[u], u);
      } else {
        assert HasAppended(run, writers'[t], t);
      }
    }
  }

  /** A turn that appends nothing leaves every position with its owner. */
  lemma OwnOther(run: Run, events: seq<Event>, writers: seq<Writer>, writers': seq<Writer>, base: seq<Event>)
    requires |writers| == |writers'| == |run.jobs| && OwnPositions(run, events, writers, base)
    requires forall u :: 0 <= u < |run.jobs| && run.jobs[u].Logs? ==>
               writers'[u].own == writers[u].own && (writers'[u].stage.Begins? <==> writers[u].stage.Begins?)
    ensures OwnPositions(run, events, writers', base)
  {
    forall i: nat | |base| <= i < |events|
      ensures OwnedBy(run, writers', i)
    {
      assert OwnedBy(run, writers, i);
      var u :| 0 <= u < |writers| && HasAppended(run, writers[u], u) && writers[u].own == i;
      assert HasAppended(run, writers'[u], u);
    }
  }

  lemma RowsInsert(run: Run, rows: map<nat, Event>, writers: seq<Writer>, writers': seq<Writer>, base: seq<Event>, t: nat)
    requires |writers| == |writers'| == |run.jobs| && t < |run.jobs| && run.jobs[t].Logs? && writers[t].stage.InsertsRow?
    requires RowsTell(run, rows, writers, base) && |base| <= writers[t].number
    requires forall u :: 0 <= u < |run.jobs| && u != t ==> writers'[u] == writers[u]
    requires writers'[t] == writers[t].(stage := TakesSnapshot)
    ensures RowsTell(run, rows[writers[t].number := run.jobs[t].event], writers', base)
  {
    var rows' := rows[writers[t].number := run.jobs[t].event];
    forall i: nat | i in rows' && |base| <= i
      ensures InsertedBy(run, writers', i, rows'[i])
    {
      if i == writers[t].number {
        assert HasInserted(run, writers'[t], t);
      } else {
        assert InsertedBy(run, writers, i, rows[i]);
        var u :| 0 <= u < |writers| && HasInserted(run, writers[u], u) && writers[u].number == i && run.jobs[u].event == rows[i];
        assert HasInserted(run, writers'[u], u);
      }
    }
  }

  lemma RowsOther(run: Run, rows: map<nat, Event>, writers: seq<Writer>, writers': seq<Writer>, base: seq<Event>)
    requires |writers| == |writers'| == |run.jobs| && RowsTell(run, rows, writers, base)
    requires forall u :: 0 <= u < |run.jobs| && run.jobs[u].Logs? ==>
               (HasInserted(run, writers'[u], u) <==> HasInserted(run, writers[u], u))
               && (HasInserted(run, writers[u], u) ==> writers'[u].number == writers[u].number)
    ensures RowsTell(run, rows, writers', base)
  {
    forall i: nat | i in rows && |base| <= i
      ensures InsertedBy(run, writers', i, rows[i])
    {
      assert InsertedBy(run, writers, i, rows[i]);
      var u :| 0 <= u < |writers| && HasInserted(run, writers[u], u) && writers[u].number == i && run.jobs[u].event == rows[i];
      assert HasInserted(run, writers'[u], u);
    }
  }

  lemma NumberKeeps(run: Run, k: nat, t: nat)
    requires k < |run.turns| && UpsertsAreEventFree(run) && t < |run.jobs| && NumberHolds(run, k, t)
    ensures NumberHolds(run, k + 1, t)
  {
    hide After, EventsOf, EventRows, Overtaken;
    MoveParts(run, k);
    OvertakenStep(run, k, t);
  }

  lemma InvKeeps(run: Run, k: nat)
    requires k < |run.turns| && UpsertsAreEventFree(run) && Inv(run, k)
    ensures Inv(run, k + 1)
  {
    hide After, EventsOf, EventRows, OwnPositions, RowsTell, NumberHolds;
    var next := k + 1;
    forall t | 0 <= t < |run.jobs|
      ensures NumberHolds(run, next, t)
    {
      NumberKeeps(run, k, t);
    }
    MoveParts(run, k);
    var r, r', t := After(run, k), After(run, k + 1), run.turns[k];
    var events, base := EventsOf(r.db.store, run.id), EventsOf(run.start.store, run.id);
    var rows := EventRows(r.db.tables, run.id);
    if t < |run.jobs| {
      if Appends(run, k) {
        OwnAppend(run, events, r.writers, r'.writers, base, t);
        RowsOther(run, rows, r.writers, r'.writers, base);
      } else {
        OwnOther(run, events, r.writers, r'.writers, base);
        if run.jobs[t].Logs? && r.writers[t].stage.InsertsRow? {
          NumberAboveBase(run, k, t);
          RowsInsert(run, rows, r.writers, r'.writers, base, t);
        } else {
          RowsOther(run, rows, r.writers, r'.writers, base);
        }
      }
    }
  }

  lemma NumberAboveBase(run: Run, k: nat, t: nat)
    requires k <= |run.turns| && Inv(run, k) && t < |run.jobs| && HasNumber(run, After(run, k).writers[t], t)
    ensures |EventsOf(run.start.store, run.id)| <= After(run, k).writers[t].number
  {
    hide After, EventsOf;
    var r := After(run, k);
    assert NumberHolds(run, k, t);
  }

  lemma {:induction false} RunKeeps(run: Run, k: nat)
    requires k <= |run.turns| && UpsertsAreEventFree(run) && Mirrors(run.start)
    ensures Inv(run, k)
  {
    hide Inv;
    if k == 0 {
      StartInv(run);
    } else {
      RunKeeps(run, k - 1);
      InvKeeps(run, k - 1);
    }
  }

  lemma StartInv(run: Run)
    requires Mirrors(run.start)
    ensures Inv(run, 0)
  {
    assert Numbers(EventRows(run.start.tables, run.id), EventsOf(run.start.store, run.id));
  }

  // ---- main result for the events ----

  /** Rows for every position leave no thread with another's number, from the lowest position up. */
  lemma {:induction false} FullRowsMeanOwnNumbers(run: Run, k: nat, t: nat)
    requires k <= |run.turns| && Inv(run, k) && AllThrough(After(run, k)) && t < |run.jobs| && run.jobs[t].Logs?
    requires var d := After(run, k).db;
             forall i: nat :: i < |EventsOf(d.store, run.id)| ==> i in EventRows(d.tables, run.id)
    ensures After(run, k).writers[t].number == After(run, k).writers[t].own
    decreases After(run, k).writers[t].own
  {
    hide After, EventsOf, EventRows, Overtaken;
    var r := After(run, k);
    var own := r.writers[t].own;
    var rows := EventRows(r.db.tables, run.id);
    assert HasAppended(run, r.writers[t], t);
    assert InsertedBy(run, r.writers, own, rows[own]);
    var u :| 0 <= u < |r.writers| && HasInserted(run, r.writers[u], u) && r.writers[u].number == own && run.jobs[u].event == rows[own];
    assert NumberHolds(run, k, u);
    if u != t {
      assert r.writers[u].own < own;
      FullRowsMeanOwnNumbers(run, k, u);
    }
  }

  lemma OwnNumbersMeanMirror(run: Run, k: nat)
    requires k <= |run.turns| && Inv(run, k) && AllThrough(After(run, k))
    requires forall t :: 0 <= t < |run.jobs| && run.jobs[t].Logs? ==> After(run, k).writers[t].number == After(run, k).writers[t].own
    ensures var d := After(run, k).db; Numbers(EventRows(d.tables, run.id), EventsOf(d.store, run.id))
  {
    hide After, EventsOf, EventRows, Overtaken, NumberTells;
    var r := After(run, k);
    var events, rows := EventsOf(r.db.store, run.id), EventRows(r.db.tables, run.id);
    var base := EventsOf(run.start.store, run.id);
    forall i: nat
      ensures i in rows <==> i < |events|
      ensures i < |events| ==> rows[i] == events[i]
    {
      if |base| <= i < |events| {
        assert OwnedBy(run, r.writers, i);
        var t :| 0 <= t < |r.writers| && HasAppended(run, r.writers[t], t) && r.writers[t].own == i;
        assert HasInserted(run, r.writers[t], t);
      }
      if |base| <= i && i in rows {
        assert InsertedBy(run, r.writers, i, rows[i]);
        var u :| 0 <= u < |r.writers| && HasInserted(run, r.writers[u], u) && r.writers[u].number == i && run.jobs[u].event == rows[i];
        assert HasAppended(run, r.writers[u], u);
      }
    }
  }

  /** Main result: whatever the schedule, when all threads are through, the rows mirror the
      log exactly when no append was overtaken by another between its memory step and its
      reading of the sequence number. */
  lemma RowsMirrorIffNotOvertaken(run: Run)
    requires UpsertsAreEventFree(run) && Mirrors(run.start) && AllThrough(After(run, |run.turns|))
    ensures var d := After(run, |run.turns|).db;
            Numbers(EventRows(d.tables, run.id), EventsOf(d.store, run.id))
            <==> forall t :: 0 <= t < |run.jobs| && run.jobs[t].Logs? ==> !Overtaken(run, |run.turns|, t)
  {
    hide After, EventsOf, EventRows, Overtaken;
    var k := |run.turns|;
    RunKeeps(run, k);
    var r := After(run, k);
    forall t | 0 <= t < |run.jobs| && run.jobs[t].Logs?
      ensures r.writers[t].number == r.writers[t].own <==> !Overtaken(run, k, t)
    {
      assert NumberHolds(run, k, t);
    }
    if Numbers(EventRows(r.db.tables, run.id), EventsOf(r.db.store, run.id)) {
      forall t | 0 <= t < |run.jobs| && run.jobs[t].Logs?
        ensures !Overtaken(run, k, t)
      {
        FullRowsMeanOwnNumbers(run, k, t);
      }
    }
    if forall t :: 0 <= t < |run.jobs| && run.jobs[t].Logs? ==> !Overtaken(run, k, t) {
      OwnNumbersMeanMirror(run, k);
    }
  }

  function Below(n: nat): (s: set<nat>)
    ensures |s| == n && forall i: nat :: i in s <==> i < n
  {
    if n == 0 then {} else Below(n - 1) + {n - 1}
  }

  lemma {:induction false} SubsetIsSmaller(a: set<nat>, b: set<nat>)
    requires a <= b
    ensures |a| <= |b| && (a != b ==> |a| < |b|)
  {
    if a != {} {
      var x :| x in a;
      SubsetIsSmaller(a - {x}, b - {x});
      assert a != b ==> a - {x} != b - {x};
    } else if b != {} {
      var y :| y in b;
    }
  }

  /** Rows numbered below the length of a log read back as the log only if none is missing. */
  lemma ReadsBackIffMirror(rows: map<nat, Event>, events: seq<Event>)
    requires forall i: nat :: i in rows ==> i < |events|
    requires (forall i: nat :: i in rows <==> i < |events|) ==> Numbers(rows, events)
    ensures Ascending(rows) == events <==> Numbers(rows, events)
    ensures !Numbers(rows, events) ==> |Ascending(rows)| < |events|
  {
    hide Ascending;
    if Numbers(rows, events) {
      AscendingFrom(rows, events, 0);
    } else {
      AscendingLength(rows);
      SubsetIsSmaller(rows.Keys, Below(|events|));
    }
  }

  /** ... and it is exactly then that a restart reads back the log; otherwise events are lost. */
  lemma LogReadsBackIffNotOvertaken(run: Run)
    requires UpsertsAreEventFree(run) && Mirrors(run.start) && AllThrough(After(run, |run.turns|))
    ensures var d := After(run, |run.turns|).db;
            var rows, events := EventRows(d.tables, run.id), EventsOf(d.store, run.id);
            if forall t :: 0 <= t < |run.jobs| && run.jobs[t].Logs? ==> !Overtaken(run, |run.turns|, t)
            then Ascending(rows) == events else |Ascending(rows)| < |events|
  {
    hide After, EventsOf, EventRows, Overtaken, Ascending, Mirrors;
    var k := |run.turns|;
    RunKeeps(run, k);
    RowsMirrorIffNotOvertaken(run);
    RowsStayBelow(run, k);
    var d := After(run, k).db;
    var rows, events := EventRows(d.tables, run.id), EventsOf(d.store, run.id);
    if forall i: nat :: i in rows <==> i < |events| {
      forall t | 0 <= t < |run.jobs| && run.jobs[t].Logs?
        ensures After(run, k).writers[t].number == After(run, k).writers[t].own
      {
        FullRowsMeanOwnNumbers(run, k, t);
      }
      OwnNumbersMeanMirror(run, k);
    }
    ReadsBackIffMirror(rows, events);
  }

  lemma RowsStayBelow(run: Run, k: nat)
    requires k <= |run.turns| && Inv(run, k)
    ensures var d := After(run, k).db; forall i: nat :: i in EventRows(d.tables, run.id) ==> i < |EventsOf(d.store, run.id)|
  {
    hide After, EventsOf, EventRows, Overtaken;
    var r := After(run, k);
    var rows, events := EventRows(r.db.tables, run.id), EventsOf(r.db.store, run.id);
    var base := EventsOf(run.start.store, run.id);
    forall i: nat | i in rows
      ensures i < |events|
    {
      if |base| <= i {
        assert InsertedBy(run, r.writers, i, rows[i]);
        var u :| 0 <= u < |r.writers| && HasInserted(run, r.writers[u], u) && r.writers[u].number == i && run.jobs[u].event == rows[i];
        assert NumberHolds(run, k, u);
      }
    }
  }

  /** Two appends: the mirror holds exactly when the one that appended first read its number
      before the other's memory step, which is to say when it took the second turn too. */
  lemma TwoAppendsMirrorIff(run: Run, e1: Event, e2: Event)
    requires run.jobs == [Logs(e1), Logs(e2)] && Mirrors(run.start) && |run.turns| >= 2
    requires run.turns[0] < 2 && run.turns[1] < 2 && AllThrough(After(run, |run.turns|))
    ensures var d := After(run, |run.turns|).db;
            Numbers(EventRows(d.tables, run.id), EventsOf(d.store, run.id)) <==> run.turns[0] == run.turns[1]
  {
    hide After, EventsOf, EventRows, Mirrors;
    var first, k := run.turns[0], |run.turns|;
    var other := 1 - first;
    RowsMirrorIffNotOvertaken(run);
    FirstTurns(run);
    if run.turns[1] == first {
      forall t | 0 <= t < |run.jobs| && run.jobs[t].Logs?
        ensures !Overtaken(run, k, t)
      {
        NeverOvertaken(run, k, t);
      }
    } else {
      assert Appends(run, 1) && After(run, 1).writers[first].stage.ReadsNumber?;
      assert Overtaken(run, k, first);
    }
  }

  lemma FirstTurns(run: Run)
    requires |run.jobs| == 2 && run.jobs[0].Logs? && run.jobs[1].Logs? && |run.turns| >= 2
    requires run.turns[0] < 2 && run.turns[1] < 2
    ensures var first, w := run.turns[0], After(run, 1).writers;
            && w[first].stage.ReadsNumber? && w[1 - first].stage.Begins?
            && (run.turns[1] == first ==> After(run, 2).writers[first].stage.InsertsRow? && After(run, 2).writers[1 - first].stage.Begins?)
    ensures After(run, 0).writers[0].stage.Begins? && After(run, 0).writers[1].stage.Begins?
  {
    assert After(run, 1) == Move(run, After(run, 0), run.turns[0]);
    assert After(run, 2) == Move(run, After(run, 1), run.turns[1]);
  }

  function Rank(s: Stage): nat {
    match s
    case Begins => 0
    case ReadsNumber => 1
    case InsertsRow => 2
    case TakesSnapshot => 3
    case WritesRow => 4
    case Through => 5
  }

  lemma MoveAdvances(run: Run, r: Race, u: nat, t: nat)
    requires |r.writers| == |run.jobs| && t < |run.jobs|
    ensures Rank(r.writers[t].stage) <= Rank(Move(run, r, u).writers[t].stage)
  {
    hide AppendEvent, Upsert, UpsertUnlessCancelled, EventsOf, RecordOf, InsertEvent;
  }

  lemma {:induction false} StagesAdvance(run: Run, i: nat, k: nat, t: nat)
    requires i <= k <= |run.turns| && t < |run.jobs|
    ensures Rank(After(run, i).writers[t].stage) <= Rank(After(run, k).writers[t].stage)
  {
    hide Move, Rank;
    if i < k {
      StagesAdvance(run, i, k - 1, t);
      MoveAdvances(run, After(run, k - 1), run.turns[k - 1], t);
    }
  }

  /** The first thread reads at its second turn; by then the other has not begun. */
  lemma NeverOvertaken(run: Run, k: nat, t: nat)
    requires |run.jobs| == 2 && run.jobs[0].Logs? && run.jobs[1].Logs? && 2 <= |run.turns| && k <= |run.turns| && t < 2
    requires run.turns[0] == run.turns[1] < 2
    ensures !Overtaken(run, k, t)
  {
    hide After;
    FirstTurns(run);
    var first := run.turns[0];
    if Overtaken(run, k, t) {
      var j: nat :| j < k && Appends(run, j) && run.turns[j] != t && After(run, j).writers[t].stage.ReadsNumber?;
      assert j >= 2;
      StagesAdvance(run, 2, j, first);
    }
  }

  // ---- the scalars ----

  /** Turn k writes the scalar row. */
  predicate WritesAt(run: Run, k: nat)
    requires k < |run.turns|
  {
    run.turns[k] < |run.jobs| && After(run, k).writers[run.turns[k]].stage.WritesRow?
  }

  predicate SnapsAt(run: Run, k: nat, t: nat)
    requires k < |run.turns|
  {
    run.turns[k] == t < |run.jobs| && After(run, k).writers[t].stage.TakesSnapshot?
  }

  /** The last of the first k turns in which thread t took its snapshot. */
  function SnapshotTurn(run: Run, k: nat, t: nat): (j: Option<nat>)
    requires k <= |run.turns|
    ensures j.Some? ==> j.value < k && SnapsAt(run, j.value, t)
  {
    if k == 0 then None else if SnapsAt(run, k - 1, t) then Some(k - 1) else SnapshotTurn(run, k - 1, t)
  }

  /** The snapshot turn behind the last row write among the first k turns. */
  function RowTurn(run: Run, k: nat): (j: Option<nat>)
    requires k <= |run.turns|
    ensures j.Some? ==> j.value < k
  {
    if k == 0 then None
    else if WritesAt(run, k - 1) then SnapshotTurn(run, k - 1, run.turns[k - 1])
    else RowTurn(run, k - 1)
  }

  function MemoryScalars(run: Run, k: nat): map<string, string>
    requires k <= |run.turns|
  {
    RecordOf(After(run, k).db.store, run.id).scalars
  }

  lemma {:induction false} SnapshotIsMemory(run: Run, k: nat, t: nat)
    requires k <= |run.turns| && t < |run.jobs| && After(run, k).writers[t].stage.WritesRow?
    ensures var j := SnapshotTurn(run, k, t);
            j.Some? && After(run, k).writers[t].snapshot == MemoryScalars(run, j.value)
  {
    hide RecordOf;
    if k > 0 && !SnapsAt(run, k - 1, t) {
      SnapshotIsMemory(run, k - 1, t);
    }
  }

  /** The stored scalars are those memory had at the snapshot behind the last row write. */
  lemma {:induction false} StoredIsSnapshot(run: Run, k: nat)
    requires k <= |run.turns|
    ensures var rows, j := After(run, k).db.tables.rows, RowTurn(run, k);
            if j.Some? then run.id in rows && rows[run.id] == MemoryScalars(run, j.value)
            else run.id in rows <==> run.id in run.start.tables.rows
  {
    hide RecordOf, SnapshotTurn, MemoryScalars;
    if k > 0 {
      var m := k - 1;
      StoredIsSnapshot(run, m);
      if WritesAt(run, m) {
        SnapshotIsMemory(run, m, run.turns[m]);
      } else {
        RowsStay(run, m);
      }
    }
  }

  lemma RowsStay(run: Run, k: nat)
    requires k < |run.turns| && !WritesAt(run, k)
    ensures After(run, k + 1).db.tables.rows == After(run, k).db.tables.rows
  {
  }

  /** The status of the run in memory after k turns, and in the table. */
  function MemoryStatus(run: Run, k: nat): Option<string>
    requires k <= |run.turns|
  {
    StatusOf(After(run, k).db.store, run.id)
  }

  function StoredStatus(run: Run, k: nat): Option<string>
    requires k <= |run.turns|
  {
    var rows := After(run, k).db.tables.rows;
    if run.id in rows && "status" in rows[run.id] then Some(rows[run.id]["status"]) else None
  }

  /** Main result: when memory takes on its final status at turn c — a cancellation, say —
      the stored status is that one exactly when the last row write carries a snapshot
      taken after turn c. */
  lemma StoredStatusIff(run: Run, c: nat, k: nat)
    requires c < k <= |run.turns| && RowTurn(run, k).Some?
    requires forall i: nat :: c < i <= k ==> MemoryStatus(run, i) == MemoryStatus(run, k)
    requires forall i: nat :: i <= c ==> MemoryStatus(run, i) != MemoryStatus(run, k)
    ensures StoredStatus(run, k) == MemoryStatus(run, k) <==> RowTurn(run, k).value > c
  {
    hide After, RowTurn;
    StoredIsSnapshot(run, k);
    var j := RowTurn(run, k).value;
    assert StoredStatus(run, k) == MemoryStatus(run, j);
  }

  lemma UpsertedStatus(s: Store, id: string, status: string, now: string)
    ensures StatusOf(Upsert(s, id, Record(map["status" := status], []), now), id) == Some(status)
  {
  }

  lemma WrittenStatus(run: Run, k: nat, s: Store)
    requires k <= |run.turns|
    requires run.id in After(run, k).db.tables.rows && After(run, k).db.tables.rows[run.id] == RecordOf(s, run.id).scalars
    ensures StoredStatus(run, k) == StatusOf(s, run.id)
  {
  }

  /** A cancel between another call's snapshot and its row write is lost on a restart: the
      engine marks the run `running` and takes its snapshot, the cancel goes all the way,
      and the engine's older row is written last. */
  lemma CancelLostOnRestart(start: Db, id: string, now: string)
    requires StatusOf(start.store, id) != Some("cancelled")
    ensures var jobs := [Puts(Record(map["status" := "running"], []), true), Puts(Record(map["status" := "cancelled"], []), false)];
            var run := Run(start, id, jobs, [0, 0, 1, 1, 1, 0], now);
            && AllThrough(After(run, 6))
            && MemoryStatus(run, 6) == Some("cancelled") && StoredStatus(run, 6) == Some("running")
  {
    hide After, Upsert, StatusOf, RecordOf, EventsOf, StoredStatus;
    var jobs := [Puts(Record(map["status" := "running"], []), true), Puts(Record(map["status" := "cancelled"], []), false)];
    var run := Run(start, id, jobs, [0, 0, 1, 1, 1, 0], now);
    var s1 := Upsert(start.store, id, jobs[0].update, now);
    var s2 := Upsert(s1, id, jobs[1].update, now);
    StepOf(run, 0);
    StepOf(run, 1);
    assert After(run, 2).db == start.(store := s1);
    assert After(run, 2).writers[0] == Writer(WritesRow, 0, 0, RecordOf(s1, id).scalars);
    StepOf(run, 2);
    StepOf(run, 3);
    assert After(run, 4).db == start.(store := s2);
    StepOf(run, 4);
    StepOf(run, 5);
    UpsertedStatus(start.store, id, "running", now);
    UpsertedStatus(s1, id, "cancelled", now);
    WrittenStatus(run, 6, s1);
  }

  lemma StepOf(run: Run, k: nat)
    requires k < |run.turns|
    ensures After(run, 0) == Race(run.start, seq(|run.jobs|, _ => Writer(Begins, 0, 0, map[])))
    ensures After(run, k + 1) == Move(run, After(run, k), run.turns[k])
  {
  }
}
