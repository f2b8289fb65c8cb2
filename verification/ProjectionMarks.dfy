/** The watermarks of a worker, in every run whatever fails: it flushes only the partitions it
    owns, committed checkpoints never move back, and flushed <= committed <= handled. */
module ProjectionMarks {
  import opened Wrappers
  import opened ProjectionStore
  import opened ProjectionSteps

  /** `handled` and `flushed` are ordered around the committed checkpoint on owned partitions
      and equal on foreign ones. */
  ghost predicate Marks(mine: iset<nat>, db: Database, w: WorkerState)
  {
    forall p: nat ::
      if p in mine then Next(w.flushed, p) <= Next(db.checkpoints, p) <= Next(w.handled, p)
      else Next(w.flushed, p) == Next(w.handled, p)
  }

  /** Checkpoint rows written inside the open transaction are those of the handled map. */
  ghost predicate RowsHandled(mine: iset<nat>, w: WorkerState) {
    w.tx.Some? ==> RowsOf(mine, w.tx.value.checkpoints, w.handled)
  }

  ghost predicate RowsOf(mine: iset<nat>, rows: map<nat, nat>, handled: map<nat, nat>) {
    forall p :: p in rows ==> p in mine && p in handled && rows[p] == handled[p]
  }

  ghost predicate WritesOwn(mine: iset<nat>, w: WorkerState) {
    forall p :: NeedsWrite(w, p) ==> p in mine
  }

  /** Between calls an open transaction holds no checkpoint row and no dead letter. */
  ghost predicate Steady(w: WorkerState) {
    w.tx.Some? ==> w.tx.value.checkpoints == map[] && w.tx.value.deadLetters == map[] && w.tx.value.effects != []
  }

  /** Committed checkpoints move forward, and only on partitions the worker owns. */
  ghost predicate Advances(mine: iset<nat>, db: Database, db': Database)
  {
    forall p: nat ::
      && Next(db.checkpoints, p) <= Next(db'.checkpoints, p)
      && (p !in mine ==> Next(db.checkpoints, p) == Next(db'.checkpoints, p))
  }

  lemma {:induction false} WriteFromRows(mine: iset<nat>, db: Database, t: Transaction, w: WorkerState, io: FlushIo,
      i: nat)
    requires i <= |io.order| && WritesOwn(mine, w) && RowsOf(mine, t.checkpoints, w.handled)
    ensures var r := WriteFrom(db, t, w, io, i);
            && r.tx.effects == t.effects && r.tx.deadLetters == t.deadLetters
            && RowsOf(mine, r.tx.checkpoints, w.handled)
            && t.checkpoints.Keys <= r.tx.checkpoints.Keys
            && (r.ok ==> r.tx.broken == t.broken)
    decreases |io.order| - i
  {
    if i < |io.order| {
      var p := io.order[i];
      if NeedsWrite(w, p) {
        var one := WriteOne(db, t, w, p, io.failAt == Some(i), io.breaks);
        if one.ok {
          WriteFromRows(mine, db, one.tx, w, io, i + 1);
        }
      } else {
        WriteFromRows(mine, db, t, w, io, i + 1);
      }
    }
  }

  lemma {:induction false} WriteFromCovers(mine: iset<nat>, db: Database, t: Transaction, w: WorkerState,
      io: FlushIo, i: nat, j: nat)
    requires i <= j < |io.order| && WritesOwn(mine, w) && RowsOf(mine, t.checkpoints, w.handled)
    requires WriteFrom(db, t, w, io, i).ok && NeedsWrite(w, io.order[j])
    ensures io.order[j] in WriteFrom(db, t, w, io, i).tx.checkpoints && !t.broken
    decreases |io.order| - i
  {
    var p := io.order[i];
    if NeedsWrite(w, p) {
      var one := WriteOne(db, t, w, p, io.failAt == Some(i), io.breaks);
      if i < j {
        WriteFromCovers(mine, db, one.tx, w, io, i + 1, j);
      } else {
        WriteFromRows(mine, db, one.tx, w, io, i + 1);
      }
    } else {
      WriteFromCovers(mine, db, t, w, io, i + 1, j);
    }
  }

  /** A flush whose writes all succeed commits exactly the handled watermark of every owned
      partition and leaves every other row alone, in whatever order the map is iterated. */
  lemma CommitCatchesUp(mine: iset<nat>, db: Database, w: WorkerState, io: FlushIo)
    requires w.tx.Some?
    requires Marks(mine, db, w) && RowsHandled(mine, w) && IsOrder(io.order, w.handled.Keys)
    requires WriteFrom(db, w.tx.value, w, io, 0).ok
    ensures var db' := Commit(db, WriteFrom(db, w.tx.value, w, io, 0).tx);
            forall p: nat :: Next(db'.checkpoints, p) == Next(if p in mine then w.handled else db.checkpoints, p)
    ensures WriteFrom(db, w.tx.value, w, io, 0).tx.broken ==> forall p :: !NeedsWrite(w, p)
  {
    var t := w.tx.value;
    assert WritesOwn(mine, w);
    WriteFromRows(mine, db, t, w, io, 0);
    var r := WriteFrom(db, t, w, io, 0).tx;
    var db' := Commit(db, r);
    forall p | NeedsWrite(w, p)
      ensures p in r.checkpoints && !r.broken
    {
      assert p in io.order;
      var j :| 0 <= j < |io.order| && io.order[j] == p;
      WriteFromCovers(mine, db, t, w, io, 0, j);
    }
    forall p: nat
      ensures Next(db'.checkpoints, p) == Next(if p in mine then w.handled else db.checkpoints, p)
    {
      if p in r.checkpoints {
        assert p in mine;
      }
      if p in mine && !NeedsWrite(w, p) {
        assert Next(w.flushed, p) == Next(w.handled, p) == Next(db.checkpoints, p);
      }
    }
  }

  lemma FlushOnceMarks(mine: iset<nat>, db: Database, w: WorkerState, io: FlushIo)
    requires Marks(mine, db, w) && RowsHandled(mine, w) && IsOrder(io.order, w.handled.Keys)
    ensures var o := FlushOnce(db, w, io);
            && Marks(mine, o.db, o.worker) && RowsHandled(mine, o.worker) && Advances(mine, db, o.db)
            && o.worker.handled == w.handled && (o.ok ==> o.worker.tx.None?)
  {
    if w.tx.Some? {
      var r := WriteFrom(db, w.tx.value, w, io, 0);
      if r.ok && io.finalFlushOk {
        if !io.commit.Rejected? {
          CommitCatchesUp(mine, db, w, io);
          CaughtUpMarks(mine, db, Commit(db, r.tx), w, FlushOnce(db, w, io).worker);
        }
      } else {
        assert WritesOwn(mine, w);
        WriteFromRows(mine, db, w.tx.value, w, io, 0);
      }
    }
  }

  lemma CaughtUpMarks(mine: iset<nat>, db: Database, db': Database, w: WorkerState, w': WorkerState)
    requires Marks(mine, db, w) && w'.handled == w.handled && w'.flushed in {w.flushed, w.handled}
    requires forall p: nat :: Next(db'.checkpoints, p) == Next(if p in mine then w.handled else db.checkpoints, p)
    ensures Marks(mine, db', w') && Advances(mine, db, db')
  {}

  lemma {:induction false} FlushAllMarks(mine: iset<nat>, db: Database, w: WorkerState, ios: seq<FlushIo>)
    requires Marks(mine, db, w) && RowsHandled(mine, w) && ios != []
    requires forall i :: 0 <= i < |ios| ==> IsOrder(ios[i].order, w.handled.Keys)
    ensures var o := FlushAll(db, w, ios);
            && Marks(mine, o.db, o.worker) && RowsHandled(mine, o.worker) && Advances(mine, db, o.db)
            && o.worker.handled == w.handled && (o.ok ==> o.worker.tx.None?)
    decreases |ios|
  {
    var o := FlushOnce(db, w, ios[0]);
    FlushOnceMarks(mine, db, w, ios[0]);
    if !o.ok && |ios| > 1 {
      FlushAllMarks(mine, o.db, o.worker, ios[1..]);
    }
  }

  /** The transaction an event ends in: the batch it was given, or a fresh one when that batch
      was dropped or none was open, plus the event itself exactly when it succeeded. */
  lemma {:induction false} AttemptAllKeeps(tx: Option<Transaction>, e: EventRef, ios: seq<AttemptIo>)
    requires ios != []
    ensures var a, kept := AttemptAll(tx, e, ios), tx.Some? && !DropsBatch(tx, e, ios);
            var base := if kept then tx.value else FRESH;
            && (kept || a.verdict.Succeeded? ==> a.tx.Some?)
            && (a.tx.Some? ==>
                 && a.tx.value.effects == base.effects + (if a.verdict.Succeeded? then [e] else [])
                 && a.tx.value.checkpoints == base.checkpoints && a.tx.value.deadLetters == base.deadLetters)
    decreases |ios|
  {
    var a := AttemptOnce(tx, e, ios[0]);
    if !a.verdict.Succeeded? && |ios| > 1 {
      AttemptAllKeeps(a.tx, e, ios[1..]);
    }
  }

  /** Recording the next event of an owned partition keeps the watermarks ordered. */
  lemma RecordMarks(mine: iset<nat>, db: Database, w: WorkerState, e: EventRef)
    requires Marks(mine, db, w) && e.partition in mine && Next(w.handled, e.partition) <= e.sequence + 1
    ensures Marks(mine, db, w.(handled := w.handled[e.partition := e.sequence]))
  {}

  lemma BuriedMarks(mine: iset<nat>, db: Database, w: WorkerState, e: EventRef)
    requires Marks(mine, db, w) && e.partition in mine && Next(w.handled, e.partition) <= e.sequence + 1
    requires w.tx.Some? && w.tx.value.checkpoints == map[]
    ensures var w1 := Buried(db, w, e);
            Marks(mine, db, w1) && RowsHandled(mine, w1) && w1.handled.Keys == w.handled.Keys + {e.partition}
  {
    RecordMarks(mine, db, w, e);
  }

  lemma SettleMarks(cfg: Config, mine: iset<nat>, db: Database, w: WorkerState, e: EventRef, flush: seq<FlushIo>)
    requires Marks(mine, db, w) && e.partition in mine
    requires Next(w.handled, e.partition) <= e.sequence + 1
    requires w.tx.Some? ==> w.tx.value.checkpoints == map[]
    requires OrdersOf(flush, w.handled.Keys + {e.partition})
    ensures var o := Settle(cfg, db, w, e, flush);
            && Advances(mine, db, o.db)
            && (o.ok ==> Marks(mine, o.db, o.worker) && o.worker.handled == w.handled[e.partition := e.sequence])
            && (o.ok ==> o.worker.tx.None? || o.worker.tx == w.tx)
  {
    var w1 := Recorded(w, e);
    RecordMarks(mine, db, w, e);
    assert w1.handled.Keys == w.handled.Keys + {e.partition};
    if w1.sinceFlush >= ActiveInterval(cfg, w1) {
      FlushAllMarks(mine, db, w1, flush);
    }
  }

  lemma DeadLetterMarks(mine: iset<nat>, db: Database, w: WorkerState, e: EventRef, io: DeadLetterIo,
      flush: seq<FlushIo>)
    requires Marks(mine, db, w) && e.partition in mine && Next(w.handled, e.partition) <= e.sequence
    requires w.tx.Some? ==> w.tx.value.checkpoints == map[]
    requires OrdersOf(flush, w.handled.Keys + {e.partition})
    ensures var o := DeadLetter(db, w, e, io, flush);
            && Advances(mine, db, o.db)
            && (o.ok ==> Marks(mine, o.db, o.worker) && o.worker.tx.None?)
            && (o.ok ==> o.worker.handled == w.handled[e.partition := e.sequence])
  {
    if w.tx.Some? {
      BuriedMarks(mine, db, w, e);
      FlushAllMarks(mine, db, Buried(db, w, e), flush);
    } else {
      RecordMarks(mine, db, w, e);
    }
  }

  lemma ConcludeMarks(cfg: Config, mine: iset<nat>, db: Database, w: WorkerState, e: EventRef, verdict: Verdict,
      io: HandleIo)
    requires Marks(mine, db, w) && e.partition in mine && Next(w.handled, e.partition) <= e.sequence
    requires w.tx.Some? ==> w.tx.value.checkpoints == map[]
    requires OrdersOf(io.deadFlush, w.handled.Keys + {e.partition})
    requires OrdersOf(io.flush, w.handled.Keys + {e.partition})
    ensures var o := Conclude(cfg, db, w, e, verdict, io);
            && Advances(mine, db, o.db)
            && (o.ok ==> Marks(mine, o.db, o.worker) && o.worker.handled == w.handled[e.partition := e.sequence])
            && (o.ok ==> o.worker.tx.None? || (o.worker.tx == w.tx && verdict.Succeeded?))
  {
    if verdict.Succeeded? {
      SettleMarks(cfg, mine, db, w, e, io.flush);
    } else if verdict.FailedPermanent? {
      DeadLetterMarks(mine, db, w, e, io.dead, io.deadFlush);
      var o := DeadLetter(db, w, e, io.dead, io.deadFlush);
      if o.ok {
        assert o.worker.handled.Keys + {e.partition} == w.handled.Keys + {e.partition};
        SettleMarks(cfg, mine, o.db, o.worker, e, io.flush);
      }
    }
  }

  /** For every event and every outcome of its I/O, the call moves no checkpoint back and no
      checkpoint of another worker at all, and keeps the watermarks ordered. */
  lemma HandleEventMarks(cfg: Config, mine: iset<nat>, db: Database, w: WorkerState, e: EventRef, io: HandleIo)
    requires Marks(mine, db, w) && Steady(w) && e.partition in mine
    requires io.attempts != []
    requires OrdersOf(io.deadFlush, w.handled.Keys + {e.partition})
    requires OrdersOf(io.flush, w.handled.Keys + {e.partition})
    ensures var o := HandleEvent(cfg, db, w, e, io);
            && Advances(mine, db, o.db)
            && (o.ok ==> Marks(mine, o.db, o.worker) && Steady(o.worker))
            && (o.ok && AlreadyHandled(w, e) ==> o.worker.handled == w.handled)
            && (o.ok && !AlreadyHandled(w, e) ==> o.worker.handled == w.handled[e.partition := e.sequence])
  {
    if !Skips(w, e, io) {
      AttemptAllKeeps(w.tx, e, io.attempts);
      ConcludeMarks(cfg, mine, db, Tried(w, e, io), e, AttemptAll(w.tx, e, io.attempts).verdict, io);
    }
  }
}
