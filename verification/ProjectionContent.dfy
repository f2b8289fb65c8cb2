/** What a worker projects: exactly-once application together with dead-lettering, preserved by
    a call if and only if the call does not lose its batch. */
module ProjectionContent {
  import opened Wrappers
  import opened ProjectionStore
  import opened ProjectionSteps
  import opened ProjectionMarks

  /** The committed and the uncommitted effects together cover every owned partition exactly
      up to the handled watermark. Without an open transaction, nothing handled is uncommitted. */
  ghost predicate Sound(mine: iset<nat>, db: Database, w: WorkerState) {
    match w.tx
    case None => forall p: nat :: p in mine ==> Next(db.checkpoints, p) == Next(w.handled, p)
    case Some(t) =>
      && OwnOnly(mine, t)
      && forall p: nat :: p in mine ==>
          Exact(db.effects + t.effects, db.deadLetters + t.deadLetters, p, Next(w.handled, p))
  }

  ghost predicate OwnOnly(mine: iset<nat>, t: Transaction) {
    && (forall e :: e in t.effects ==> e.partition in mine)
    && (forall e :: e in t.deadLetters ==> e.partition in mine)
  }

  /** The effects of `e` and of the batch it joins are on top of `extra`. */
  ghost predicate Baseline(mine: iset<nat>, db: Database, extra: seq<EventRef>, handled: map<nat, nat>) {
    && (forall e :: e in extra ==> e.partition in mine)
    && forall p: nat :: p in mine ==> Exact(db.effects + extra, db.deadLetters, p, Next(handled, p))
  }

  // ---- Flush ----

  lemma ForeignUntouched(mine: iset<nat>, db: Database, t: Transaction, p: nat, n: nat)
    requires OwnOnly(mine, t) && p !in mine && Exact(db.effects, db.deadLetters, p, n)
    ensures Exact(db.effects + t.effects, db.deadLetters + t.deadLetters, p, n)
  {
    AppliedConcat(db.effects, t.effects, p);
    if AppliedTo(t.effects, p) != [] {
      AppliedMember(t.effects, p, AppliedTo(t.effects, p)[0]);
    }
    SurvivorsFrame(db.deadLetters, db.deadLetters + t.deadLetters, p, n);
  }

  /** An effective COMMIT publishes effects, dead letters and checkpoints of all partitions together. */
  lemma CommitSound(mine: iset<nat>, db: Database, w: WorkerState, io: FlushIo)
    requires w.tx.Some? && Projected(db) && Marks(mine, db, w) && RowsHandled(mine, w) && Sound(mine, db, w)
    requires IsOrder(io.order, w.handled.Keys) && WriteFrom(db, w.tx.value, w, io, 0).ok
    ensures var db' := Commit(db, WriteFrom(db, w.tx.value, w, io, 0).tx);
            && Projected(db')
            && forall p: nat :: p in mine ==> Next(db'.checkpoints, p) == Next(w.handled, p)
  {
    var t, r := w.tx.value, WriteFrom(db, w.tx.value, w, io, 0).tx;
    var db' := Commit(db, r);
    CommitCatchesUp(mine, db, w, io);
    assert WritesOwn(mine, w);
    WriteFromRows(mine, db, t, w, io, 0);
    forall p: nat
      ensures Exact(db'.effects, db'.deadLetters, p, Next(db'.checkpoints, p))
    {
      if !r.broken && p !in mine {
        ForeignUntouched(mine, db, t, p, Next(db.checkpoints, p));
      }
    }
  }

  /** Soundness ignores checkpoint rows inside the transaction and its usability. */
  lemma SoundSameContent(mine: iset<nat>, db: Database, w: WorkerState, t: Transaction)
    requires w.tx.Some? && Sound(mine, db, w)
    requires t.effects == w.tx.value.effects && t.deadLetters == w.tx.value.deadLetters
    ensures Sound(mine, db, w.(tx := Some(t)))
  {}

  lemma FlushOnceSound(mine: iset<nat>, db: Database, w: WorkerState, io: FlushIo)
    requires Projected(db) && Marks(mine, db, w) && RowsHandled(mine, w) && Sound(mine, db, w)
    requires IsOrder(io.order, w.handled.Keys)
    ensures var o := FlushOnce(db, w, io);
            && Projected(o.db)
            && ((w.tx.Some? && o.worker.tx.None? && io.commit.Rejected?) || Sound(mine, o.db, o.worker))
  {
    if w.tx.Some? {
      var r := WriteFrom(db, w.tx.value, w, io, 0);
      if r.ok && io.finalFlushOk {
        CommitSound(mine, db, w, io);
      } else {
        assert WritesOwn(mine, w);
        WriteFromRows(mine, db, w.tx.value, w, io, 0);
        SoundSameContent(mine, db, w, r.tx);
        SoundSameContent(mine, db, w, r.tx.(broken := r.tx.broken || io.breaks));
      }
    }
  }

  /** Forgetting, one attempt at a time. */
  lemma ForgetsNext(db: Database, w: WorkerState, ios: seq<FlushIo>)
    requires ios != []
    ensures var o := FlushOnce(db, w, ios[0]);
            ForgetsBatch(db, w, ios) <==>
              && w.tx.Some? && |ios| > 1 && !o.ok
              && (if o.worker.tx.None? then ios[0].commit.Rejected? else ForgetsBatch(o.db, o.worker, ios[1..]))
  {}

  /** Whatever fails, the committed tables stay exact; the worker stays sound unless a rejected
      COMMIT is forgotten. */
  lemma {:induction false} FlushAllSound(mine: iset<nat>, db: Database, w: WorkerState, ios: seq<FlushIo>)
    requires Projected(db) && Marks(mine, db, w) && RowsHandled(mine, w) && Sound(mine, db, w) && ios != []
    requires forall i :: 0 <= i < |ios| ==> IsOrder(ios[i].order, w.handled.Keys)
    ensures var o := FlushAll(db, w, ios);
            Projected(o.db) && (o.ok && !ForgetsBatch(db, w, ios) ==> Sound(mine, o.db, o.worker))
    decreases |ios|
  {
    var o := FlushOnce(db, w, ios[0]);
    ForgetsNext(db, w, ios);
    FlushOnceSound(mine, db, w, ios[0]);
    FlushOnceMarks(mine, db, w, ios[0]);
    if !o.ok && |ios| > 1 {
      if o.worker.tx.None? {
        FlushIdle(o.db, o.worker, ios[1..]);
      } else {
        FlushAllSound(mine, o.db, o.worker, ios[1..]);
      }
    }
  }

  lemma FlushIdle(db: Database, w: WorkerState, ios: seq<FlushIo>)
    requires ios != [] && w.tx.None?
    ensures FlushAll(db, w, ios) == Outcome(db, w, true)
  {}

  /** A forgotten batch: success is reported, nothing was committed, no transaction is left. */
  lemma {:induction false} FlushAllForgets(db: Database, w: WorkerState, ios: seq<FlushIo>)
    requires ios != [] && ForgetsBatch(db, w, ios)
    ensures var o := FlushAll(db, w, ios);
            o.ok && o.db == db && o.worker.tx.None? && o.worker.handled == w.handled
    decreases |ios|
  {
    var o := FlushOnce(db, w, ios[0]);
    ForgetsNext(db, w, ios);
    if o.worker.tx.None? {
      FlushIdle(o.db, o.worker, ios[1..]);
    } else {
      FlushAllForgets(o.db, o.worker, ios[1..]);
    }
  }

  // ---- A call that keeps its batch ----

  lemma BaselineApply(mine: iset<nat>, db: Database, extra: seq<EventRef>, handled: map<nat, nat>, e: EventRef)
    requires Baseline(mine, db, extra, handled) && e.partition in mine && Next(handled, e.partition) == e.sequence
    ensures Baseline(mine, db, extra + [e], handled[e.partition := e.sequence])
  {
    assert db.effects + (extra + [e]) == (db.effects + extra) + [e];
    forall p: nat | p in mine
      ensures Exact(db.effects + (extra + [e]), db.deadLetters, p, Next(handled[e.partition := e.sequence], p))
    {
      ExactApply(db.effects + extra, db.deadLetters, e, p, Next(handled, p));
    }
  }

  lemma BaselineSound(mine: iset<nat>, db: Database, w: WorkerState)
    requires w.tx.Some? && w.tx.value.deadLetters == map[] && Baseline(mine, db, w.tx.value.effects, w.handled)
    ensures Sound(mine, db, w)
  {
    assert db.deadLetters + w.tx.value.deadLetters == db.deadLetters;
  }

  lemma RecordedSound(mine: iset<nat>, db: Database, w: WorkerState, e: EventRef, extra: seq<EventRef>)
    requires Baseline(mine, db, extra, w.handled) && e.partition in mine && Next(w.handled, e.partition) == e.sequence
    requires w.tx.Some? && w.tx.value.effects == extra + [e] && w.tx.value.deadLetters == map[]
    ensures Sound(mine, db, Recorded(w, e))
  {
    BaselineApply(mine, db, extra, w.handled, e);
    BaselineSound(mine, db, Recorded(w, e));
  }

  lemma BuriedSound(mine: iset<nat>, db: Database, w: WorkerState, e: EventRef, extra: seq<EventRef>)
    requires Baseline(mine, db, extra, w.handled) && e.partition in mine && Next(w.handled, e.partition) == e.sequence
    requires w.tx.Some? && w.tx.value.effects == extra && w.tx.value.deadLetters == map[]
    ensures Sound(mine, db, Buried(db, w, e))
  {
    var t, w1 := w.tx.value, Buried(db, w, e);
    ExactCovers(db.effects + extra, db.deadLetters, e.partition, e.sequence, e.sequence);
    assert db.deadLetters + t.deadLetters == db.deadLetters;
    assert db.deadLetters + w1.tx.value.deadLetters == db.deadLetters[e := 1];
    forall p: nat | p in mine
      ensures Exact(db.effects + t.effects, db.deadLetters[e := 1], p, Next(w1.handled, p))
    {
      ExactBury(db.effects + extra, db.deadLetters, e, p, Next(w.handled, p));
    }
  }

  /** Without a transaction a dead letter is published with its checkpoint alone; that is exact
      when its partition has nothing uncommitted. */
  lemma StandaloneProjected(mine: iset<nat>, db: Database, db': Database, e: EventRef)
    requires Projected(db) && Next(db.checkpoints, e.partition) == e.sequence
    requires db' == Database(db.effects, db.checkpoints[e.partition := e.sequence],
                             db.deadLetters[e := Attempts(db.deadLetters, e)])
    ensures Projected(db')
  {
    ExactCovers(db.effects, db.deadLetters, e.partition, e.sequence, e.sequence);
    forall p: nat
      ensures Exact(db'.effects, db'.deadLetters, p, Next(db'.checkpoints, p))
    {
      ExactBury(db.effects, db.deadLetters, e, p, Next(db.checkpoints, p));
    }
  }

  lemma SettleIdle(cfg: Config, db: Database, w: WorkerState, e: EventRef, flush: seq<FlushIo>)
    requires w.tx.None? && flush != []
    ensures Settle(cfg, db, w, e, flush) == Outcome(db, Recorded(w, e), true)
  {}

  lemma ConcludeSucceeded(cfg: Config, mine: iset<nat>, db: Database, w: WorkerState, e: EventRef, io: HandleIo,
      extra: seq<EventRef>)
    requires Projected(db) && Marks(mine, db, w) && e.partition in mine && Next(w.handled, e.partition) == e.sequence
    requires Baseline(mine, db, extra, w.handled)
    requires w.tx.Some? && w.tx.value.effects == extra + [e] && w.tx.value.checkpoints == map[]
    requires w.tx.value.deadLetters == map[]
    requires io.deadFlush != [] && OrdersOf(io.flush, w.handled.Keys + {e.partition})
    ensures var o, f := Conclude(cfg, db, w, e, Succeeded, io), FlushPoint(cfg, db, w, e, Succeeded, io);
            && Projected(o.db)
            && (o.ok && !(f.Some? && ForgetsBatch(db, f.value.0, f.value.1)) ==> Sound(mine, o.db, o.worker))
  {
    var w1 := Recorded(w, e);
    RecordedSound(mine, db, w, e, extra);
    RecordMarks(mine, db, w, e);
    assert w1.handled.Keys == w.handled.Keys + {e.partition};
    if w1.sinceFlush >= ActiveInterval(cfg, w1) {
      FlushAllSound(mine, db, w1, io.flush);
    }
  }

  lemma DeadLetterRetained(mine: iset<nat>, db: Database, w: WorkerState, e: EventRef, extra: seq<EventRef>,
      flush: seq<FlushIo>)
    requires Projected(db) && Marks(mine, db, w) && e.partition in mine && Next(w.handled, e.partition) == e.sequence
    requires Baseline(mine, db, extra, w.handled)
    requires w.tx.Some? && w.tx.value.effects == extra && w.tx.value.checkpoints == map[]
    requires w.tx.value.deadLetters == map[]
    requires OrdersOf(flush, w.handled.Keys + {e.partition})
    ensures var w1 := Buried(db, w, e);
            var o := FlushAll(db, w1, flush);
            && Projected(o.db) && (o.ok ==> o.worker.tx.None?)
            && o.worker.handled == w.handled[e.partition := e.sequence]
            && (o.ok && !ForgetsBatch(db, w1, flush) ==> Sound(mine, o.db, o.worker))
  {
    BuriedSound(mine, db, w, e, extra);
    BuriedMarks(mine, db, w, e);
    FlushAllSound(mine, db, Buried(db, w, e), flush);
    FlushAllMarks(mine, db, Buried(db, w, e), flush);
  }

  lemma RecordAgain(mine: iset<nat>, db: Database, w: WorkerState, e: EventRef)
    requires w.tx.None? && e.partition in w.handled && w.handled[e.partition] == e.sequence
    ensures Sound(mine, db, w) ==> Sound(mine, db, Recorded(w, e))
  {
    assert w.handled[e.partition := e.sequence] == w.handled;
  }

  lemma ConcludeRetained(cfg: Config, mine: iset<nat>, db: Database, w: WorkerState, e: EventRef, io: HandleIo,
      extra: seq<EventRef>)
    requires Projected(db) && Marks(mine, db, w) && e.partition in mine && Next(w.handled, e.partition) == e.sequence
    requires Baseline(mine, db, extra, w.handled)
    requires w.tx.Some? && w.tx.value.effects == extra && w.tx.value.checkpoints == map[]
    requires w.tx.value.deadLetters == map[]
    requires io.flush != [] && OrdersOf(io.deadFlush, w.handled.Keys + {e.partition})
    ensures var o, f := Conclude(cfg, db, w, e, FailedPermanent, io), FlushPoint(cfg, db, w, e, FailedPermanent, io);
            && Projected(o.db)
            && (o.ok && !(f.Some? && ForgetsBatch(db, f.value.0, f.value.1)) ==> Sound(mine, o.db, o.worker))
  {
    DeadLetterRetained(mine, db, w, e, extra, io.deadFlush);
    var o := DeadLetter(db, w, e, io.dead, io.deadFlush);
    if o.ok {
      SettleIdle(cfg, o.db, o.worker, e, io.flush);
      RecordAgain(mine, o.db, o.worker, e);
    }
  }

  lemma ConcludeStandalone(cfg: Config, mine: iset<nat>, db: Database, w: WorkerState, e: EventRef, io: HandleIo)
    requires Projected(db) && Marks(mine, db, w) && e.partition in mine && Next(w.handled, e.partition) == e.sequence
    requires w.tx.None? && io.flush != [] && io.deadFlush != []
    ensures var o := Conclude(cfg, db, w, e, FailedPermanent, io);
            && (Next(db.checkpoints, e.partition) == e.sequence ==> Projected(o.db))
            && (Sound(mine, db, w) && o.ok ==> Sound(mine, o.db, o.worker))
  {
    var o := DeadLetter(db, w, e, io.dead, io.deadFlush);
    if o.db != db && Next(db.checkpoints, e.partition) == e.sequence {
      StandaloneProjected(mine, db, o.db, e);
    }
    if o.ok {
      SettleIdle(cfg, o.db, o.worker, e, io.flush);
    }
  }
}
