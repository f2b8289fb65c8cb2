/** When a call of the worker loses events: exactly when it drops its open batch and carries on,
    or forgets a rejected COMMIT. */
module ProjectionLoss {
  import opened Wrappers
  import opened ProjectionStore
  import opened ProjectionSteps
  import opened ProjectionMarks
  import opened ProjectionContent

  /** Some flush attempt gets as far as COMMIT, and either that takes effect or a retry follows. */
  predicate ReachesCommit(db: Database, w: WorkerState, ios: seq<FlushIo>)
    requires ios != []
  {
    FlushCommits(db, w, ios) || ForgetsBatch(db, w, ios)
  }

  /** After its attempts the call reports success or publishes progress past the batch before it. */
  predicate GoesOn(cfg: Config, db: Database, w: WorkerState, e: EventRef, verdict: Verdict, io: HandleIo)
    requires io.deadFlush != [] && io.flush != []
  {
    match verdict
    case FailedTransient => false
    case Succeeded =>
      var w1 := Recorded(w, e);
      w1.sinceFlush < ActiveInterval(cfg, w1) || ReachesCommit(db, w1, io.flush)
    case FailedPermanent =>
      && e.partition <= MAX_SMALLINT && io.dead.insertOk
      && (if w.tx.Some? then !w.tx.value.broken && ReachesCommit(db, Buried(db, w, e), io.deadFlush)
          else
            && io.dead.beginOk && io.dead.checkpointOk && !io.dead.commit.Rejected?
            && (io.dead.commit.Acknowledged? || Next(db.checkpoints, e.partition) < e.sequence))
  }

  /** The call drops an open batch (SAVEPOINT or ROLLBACK TO failed on some attempt) and goes on,
      or its flush forgets a rejected COMMIT. */
  predicate Loses(cfg: Config, db: Database, w: WorkerState, e: EventRef, io: HandleIo)
    requires io.attempts != [] && io.deadFlush != [] && io.flush != []
  {
    && !Skips(w, e, io)
    && var verdict, tried := AttemptAll(w.tx, e, io.attempts).verdict, Tried(w, e, io);
       var f := FlushPoint(cfg, db, tried, e, verdict, io);
       || (w.tx.Some? && DropsBatch(w.tx, e, io.attempts) && GoesOn(cfg, db, tried, e, verdict, io))
       || (f.Some? && f.value.1 != [] && ForgetsBatch(db, f.value.0, f.value.1))
  }

  // ---- Events a call never adds ----

  ghost predicate Absent(db: Database, w: WorkerState, x: EventRef) {
    && x !in db.effects && x !in db.deadLetters
    && (w.tx.Some? ==> x !in w.tx.value.effects && x !in w.tx.value.deadLetters)
  }

  lemma {:induction false} WriteFromContent(db: Database, t: Transaction, w: WorkerState, io: FlushIo, i: nat)
    requires i <= |io.order|
    ensures var r := WriteFrom(db, t, w, io, i).tx; r.effects == t.effects && r.deadLetters == t.deadLetters
    decreases |io.order| - i
  {
    if i < |io.order| {
      var p := io.order[i];
      if NeedsWrite(w, p) {
        WriteFromContent(db, WriteOne(db, t, w, p, io.failAt == Some(i), io.breaks).tx, w, io, i + 1);
      } else {
        WriteFromContent(db, t, w, io, i + 1);
      }
    }
  }

  lemma {:induction false} FlushAllAbsent(db: Database, w: WorkerState, ios: seq<FlushIo>, x: EventRef)
    requires ios != [] && Absent(db, w, x)
    ensures var o := FlushAll(db, w, ios); Absent(o.db, o.worker, x)
    decreases |ios|
  {
    var o := FlushOnce(db, w, ios[0]);
    if w.tx.Some? {
      WriteFromContent(db, w.tx.value, w, ios[0], 0);
    }
    assert Absent(o.db, o.worker, x);
    if !o.ok && |ios| > 1 {
      FlushAllAbsent(o.db, o.worker, ios[1..], x);
    }
  }

  lemma SettleAbsent(cfg: Config, db: Database, w: WorkerState, e: EventRef, flush: seq<FlushIo>, x: EventRef)
    requires flush != [] && Absent(db, w, x)
    ensures var o := Settle(cfg, db, w, e, flush); Absent(o.db, o.worker, x)
  {
    var w1 := Recorded(w, e);
    if w1.sinceFlush >= ActiveInterval(cfg, w1) {
      FlushAllAbsent(db, w1, flush, x);
    }
  }

  lemma ConcludeAbsent(cfg: Config, db: Database, w: WorkerState, e: EventRef, verdict: Verdict, io: HandleIo,
      x: EventRef)
    requires io.flush != [] && io.deadFlush != [] && Absent(db, w, x) && x != e
    ensures var o := Conclude(cfg, db, w, e, verdict, io); Absent(o.db, o.worker, x)
  {
    if verdict.Succeeded? {
      SettleAbsent(cfg, db, w, e, io.flush, x);
    } else if verdict.FailedPermanent? {
      if w.tx.Some? {
        FlushAllAbsent(db, Buried(db, w, e), io.deadFlush, x);
      }
      var o := DeadLetter(db, w, e, io.dead, io.deadFlush);
      if o.ok {
        SettleAbsent(cfg, o.db, o.worker, e, io.flush, x);
      }
    }
  }

  /** An absent event below a watermark refutes the claim that goes with that watermark. */
  lemma AbsentUnsound(mine: iset<nat>, db: Database, w: WorkerState, x: EventRef)
    requires Absent(db, w, x)
    ensures x.sequence < Next(db.checkpoints, x.partition) ==> !Projected(db)
    ensures x.partition in mine && x.sequence < Next(w.handled, x.partition) ==> !(Projected(db) && Sound(mine, db, w))
  {
    if Projected(db) {
      ExactCovers(db.effects, db.deadLetters, x.partition, Next(db.checkpoints, x.partition), x.sequence);
      if Sound(mine, db, w) && w.tx.Some? && x.partition in mine {
        var t := w.tx.value;
        ExactCovers(db.effects + t.effects, db.deadLetters + t.deadLetters,
                    x.partition, Next(w.handled, x.partition), x.sequence);
      }
    }
  }

  /** An exact list of effects has no event twice. */
  lemma AppliedOnce(committed: seq<EventRef>, pending: seq<EventRef>, dead: map<EventRef, nat>, p: nat, n: nat, k: nat)
    requires Exact(committed + pending, dead, p, n) && EventRef(p, k) in pending
    ensures EventRef(p, k) !in committed
  {
    AppliedConcat(committed, pending, p);
    AppliedMember(committed, p, k);
    AppliedMember(pending, p, k);
    SurvivorsIncrease(dead, p, n);
    Disjoint(AppliedTo(committed, p), AppliedTo(pending, p), k);
  }

  lemma Disjoint(a: seq<nat>, b: seq<nat>, k: nat)
    requires forall i, j :: 0 <= i < j < |a + b| ==> (a + b)[i] < (a + b)[j]
    requires k in b
    ensures k !in a
  {
    var j :| 0 <= j < |b| && b[j] == k;
    assert (a + b)[|a| + j] == k;
    forall i | 0 <= i < |a| ensures a[i] != k {
      assert (a + b)[i] == a[i];
    }
  }

  /** A steady open transaction holds an event that is neither committed nor dead-lettered. */
  lemma PendingEvent(mine: iset<nat>, db: Database, w: WorkerState) returns (x: EventRef)
    requires Sound(mine, db, w) && Steady(w) && w.tx.Some?
    ensures x.partition in mine && x.sequence < Next(w.handled, x.partition)
    ensures x !in db.effects && x !in db.deadLetters
  {
    var t := w.tx.value;
    x := t.effects[0];
    var p, k, n := x.partition, x.sequence, Next(w.handled, x.partition);
    assert db.deadLetters + t.deadLetters == db.deadLetters;
    assert x in db.effects + t.effects;
    ExactCovers(db.effects + t.effects, db.deadLetters, p, n, k);
    AppliedOnce(db.effects, t.effects, db.deadLetters, p, n, k);
  }

  /** If a flush publishes anything, it publishes the handled watermark of every owned partition. */
  lemma {:induction false} FlushAllPublishes(mine: iset<nat>, db: Database, w: WorkerState, ios: seq<FlushIo>)
    requires Marks(mine, db, w) && RowsHandled(mine, w) && ios != [] && FlushAll(db, w, ios).db != db
    requires forall i :: 0 <= i < |ios| ==> IsOrder(ios[i].order, w.handled.Keys)
    ensures forall p: nat :: p in mine ==> Next(FlushAll(db, w, ios).db.checkpoints, p) == Next(w.handled, p)
    decreases |ios|
  {
    var o := FlushOnce(db, w, ios[0]);
    FlushOncePublishes(mine, db, w, ios[0]);
    FlushOnceMarks(mine, db, w, ios[0]);
    if !o.ok && |ios| > 1 {
      if o.worker.tx.None? {
        FlushIdle(o.db, o.worker, ios[1..]);
      } else {
        FlushAllPublishes(mine, o.db, o.worker, ios[1..]);
      }
    }
  }

  lemma FlushOncePublishes(mine: iset<nat>, db: Database, w: WorkerState, io: FlushIo)
    requires Marks(mine, db, w) && RowsHandled(mine, w) && IsOrder(io.order, w.handled.Keys)
    ensures var o := FlushOnce(db, w, io);
            o.db != db ==>
              && o.worker.tx.None?
              && forall p: nat :: p in mine ==> Next(o.db.checkpoints, p) == Next(w.handled, p)
  {
    if w.tx.Some? && WriteFrom(db, w.tx.value, w, io, 0).ok {
      CommitCatchesUp(mine, db, w, io);
    }
  }

  // ---- The two losses ----

  lemma ForgottenUnsound(cfg: Config, mine: iset<nat>, db: Database, w: WorkerState, e: EventRef, verdict: Verdict,
      io: HandleIo)
    requires Marks(mine, db, w) && e.partition in mine && Next(w.handled, e.partition) == e.sequence
    requires io.flush != [] && io.deadFlush != []
    requires var f := FlushPoint(cfg, db, w, e, verdict, io);
             f.Some? && f.value.1 != [] && ForgetsBatch(db, f.value.0, f.value.1)
    ensures var o := Conclude(cfg, db, w, e, verdict, io);
            && o.ok && !Sound(mine, o.db, o.worker)
            && o.db == db && o.worker.tx.None? && o.worker.handled == w.handled[e.partition := e.sequence]
  {
    var f := FlushPoint(cfg, db, w, e, verdict, io).value;
    FlushAllForgets(db, f.0, f.1);
    var o := FlushAll(db, f.0, f.1);
    if verdict.FailedPermanent? {
      SettleIdle(cfg, o.db, o.worker, e, io.flush);
    }
    assert Next(db.checkpoints, e.partition) <= e.sequence;
  }

  /** How a flush of a worker with uncommitted progress ends, read off its script. */
  lemma {:induction false} FlushAllEnds(mine: iset<nat>, db: Database, w: WorkerState, ios: seq<FlushIo>, p: nat)
    requires Marks(mine, db, w) && RowsHandled(mine, w) && ios != [] && w.tx.Some?
    requires forall i :: 0 <= i < |ios| ==> IsOrder(ios[i].order, w.handled.Keys)
    requires p in mine && Next(db.checkpoints, p) < Next(w.handled, p)
    ensures var o := FlushAll(db, w, ios);
            && (o.db != db <==> FlushCommits(db, w, ios))
            && (o.ok || o.db != db <==> ReachesCommit(db, w, ios))
    decreases |ios|
  {
    var o := FlushOnce(db, w, ios[0]);
    FlushOnceEnds(mine, db, w, ios[0], p);
    if o.worker.tx.None? {
      if !o.ok && |ios| > 1 {
        FlushIdle(o.db, o.worker, ios[1..]);
      }
    } else if |ios| > 1 {
      FlushOnceMarks(mine, db, w, ios[0]);
      FlushAllEnds(mine, db, o.worker, ios[1..], p);
    }
  }

  lemma FlushOnceEnds(mine: iset<nat>, db: Database, w: WorkerState, io: FlushIo, p: nat)
    requires Marks(mine, db, w) && RowsHandled(mine, w) && w.tx.Some? && IsOrder(io.order, w.handled.Keys)
    requires p in mine && Next(db.checkpoints, p) < Next(w.handled, p)
    ensures var o := FlushOnce(db, w, io);
            if WriteFrom(db, w.tx.value, w, io, 0).ok && io.finalFlushOk
            then o.worker.tx.None? && (o.db != db <==> !io.commit.Rejected?) && (o.ok ==> o.db != db)
            else !o.ok && o.db == db && o.worker == w.(tx := Some(LeftOpen(db, w, io)))
  {
    if WriteFrom(db, w.tx.value, w, io, 0).ok && io.finalFlushOk {
      CommitCatchesUp(mine, db, w, io);
    }
  }

  /** The call takes effect on the tables: a COMMIT of its flush or of its dead letter does. */
  predicate Commits(cfg: Config, db: Database, w: WorkerState, e: EventRef, verdict: Verdict, io: HandleIo)
    requires io.deadFlush != [] && io.flush != []
  {
    match verdict
    case FailedTransient => false
    case Succeeded =>
      var w1 := Recorded(w, e);
      w1.sinceFlush >= ActiveInterval(cfg, w1) && FlushCommits(db, w1, io.flush)
    case FailedPermanent =>
      && e.partition <= MAX_SMALLINT && io.dead.insertOk
      && (if w.tx.Some? then !w.tx.value.broken && FlushCommits(db, Buried(db, w, e), io.deadFlush)
          else io.dead.beginOk && io.dead.checkpointOk && !io.dead.commit.Rejected?)
  }

  /** The outcome of a call, read off its script. */
  lemma ConcludeEnds(cfg: Config, mine: iset<nat>, db: Database, w: WorkerState, e: EventRef, verdict: Verdict,
      io: HandleIo)
    requires Marks(mine, db, w) && e.partition in mine && Next(w.handled, e.partition) == e.sequence
    requires w.tx.Some? ==> w.tx.value.checkpoints == map[]
    requires OrdersOf(io.deadFlush, w.handled.Keys + {e.partition})
    requires OrdersOf(io.flush, w.handled.Keys + {e.partition})
    requires verdict.Succeeded? ==> w.tx.Some?
    ensures var o := Conclude(cfg, db, w, e, verdict, io);
            && (o.db != db <==> Commits(cfg, db, w, e, verdict, io))
            && (o.ok || (o.db != db && (w.tx.Some? || Next(db.checkpoints, e.partition) < e.sequence))
                <==> GoesOn(cfg, db, w, e, verdict, io))
  {
    if verdict.Succeeded? {
      var w1 := Recorded(w, e);
      RecordMarks(mine, db, w, e);
      assert w1.handled.Keys == w.handled.Keys + {e.partition};
      FlushAllEnds(mine, db, w1, io.flush, e.partition);
    } else if verdict.FailedPermanent? {
      DeadLetterEnds(mine, db, w, e, io.dead, io.deadFlush);
      var o := DeadLetter(db, w, e, io.dead, io.deadFlush);
      if o.ok {
        SettleIdle(cfg, o.db, o.worker, e, io.flush);
      }
    }
  }

  lemma DeadLetterEnds(mine: iset<nat>, db: Database, w: WorkerState, e: EventRef, io: DeadLetterIo,
      flush: seq<FlushIo>)
    requires Marks(mine, db, w) && e.partition in mine && Next(w.handled, e.partition) == e.sequence
    requires w.tx.Some? ==> w.tx.value.checkpoints == map[]
    requires OrdersOf(flush, w.handled.Keys + {e.partition})
    ensures var o := DeadLetter(db, w, e, io, flush);
            && (o.ok ==> o.worker.tx.None?)
            && (if w.tx.None? then
                  var written :=
                    e.partition <= MAX_SMALLINT && io.beginOk && io.insertOk && io.checkpointOk && !io.commit.Rejected?;
                  (o.db != db <==> written) && (o.ok <==> written && io.commit.Acknowledged?)
                else if e.partition > MAX_SMALLINT || w.tx.value.broken || !io.insertOk then o.db == db && !o.ok
                else
                  var b := Buried(db, w, e);
                  (o.db != db <==> FlushCommits(db, b, flush)) && (o.ok || o.db != db <==> ReachesCommit(db, b, flush)))
  {
    if w.tx.Some? {
      var b := Buried(db, w, e);
      BuriedMarks(mine, db, w, e);
      FlushAllEnds(mine, db, b, flush, e.partition);
      FlushAllMarks(mine, db, b, flush);
    } else {
      assert db.deadLetters[e := Attempts(db.deadLetters, e)] != db.deadLetters by {
        assert e in db.deadLetters ==> Attempts(db.deadLetters, e) != db.deadLetters[e];
      }
    }
  }

  /** A call that publishes from an open transaction publishes the watermark of every owned partition. */
  lemma ConcludePublishes(cfg: Config, mine: iset<nat>, db: Database, w: WorkerState, e: EventRef, verdict: Verdict,
      io: HandleIo)
    requires Marks(mine, db, w) && e.partition in mine && Next(w.handled, e.partition) == e.sequence
    requires w.tx.Some? && w.tx.value.checkpoints == map[]
    requires OrdersOf(io.deadFlush, w.handled.Keys + {e.partition})
    requires OrdersOf(io.flush, w.handled.Keys + {e.partition})
    requires Conclude(cfg, db, w, e, verdict, io).db != db
    ensures var o := Conclude(cfg, db, w, e, verdict, io);
            forall p: nat :: p in mine ==> Next(o.db.checkpoints, p) == Next(w.handled[e.partition := e.sequence], p)
  {
    if verdict.Succeeded? {
      var w1 := Recorded(w, e);
      RecordMarks(mine, db, w, e);
      assert w1.handled.Keys == w.handled.Keys + {e.partition};
      FlushAllPublishes(mine, db, w1, io.flush);
    } else {
      var w1 := Buried(db, w, e);
      BuriedMarks(mine, db, w, e);
      FlushAllMarks(mine, db, w1, io.deadFlush);
      var o := FlushAll(db, w1, io.deadFlush);
      if o.ok {
        SettleIdle(cfg, o.db, o.worker, e, io.flush);
      }
      FlushAllPublishes(mine, db, w1, io.deadFlush);
    }
  }

  /** A handled event that is in neither the tables nor the open transaction. */
  ghost predicate Hole(mine: iset<nat>, db: Database, w: WorkerState, x: EventRef) {
    Absent(db, w, x) && x.partition in mine && x.sequence < Next(w.handled, x.partition)
  }

  /** The call publishes past a hole of its worker: from an open transaction, or standalone past
      events of the dead letter's own partition. */
  predicate PublishesPast(cfg: Config, db: Database, w: WorkerState, e: EventRef, verdict: Verdict, io: HandleIo)
    requires io.deadFlush != [] && io.flush != []
  {
    Commits(cfg, db, w, e, verdict, io) && (w.tx.Some? || Next(db.checkpoints, e.partition) < e.sequence)
  }

  /** The event that a publishing call leaves behind for good. */
  lemma PastHole(cfg: Config, mine: iset<nat>, db: Database, w: WorkerState, e: EventRef, verdict: Verdict,
      io: HandleIo, x: EventRef)
      returns (y: EventRef)
    requires Projected(db) && Marks(mine, db, w) && e.partition in mine && Next(w.handled, e.partition) == e.sequence
    requires w.tx.Some? ==> w.tx.value.checkpoints == map[]
    requires OrdersOf(io.deadFlush, w.handled.Keys + {e.partition})
    requires OrdersOf(io.flush, w.handled.Keys + {e.partition})
    requires Hole(mine, db, w, x) && (verdict.Succeeded? ==> w.tx.Some?) && PublishesPast(cfg, db, w, e, verdict, io)
    ensures var o := Conclude(cfg, db, w, e, verdict, io);
            y.partition in mine && Lost(o.db, y) && Absent(o.db, o.worker, y)
  {
    ConcludeEnds(cfg, mine, db, w, e, verdict, io);
    if w.tx.Some? {
      ConcludePublishes(cfg, mine, db, w, e, verdict, io);
      ConcludeAbsent(cfg, db, w, e, verdict, io, x);
      y := x;
    } else {
      var c := Next(db.checkpoints, e.partition);
      y := EventRef(e.partition, c);
      ExactCovers(db.effects, db.deadLetters, e.partition, c, c);
      ConcludeAbsent(cfg, db, w, e, verdict, io, y);
      StandaloneAdvances(cfg, db, w, e, io);
    }
  }

  lemma StandaloneAdvances(cfg: Config, db: Database, w: WorkerState, e: EventRef, io: HandleIo)
    requires w.tx.None? && io.flush != [] && io.deadFlush != [] && Commits(cfg, db, w, e, FailedPermanent, io)
    ensures var db' := Conclude(cfg, db, w, e, FailedPermanent, io).db;
            Next(db'.checkpoints, e.partition) > e.sequence && e in db'.deadLetters && db'.effects == db.effects
  {
    var o := DeadLetter(db, w, e, io.dead, io.deadFlush);
    if o.ok {
      SettleIdle(cfg, o.db, o.worker, e, io.flush);
    }
  }

  lemma LostInexact(db: Database, x: EventRef)
    requires Lost(db, x)
    ensures !Projected(db)
  {
    if Projected(db) {
      ExactCovers(db.effects, db.deadLetters, x.partition, Next(db.checkpoints, x.partition), x.sequence);
    }
  }

  /** A call of a worker with a hole keeps the tables exact if and only if it does not publish past it. */
  lemma HolePublishes(cfg: Config, mine: iset<nat>, db: Database, w: WorkerState, e: EventRef, verdict: Verdict,
      io: HandleIo, x: EventRef)
    requires Projected(db) && Marks(mine, db, w) && e.partition in mine && Next(w.handled, e.partition) == e.sequence
    requires w.tx.Some? ==> w.tx.value.checkpoints == map[]
    requires OrdersOf(io.deadFlush, w.handled.Keys + {e.partition})
    requires OrdersOf(io.flush, w.handled.Keys + {e.partition})
    requires Hole(mine, db, w, x) && (verdict.Succeeded? ==> w.tx.Some?)
    ensures var o := Conclude(cfg, db, w, e, verdict, io);
            && (Projected(o.db) <==> !PublishesPast(cfg, db, w, e, verdict, io))
            && (o.ok ==> Hole(mine, o.db, o.worker, x))
  {
    var o := Conclude(cfg, db, w, e, verdict, io);
    ConcludeEnds(cfg, mine, db, w, e, verdict, io);
    if PublishesPast(cfg, db, w, e, verdict, io) {
      var y := PastHole(cfg, mine, db, w, e, verdict, io, x);
      LostInexact(o.db, y);
    } else if o.db != db {
      ConcludeStandalone(cfg, mine, db, w, e, io);
    }
    ConcludeAbsent(cfg, db, w, e, verdict, io, x);
    ConcludeMarks(cfg, mine, db, w, e, verdict, io);
  }

  /** After a dropped batch the call ends exact and sound if and only if it does not go on. */
  lemma DroppedBatch(cfg: Config, mine: iset<nat>, db: Database, w: WorkerState, e: EventRef, verdict: Verdict,
      io: HandleIo, x: EventRef)
    requires Projected(db) && Marks(mine, db, w) && e.partition in mine && Next(w.handled, e.partition) == e.sequence
    requires w.tx.Some? ==> w.tx.value.checkpoints == map[]
    requires OrdersOf(io.deadFlush, w.handled.Keys + {e.partition})
    requires OrdersOf(io.flush, w.handled.Keys + {e.partition})
    requires Hole(mine, db, w, x) && (verdict.Succeeded? ==> w.tx.Some?)
    ensures var o := Conclude(cfg, db, w, e, verdict, io);
            (Projected(o.db) && (o.ok ==> Sound(mine, o.db, o.worker))) <==> !GoesOn(cfg, db, w, e, verdict, io)
  {
    var o := Conclude(cfg, db, w, e, verdict, io);
    HolePublishes(cfg, mine, db, w, e, verdict, io, x);
    ConcludeEnds(cfg, mine, db, w, e, verdict, io);
    if o.ok {
      AbsentUnsound(mine, o.db, o.worker, x);
    }
  }

  lemma KeptBatch(cfg: Config, mine: iset<nat>, db: Database, w: WorkerState, e: EventRef, verdict: Verdict,
      io: HandleIo, extra: seq<EventRef>)
    requires Projected(db) && Marks(mine, db, w) && e.partition in mine && Next(w.handled, e.partition) == e.sequence
    requires OrdersOf(io.deadFlush, w.handled.Keys + {e.partition})
    requires OrdersOf(io.flush, w.handled.Keys + {e.partition})
    requires Baseline(mine, db, extra, w.handled)
    requires w.tx.Some? ==>
               && w.tx.value.effects == extra + (if verdict.Succeeded? then [e] else [])
               && w.tx.value.checkpoints == map[] && w.tx.value.deadLetters == map[]
    requires w.tx.None? ==> Sound(mine, db, w) && !verdict.Succeeded?
    ensures var o, f := Conclude(cfg, db, w, e, verdict, io), FlushPoint(cfg, db, w, e, verdict, io);
            (Projected(o.db) && (o.ok ==> Sound(mine, o.db, o.worker)))
            <==> !(f.Some? && f.value.1 != [] && ForgetsBatch(db, f.value.0, f.value.1))
  {
    var f := FlushPoint(cfg, db, w, e, verdict, io);
    if f.Some? && f.value.1 != [] && ForgetsBatch(db, f.value.0, f.value.1) {
      ForgottenUnsound(cfg, mine, db, w, e, verdict, io);
    } else if verdict.Succeeded? {
      ConcludeSucceeded(cfg, mine, db, w, e, io, extra);
    } else if verdict.FailedPermanent? {
      if w.tx.Some? {
        assert extra + [] == extra;
        ConcludeRetained(cfg, mine, db, w, e, io, extra);
      } else {
        ConcludeStandalone(cfg, mine, db, w, e, io);
      }
    }
  }

  lemma SoundBaseline(mine: iset<nat>, db: Database, w: WorkerState)
    requires Projected(db) && Sound(mine, db, w) && Steady(w)
    ensures Baseline(mine, db, if w.tx.Some? then w.tx.value.effects else [], w.handled)
  {
    if w.tx.Some? {
      assert db.deadLetters + w.tx.value.deadLetters == db.deadLetters;
    } else {
      assert db.effects + [] == db.effects;
    }
  }

  /** Exactly-once, per call, with its exact condition. From a sound worker and exact tables, the
      next event of a partition leaves exact tables (and, unless the epoch ends, a sound worker)
      if and only if the call does not lose. */
  lemma HandleEventSoundIff(cfg: Config, mine: iset<nat>, db: Database, w: WorkerState, e: EventRef, io: HandleIo)
    requires Projected(db) && Marks(mine, db, w) && Steady(w) && Sound(mine, db, w)
    requires e.partition in mine && e.sequence <= Next(w.handled, e.partition) && io.attempts != []
    requires OrdersOf(io.deadFlush, w.handled.Keys + {e.partition})
    requires OrdersOf(io.flush, w.handled.Keys + {e.partition})
    ensures var o := HandleEvent(cfg, db, w, e, io);
            (Projected(o.db) && (o.ok ==> Sound(mine, o.db, o.worker))) <==> !Loses(cfg, db, w, e, io)
  {
    if !Skips(w, e, io) {
      if w.tx.Some? && DropsBatch(w.tx, e, io.attempts) {
        DroppedCall(cfg, mine, db, w, e, io);
      } else {
        KeptCall(cfg, mine, db, w, e, io);
      }
    }
  }

  lemma DroppedCall(cfg: Config, mine: iset<nat>, db: Database, w: WorkerState, e: EventRef, io: HandleIo)
    requires Projected(db) && Marks(mine, db, w) && Steady(w) && Sound(mine, db, w)
    requires e.partition in mine && e.sequence <= Next(w.handled, e.partition) && io.attempts != []
    requires OrdersOf(io.deadFlush, w.handled.Keys + {e.partition})
    requires OrdersOf(io.flush, w.handled.Keys + {e.partition})
    requires !Skips(w, e, io) && w.tx.Some? && DropsBatch(w.tx, e, io.attempts)
    ensures var o := HandleEvent(cfg, db, w, e, io);
            (Projected(o.db) && (o.ok ==> Sound(mine, o.db, o.worker))) <==> !Loses(cfg, db, w, e, io)
  {
    var verdict, tried := AttemptAll(w.tx, e, io.attempts).verdict, Tried(w, e, io);
    AttemptAllKeeps(w.tx, e, io.attempts);
    var x := PendingEvent(mine, db, w);
    DroppedBatch(cfg, mine, db, tried, e, verdict, io, x);
    var f := FlushPoint(cfg, db, tried, e, verdict, io);
    if f.Some? && f.value.1 != [] && ForgetsBatch(db, f.value.0, f.value.1) {
      ForgottenUnsound(cfg, mine, db, tried, e, verdict, io);
    }
  }

  lemma KeptCall(cfg: Config, mine: iset<nat>, db: Database, w: WorkerState, e: EventRef, io: HandleIo)
    requires Projected(db) && Marks(mine, db, w) && Steady(w) && Sound(mine, db, w)
    requires e.partition in mine && e.sequence <= Next(w.handled, e.partition) && io.attempts != []
    requires OrdersOf(io.deadFlush, w.handled.Keys + {e.partition})
    requires OrdersOf(io.flush, w.handled.Keys + {e.partition})
    requires !Skips(w, e, io) && !(w.tx.Some? && DropsBatch(w.tx, e, io.attempts))
    ensures var o := HandleEvent(cfg, db, w, e, io);
            (Projected(o.db) && (o.ok ==> Sound(mine, o.db, o.worker))) <==> !Loses(cfg, db, w, e, io)
  {
    AttemptAllKeeps(w.tx, e, io.attempts);
    SoundBaseline(mine, db, w);
    KeptBatch(cfg, mine, db, Tried(w, e, io), e, AttemptAll(w.tx, e, io.attempts).verdict, io,
              if w.tx.Some? then w.tx.value.effects else []);
  }
}
