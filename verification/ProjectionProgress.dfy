/** What a projection does when its I/O works: which events are applied and which are dead-lettered,
    when a flush commits, when a worker turns live, and that only crashes end a fault-free run. */
module ProjectionProgress {
  import opened Wrappers
  import opened ProjectionStore
  import opened ProjectionSteps
  import opened ProjectionMarks
  import opened ProjectionContent
  import opened ProjectionLoss
  import opened ProjectionExposure
  import opened ProjectionRuns
  import opened ProjectionTables

  // ---- Verdicts ----

  /** No BEGIN, SAVEPOINT or ROLLBACK TO of the attempts fails. */
  predicate Clean(ios: seq<AttemptIo>) {
    forall i :: 0 <= i < |ios| ==> ios[i].beginOk && ios[i].savepointOk && ios[i].rollbackOk
  }

  predicate SomeApplied(ios: seq<AttemptIo>) {
    exists i :: 0 <= i < |ios| && ios[i].handler.Applied?
  }

  /** Whatever else fails, only a handler that reports a permanent error on the last attempt makes an
      event poison, and only one that reports success makes it handled. */
  lemma {:induction false} VerdictFromHandler(tx: Option<Transaction>, e: EventRef, ios: seq<AttemptIo>)
    requires ios != []
    ensures AttemptAll(tx, e, ios).verdict.FailedPermanent? ==> ios[|ios| - 1].handler.PermanentError?
    ensures AttemptAll(tx, e, ios).verdict.Succeeded? ==> SomeApplied(ios)
    decreases |ios|
  {
    var a := AttemptOnce(tx, e, ios[0]);
    if !a.verdict.Succeeded? && |ios| > 1 {
      VerdictFromHandler(a.tx, e, ios[1..]);
      if i :| 0 <= i < |ios[1..]| && ios[1..][i].handler.Applied? {
        assert ios[i + 1].handler.Applied?;
      }
    }
  }

  /** With clean attempts the handler's reports decide: success if any attempt succeeds, otherwise
      the kind of the last error; and the batch is kept. */
  lemma {:induction false} VerdictIff(tx: Option<Transaction>, e: EventRef, ios: seq<AttemptIo>)
    requires ios != [] && Clean(ios) && (tx.Some? ==> !tx.value.broken)
    ensures var a := AttemptAll(tx, e, ios);
            && (a.verdict.Succeeded? <==> SomeApplied(ios))
            && (a.verdict.FailedPermanent? <==> !SomeApplied(ios) && ios[|ios| - 1].handler.PermanentError?)
            && (a.verdict.FailedTransient? <==> !SomeApplied(ios) && ios[|ios| - 1].handler.TransientError?)
            && a.tx.Some? && !(tx.Some? && DropsBatch(tx, e, ios))
            && ((forall i :: 0 <= i < |ios| ==> ios[i].releaseOk) ==> !a.tx.value.broken)
    decreases |ios|
  {
    var a := AttemptOnce(tx, e, ios[0]);
    if ios[0].handler.Applied? {
      assert SomeApplied(ios);
    } else if |ios| > 1 {
      VerdictIff(a.tx, e, ios[1..]);
      LaterApplied(ios);
    }
  }

  lemma LaterApplied(ios: seq<AttemptIo>)
    requires |ios| > 1 && !ios[0].handler.Applied?
    ensures SomeApplied(ios) <==> SomeApplied(ios[1..])
  {
    if i :| 0 <= i < |ios| && ios[i].handler.Applied? {
      assert ios[1..][i - 1].handler.Applied?;
    }
    if i :| 0 <= i < |ios[1..]| && ios[1..][i].handler.Applied? {
      assert ios[i + 1].handler.Applied?;
    }
  }

  /** Attempt `k` runs and drops the batch: its SAVEPOINT fails, or the ROLLBACK TO after an error. */
  predicate DropsAt(ios: seq<AttemptIo>, k: nat) {
    && k < |ios|
    && (forall j :: 0 <= j < k ==> ios[j].savepointOk && !ios[j].handler.Applied? && ios[j].rollbackOk)
    && (!ios[k].savepointOk || (!ios[k].handler.Applied? && !ios[k].rollbackOk))
  }

  /** When a usable batch is dropped, read off the script. A broken one always is. */
  lemma {:induction false} DropsBatchIff(t: Transaction, e: EventRef, ios: seq<AttemptIo>)
    requires ios != []
    ensures DropsBatch(Some(t), e, ios) <==> t.broken || exists k :: DropsAt(ios, k)
    decreases |ios|
  {
    if !t.broken {
      if DropsAt(ios, 0) {
      } else if ios[0].handler.Applied? || |ios| == 1 {
        assert forall k :: 0 < k < |ios| ==> !DropsAt(ios, k);
      } else {
        DropsBatchIff(t, e, ios[1..]);
        if k: nat :| DropsAt(ios, k) {
          assert DropsAt(ios[1..], k - 1);
        }
        if k: nat :| DropsAt(ios[1..], k) {
          assert DropsAt(ios, k + 1);
        }
      }
    }
  }

  // ---- Where dead letters come from ----

  ghost predicate Unburied(db: Database, w: WorkerState, x: EventRef) {
    x !in db.deadLetters && (w.tx.Some? ==> x !in w.tx.value.deadLetters)
  }

  lemma {:induction false} FlushAllUnburied(db: Database, w: WorkerState, ios: seq<FlushIo>, x: EventRef)
    requires ios != [] && Unburied(db, w, x)
    ensures var o := FlushAll(db, w, ios); Unburied(o.db, o.worker, x)
    decreases |ios|
  {
    var o := FlushOnce(db, w, ios[0]);
    if w.tx.Some? {
      WriteFromContent(db, w.tx.value, w, ios[0], 0);
    }
    if !o.ok && |ios| > 1 {
      FlushAllUnburied(o.db, o.worker, ios[1..], x);
    }
  }

  lemma SettleUnburied(cfg: Config, db: Database, w: WorkerState, e: EventRef, flush: seq<FlushIo>, x: EventRef)
    requires flush != [] && Unburied(db, w, x)
    ensures x !in Settle(cfg, db, w, e, flush).db.deadLetters
  {
    FlushAllUnburied(db, Recorded(w, e), flush, x);
  }

  lemma ConcludeUnburied(cfg: Config, db: Database, w: WorkerState, e: EventRef, verdict: Verdict, io: HandleIo,
      x: EventRef)
    requires io.flush != [] && io.deadFlush != [] && Unburied(db, w, x)
    requires x != e || !verdict.FailedPermanent?
    ensures x !in Conclude(cfg, db, w, e, verdict, io).db.deadLetters
  {
    if verdict.Succeeded? {
      SettleUnburied(cfg, db, w, e, io.flush, x);
    } else if verdict.FailedPermanent? {
      if w.tx.Some? {
        FlushAllUnburied(db, Buried(db, w, e), io.deadFlush, x);
      }
      var o := DeadLetter(db, w, e, io.dead, io.deadFlush);
      if o.ok {
        SettleUnburied(cfg, o.db, o.worker, e, io.flush, x);
      }
    }
  }

  lemma CallUnburied(cfg: Config, db: Database, w: WorkerState, e: EventRef, io: HandleIo, x: EventRef)
    requires Steady(w) && io.attempts != [] && io.flush != [] && io.deadFlush != [] && x !in db.deadLetters
    requires x != e || !io.attempts[|io.attempts| - 1].handler.PermanentError?
    ensures x !in HandleEvent(cfg, db, w, e, io).db.deadLetters
  {
    if !Skips(w, e, io) {
      VerdictFromHandler(w.tx, e, io.attempts);
      AttemptAllKeeps(w.tx, e, io.attempts);
      ConcludeUnburied(cfg, db, Tried(w, e, io), e, AttemptAll(w.tx, e, io.attempts).verdict, io, x);
    }
  }

  /** Over runs: a dead letter that a step adds is the event that the step delivered, and the handler
      reported a permanent error on the last attempt. */
  lemma DeadLetterIsPoison(cfg: Config, states: seq<System>, steps: seq<Step>, i: nat, x: EventRef)
    requires cfg.workerCount > 0 && Run(cfg, states, steps) && i < |steps|
    requires x in states[i + 1].db.deadLetters && x !in states[i].db.deadLetters
    ensures steps[i].Deliver? && steps[i].e == x
    ensures steps[i].io.attempts[HANDLE_ATTEMPTS - 1].handler.PermanentError?
  {
    RunTracked(cfg, states, steps, i);
    StepUnburied(cfg, states[i], steps[i], x);
  }

  lemma StepUnburied(cfg: Config, s: System, step: Step, x: EventRef)
    requires cfg.workerCount > 0 && Tracked(cfg, s) && Routed(cfg, s) && Enabled(cfg, s, step) && x !in s.db.deadLetters
    ensures x in Take(cfg, s, step).db.deadLetters ==>
              step.Deliver? && step.e == x && step.io.attempts[HANDLE_ATTEMPTS - 1].handler.PermanentError?
  {
    match step
    case Deliver(e, io) =>
      var id := e.partition % cfg.workerCount;
      assert TrackedWorker(cfg, s.db, s.cursor, id, Effective(s, id));
      if x != e || !io.attempts[|io.attempts| - 1].handler.PermanentError? {
        CallUnburied(cfg, s.db, Effective(s, id), e, io, x);
      }
    case TimerFlush(id, ios) =>
      assert TrackedWorker(cfg, s.db, s.cursor, id, Effective(s, id));
      FlushAllUnburied(s.db, s.workers[id], ios, x);
    case Crash =>
  }

  /** Over runs: a new event whose handler reports only transient errors ends the epoch and leaves the
      tables alone, so it is delivered again. */
  lemma TransientRestarts(cfg: Config, states: seq<System>, steps: seq<Step>, i: nat)
    requires cfg.workerCount > 0 && Run(cfg, states, steps) && i < |steps| && steps[i].Deliver?
    requires steps[i].e.sequence == Next(states[i].cursor, steps[i].e.partition)
    requires forall k :: 0 <= k < HANDLE_ATTEMPTS ==> steps[i].io.attempts[k].handler.TransientError?
    ensures states[i + 1] == Reboot(states[i].db)
  {
    RunTracked(cfg, states, steps, i);
    var s, e, io := states[i], steps[i].e, steps[i].io;
    var id := e.partition % cfg.workerCount;
    var w := Effective(s, id);
    assert TrackedWorker(cfg, s.db, s.cursor, id, w);
    DeliveredFollows(Mine(cfg, id), s.cursor, w, e);
    VerdictFromHandler(w.tx, e, io.attempts);
  }

  // ---- When a flush commits ----

  /** The checkpoint row of every partition to be written can be written: its number fits the column,
      and the worker knows of the row if there is one. */
  ghost predicate Flushable(db: Database, w: WorkerState) {
    forall p: nat :: NeedsWrite(w, p) ==> p <= MAX_SMALLINT && (p in db.checkpoints ==> p in w.flushed)
  }

  predicate FaultFreeFlush(io: FlushIo) {
    io.failAt.None? && io.finalFlushOk && io.commit.Acknowledged? && io.afterCommitOk
  }

  lemma {:induction false} WriteFromSucceeds(db: Database, t: Transaction, w: WorkerState, io: FlushIo, i: nat)
    requires i <= |io.order| && io.failAt.None? && !t.broken && Flushable(db, w)
    requires forall p: nat :: NeedsWrite(w, p) && p in w.flushed ==> p in db.checkpoints
    requires forall a, b :: 0 <= a < b < |io.order| ==> io.order[a] != io.order[b]
    requires forall j :: i <= j < |io.order| ==> io.order[j] !in t.checkpoints
    ensures WriteFrom(db, t, w, io, i).ok
    decreases |io.order| - i
  {
    if i < |io.order| {
      var p := io.order[i];
      if NeedsWrite(w, p) {
        WriteFromSucceeds(db, WriteOne(db, t, w, p, false, io.breaks).tx, w, io, i + 1);
      } else {
        WriteFromSucceeds(db, t, w, io, i + 1);
      }
    }
  }

  /** Writing them all succeeds only if each can be written. */
  lemma {:induction false} WriteFromNeeds(db: Database, t: Transaction, w: WorkerState, io: FlushIo, i: nat, j: nat)
    requires i <= j < |io.order| && WriteFrom(db, t, w, io, i).ok && NeedsWrite(w, io.order[j])
    ensures io.order[j] <= MAX_SMALLINT && (io.order[j] in db.checkpoints ==> io.order[j] in w.flushed)
    decreases |io.order| - i
  {
    var p := io.order[i];
    if i < j {
      var next := if NeedsWrite(w, p) then WriteOne(db, t, w, p, io.failAt == Some(i), io.breaks).tx else t;
      WriteFromNeeds(db, next, w, io, i + 1, j);
    }
  }

  lemma WriteFromFlushable(db: Database, t: Transaction, w: WorkerState, io: FlushIo)
    requires IsOrder(io.order, w.handled.Keys) && WriteFrom(db, t, w, io, 0).ok
    ensures Flushable(db, w)
  {
    forall p: nat | NeedsWrite(w, p) ensures p <= MAX_SMALLINT && (p in db.checkpoints ==> p in w.flushed) {
      assert p in io.order;
      var j :| 0 <= j < |io.order| && io.order[j] == p;
      WriteFromNeeds(db, t, w, io, 0, j);
    }
  }

  /** Without faults a flush commits exactly when its rows can be written. Then every owned partition's
      checkpoint is its handled watermark, and the worker knows it. */
  lemma FlushIff(mine: iset<nat>, db: Database, w: WorkerState, io: FlushIo)
    requires Marks(mine, db, w) && w.tx.Some? && !w.tx.value.broken && w.tx.value.checkpoints == map[]
    requires FaultFreeFlush(io) && IsOrder(io.order, w.handled.Keys)
    ensures var o := FlushOnce(db, w, io);
            && (o.ok <==> Flushable(db, w))
            && (o.ok ==>
                  && o.worker == w.(tx := None, flushed := w.handled, sinceFlush := 0)
                  && o.db.effects == db.effects + w.tx.value.effects
                  && o.db.deadLetters == db.deadLetters + w.tx.value.deadLetters
                  && forall p: nat :: p in mine ==> Next(o.db.checkpoints, p) == Next(w.handled, p))
  {
    var t := w.tx.value;
    if Flushable(db, w) {
      assert forall p: nat :: NeedsWrite(w, p) ==> p in mine;
      WriteFromSucceeds(db, t, w, io, 0);
      WriteFromRows(mine, db, t, w, io, 0);
      CommitCatchesUp(mine, db, w, io);
    } else if WriteFrom(db, t, w, io, 0).ok {
      WriteFromFlushable(db, t, w, io);
    }
  }

  /** A statement or handler flush that fails on a row that is due fails the attempt, and nothing is
      committed. */
  lemma FlushFails(db: Database, w: WorkerState, io: FlushIo, i: nat)
    requires w.tx.Some? && io.failAt == Some(i) && i < |io.order| && NeedsWrite(w, io.order[i])
    ensures var o := FlushOnce(db, w, io); !o.ok && o.db == db && o.worker.tx.Some?
  {
    WriteFromFails(db, w.tx.value, w, io, 0, i);
  }

  lemma {:induction false} WriteFromFails(db: Database, t: Transaction, w: WorkerState, io: FlushIo, i: nat, j: nat)
    requires i <= j < |io.order| && io.failAt == Some(j) && NeedsWrite(w, io.order[j])
    ensures !WriteFrom(db, t, w, io, i).ok
    decreases |io.order| - i
  {
    if i < j {
      var p := io.order[i];
      WriteFromFails(db, if NeedsWrite(w, p) then WriteOne(db, t, w, p, false, io.breaks).tx else t, w, io, i + 1, j);
    }
  }

  /** A worker whose rows cannot be written never flushes again, whatever its I/O does: each flush of
      it fails and ends the epoch. A COMMIT whose answer was lost leaves such a worker behind. */
  lemma {:induction false} FlushStuck(db: Database, w: WorkerState, ios: seq<FlushIo>)
    requires ios != [] && w.tx.Some? && !Flushable(db, w)
    requires forall i :: 0 <= i < |ios| ==> IsOrder(ios[i].order, w.handled.Keys)
    ensures var o := FlushAll(db, w, ios); !o.ok && o.db == db
    decreases |ios|
  {
    var o := FlushOnce(db, w, ios[0]);
    if WriteFrom(db, w.tx.value, w, ios[0], 0).ok {
      WriteFromFlushable(db, w.tx.value, w, ios[0]);
    }
    if |ios| > 1 {
      FlushStuck(db, o.worker, ios[1..]);
    }
  }

  /** A transaction that a failed RELEASE or statement broke is never committed while rows are due: every
      flush of it fails and ends the epoch, so the batch is delivered again. */
  lemma {:induction false} BrokenStuck(mine: iset<nat>, db: Database, w: WorkerState, ios: seq<FlushIo>, p: nat)
    requires Marks(mine, db, w) && RowsHandled(mine, w) && ios != []
    requires w.tx.Some? && w.tx.value.broken && NeedsWrite(w, p)
    requires forall i :: 0 <= i < |ios| ==> IsOrder(ios[i].order, w.handled.Keys)
    ensures var o := FlushAll(db, w, ios); !o.ok && o.db == db
    decreases |ios|
  {
    var o, t := FlushOnce(db, w, ios[0]), w.tx.value;
    assert p in ios[0].order;
    var j :| 0 <= j < |ios[0].order| && ios[0].order[j] == p;
    assert WritesOwn(mine, w);
    if WriteFrom(db, t, w, ios[0], 0).ok {
      WriteFromCovers(mine, db, t, w, ios[0], 0, j);
    }
    WriteFromBroken(db, t, w, ios[0], 0);
    FlushOnceMarks(mine, db, w, ios[0]);
    if |ios| > 1 {
      BrokenStuck(mine, db, o.worker, ios[1..], p);
    }
  }

  lemma {:induction false} WriteFromBroken(db: Database, t: Transaction, w: WorkerState, io: FlushIo, i: nat)
    requires i <= |io.order| && t.broken
    ensures WriteFrom(db, t, w, io, i).tx.broken
    decreases |io.order| - i
  {
    if i < |io.order| {
      var p := io.order[i];
      if NeedsWrite(w, p) {
        WriteFromBroken(db, WriteOne(db, t, w, p, io.failAt == Some(i), io.breaks).tx, w, io, i + 1);
      } else {
        WriteFromBroken(db, t, w, io, i + 1);
      }
    }
  }

  /** What a successful handler leaves: the batch with the event on top, broken exactly by its RELEASE. */
  lemma ReleaseDecides(tx: Option<Transaction>, e: EventRef, io: AttemptIo)
    requires io.beginOk && io.savepointOk && io.handler.Applied? && (tx.Some? ==> !tx.value.broken)
    ensures var a := AttemptOnce(tx, e, io);
            && a.verdict.Succeeded? && a.tx.Some? && (a.tx.value.broken <==> !io.releaseOk)
            && a.tx.value.effects == (if tx.Some? then tx.value.effects else []) + [e]
  {}

  // ---- A fault-free call ----

  /** The worker can flush: it knows every committed row of its partitions, what it has to write fits
      the column, and its transaction is usable. */
  ghost predicate Healthy(mine: iset<nat>, db: Database, w: WorkerState) {
    && (forall p: nat :: p in mine && p in db.checkpoints ==> p in w.flushed)
    && (forall p: nat :: NeedsWrite(w, p) ==> p <= MAX_SMALLINT)
    && (w.tx.Some? ==> !w.tx.value.broken)
  }

  predicate FaultFree(e: EventRef, io: HandleIo) {
    && e.partition <= MAX_SMALLINT && io.sampled.Some?
    && io.attempts != [] && Clean(io.attempts)
    && (forall i :: 0 <= i < |io.attempts| ==> io.attempts[i].releaseOk)
    && (SomeApplied(io.attempts) || io.attempts[|io.attempts| - 1].handler.PermanentError?)
    && io.dead.insertOk
    && io.deadFlush != [] && FaultFreeFlush(io.deadFlush[0]) && io.flush != [] && FaultFreeFlush(io.flush[0])
  }

  lemma HealthyFlushes(mine: iset<nat>, db: Database, w: WorkerState, ios: seq<FlushIo>)
    requires Marks(mine, db, w) && Healthy(mine, db, w) && w.tx.Some? && w.tx.value.checkpoints == map[]
    requires ios != [] && FaultFreeFlush(ios[0]) && IsOrder(ios[0].order, w.handled.Keys)
    ensures var o := FlushAll(db, w, ios);
            && o.ok && o.worker == w.(tx := None, flushed := w.handled, sinceFlush := 0)
            && o.db.effects == db.effects + w.tx.value.effects
            && o.db.deadLetters == db.deadLetters + w.tx.value.deadLetters
            && (forall p: nat :: p in mine ==> Next(o.db.checkpoints, p) == Next(w.handled, p))
            && Healthy(mine, o.db, o.worker) && !ForgetsBatch(db, w, ios)
  {
    assert forall p: nat :: NeedsWrite(w, p) ==> p in mine;
    FlushIff(mine, db, w, ios[0]);
  }

  lemma HandledHealthy(mine: iset<nat>, db: Database, w: WorkerState, w': WorkerState, e: EventRef)
    requires Healthy(mine, db, w) && e.partition <= MAX_SMALLINT && (w'.tx.Some? ==> !w'.tx.value.broken)
    requires w'.flushed == w.flushed && w'.handled == w.handled[e.partition := e.sequence]
    ensures Healthy(mine, db, w')
  {
    assert forall p: nat :: NeedsWrite(w', p) ==> p == e.partition || NeedsWrite(w, p);
  }

  /** The rest of a call whose event succeeded. */
  lemma AppliedConclude(cfg: Config, mine: iset<nat>, db: Database, w: WorkerState, e: EventRef, io: HandleIo)
    requires Marks(mine, db, w) && Healthy(mine, db, w) && e.partition in mine && e.partition <= MAX_SMALLINT
    requires e.sequence == Next(w.handled, e.partition) && OrdersOf(io.flush, w.handled.Keys + {e.partition})
    requires w.tx.Some? && w.tx.value.checkpoints == map[] && e in w.tx.value.effects
    requires FaultFreeFlush(io.flush[0]) && io.deadFlush != []
    ensures var o, w1 := Conclude(cfg, db, w, e, Succeeded, io), Recorded(w, e);
            && o.ok && Healthy(mine, o.db, o.worker) && o.worker.live == w1.live
            && (if w1.sinceFlush >= ActiveInterval(cfg, w1)
                then && e in o.db.effects && o.worker.tx.None? && o.worker.sinceFlush == 0
                     && !ForgetsBatch(db, w1, io.flush)
                else o.db == db && o.worker == w1)
  {
    var w1 := Recorded(w, e);
    RecordMarks(mine, db, w, e);
    assert w1.handled.Keys == w.handled.Keys + {e.partition};
    HandledHealthy(mine, db, w, w1, e);
    HealthyFlushes(mine, db, w1, io.flush);
  }

  lemma BuriedFlushes(mine: iset<nat>, db: Database, w: WorkerState, e: EventRef, ios: seq<FlushIo>)
    requires Marks(mine, db, w) && Healthy(mine, db, w) && e.partition in mine && e.partition <= MAX_SMALLINT
    requires e.sequence == Next(w.handled, e.partition) && OrdersOf(ios, w.handled.Keys + {e.partition})
    requires w.tx.Some? && w.tx.value.checkpoints == map[] && FaultFreeFlush(ios[0])
    ensures var o, w1 := FlushAll(db, Buried(db, w, e), ios), Buried(db, w, e);
            && o.ok && o.worker == w1.(tx := None, flushed := w1.handled, sinceFlush := 0)
            && Healthy(mine, o.db, o.worker) && !ForgetsBatch(db, w1, ios)
            && e in o.db.deadLetters && e.sequence < Next(o.db.checkpoints, e.partition)
  {
    BuriedMarks(mine, db, w, e);
    HandledHealthy(mine, db, w, Buried(db, w, e), e);
    HealthyFlushes(mine, db, Buried(db, w, e), ios);
  }

  /** Recording a handled event again changes nothing that matters. */
  lemma IdleHealthy(mine: iset<nat>, db: Database, w: WorkerState, e: EventRef)
    requires Healthy(mine, db, w) && w.tx.None? && e.partition in w.handled && w.handled[e.partition] == e.sequence
    ensures Healthy(mine, db, Recorded(w, e))
  {
    assert w.handled[e.partition := e.sequence] == w.handled;
    assert forall p: nat :: NeedsWrite(Recorded(w, e), p) ==> NeedsWrite(w, p);
  }

  /** The rest of a call whose event is poison. */
  lemma PoisonConclude(cfg: Config, mine: iset<nat>, db: Database, w: WorkerState, e: EventRef, io: HandleIo)
    requires Marks(mine, db, w) && Healthy(mine, db, w) && e.partition in mine && e.partition <= MAX_SMALLINT
    requires e.sequence == Next(w.handled, e.partition) && OrdersOf(io.deadFlush, w.handled.Keys + {e.partition})
    requires w.tx.Some? && w.tx.value.checkpoints == map[]
    requires io.dead.insertOk && FaultFreeFlush(io.deadFlush[0]) && io.flush != []
    ensures var o := Conclude(cfg, db, w, e, FailedPermanent, io);
            && o.ok && Healthy(mine, o.db, o.worker) && !ForgetsBatch(db, Buried(db, w, e), io.deadFlush)
            && e in o.db.deadLetters && o.worker.tx.None? && e.sequence < Next(o.db.checkpoints, e.partition)
  {
    BuriedFlushes(mine, db, w, e, io.deadFlush);
    var o := DeadLetter(db, w, e, io.dead, io.deadFlush);
    assert o == FlushAll(db, Buried(db, w, e), io.deadFlush);
    SettleIdle(cfg, o.db, o.worker, e, io.flush);
    IdleHealthy(mine, o.db, o.worker, e);
  }

  /** A dead letter published on its own leaves a healthy worker that knows its row. */
  lemma StandaloneHealthy(mine: iset<nat>, db: Database, w: WorkerState, e: EventRef, io: DeadLetterIo,
      flush: seq<FlushIo>)
    requires Healthy(mine, db, w) && w.tx.None? && flush != [] && DeadLetter(db, w, e, io, flush).ok
    ensures var o := DeadLetter(db, w, e, io, flush);
            && Healthy(mine, o.db, o.worker) && o.worker.sinceFlush == 0 && !NeedsWrite(o.worker, e.partition)
  {
    var o := DeadLetter(db, w, e, io, flush);
    assert forall p: nat :: NeedsWrite(o.worker, p) ==> p != e.partition && NeedsWrite(w, p);
  }

  lemma TriedHealthy(mine: iset<nat>, db: Database, w: WorkerState, e: EventRef, io: HandleIo)
    requires Marks(mine, db, w) && Steady(w) && Healthy(mine, db, w) && FaultFree(e, io)
    ensures var t := Tried(w, e, io);
            && Marks(mine, db, t) && Healthy(mine, db, t) && t.handled == w.handled && t.sinceFlush == w.sinceFlush
            && t.tx.Some? && t.tx.value.checkpoints == map[]
            && (SomeApplied(io.attempts) ==> e in t.tx.value.effects)
            && !(w.tx.Some? && DropsBatch(w.tx, e, io.attempts))
    ensures AttemptAll(w.tx, e, io.attempts).verdict == if SomeApplied(io.attempts) then Succeeded else FailedPermanent
  {
    AttemptAllKeeps(w.tx, e, io.attempts);
    VerdictIff(w.tx, e, io.attempts);
    assert forall p: nat :: NeedsWrite(Tried(w, e, io), p) ==> NeedsWrite(w, p);
  }

  /** After a new event without faults: it is applied, committed or pending, if the handler succeeded on
      some attempt, and committed to the dead letters otherwise; nothing is lost; the worker stays
      healthy; and a successful event is committed exactly when the interval in force is reached. */
  lemma FaultFreeCall(cfg: Config, mine: iset<nat>, db: Database, w: WorkerState, e: EventRef, io: HandleIo)
    requires Marks(mine, db, w) && Steady(w) && Healthy(mine, db, w) && FaultFree(e, io)
    requires e.partition in mine && e.sequence == Next(w.handled, e.partition)
    requires OrdersOf(io.deadFlush, w.handled.Keys + {e.partition})
    requires OrdersOf(io.flush, w.handled.Keys + {e.partition})
    ensures var o := HandleEvent(cfg, db, w, e, io);
            && o.ok && Healthy(mine, o.db, o.worker) && !Loses(cfg, db, w, e, io)
            && (SomeApplied(io.attempts) ==>
                  if w.sinceFlush + 1 >= (if o.worker.live then cfg.liveInterval else cfg.replayInterval)
                  then e in o.db.effects && o.worker.tx.None? && o.worker.sinceFlush == 0
                  else o.db == db && o.worker.tx.Some? && e in o.worker.tx.value.effects)
            && (!SomeApplied(io.attempts) ==>
                  && e in o.db.deadLetters && o.worker.tx.None? && e.sequence < Next(o.db.checkpoints, e.partition))
  {
    TriedHealthy(mine, db, w, e, io);
    if SomeApplied(io.attempts) {
      AppliedConclude(cfg, mine, db, Tried(w, e, io), e, io);
    } else {
      PoisonConclude(cfg, mine, db, Tried(w, e, io), e, io);
    }
  }

  // ---- Turning live ----

  lemma SettleProgress(cfg: Config, db: Database, w: WorkerState, e: EventRef, flush: seq<FlushIo>)
    requires flush != []
    ensures var w' := Settle(cfg, db, w, e, flush).worker;
            && w'.latest == w.latest && w'.handled == w.handled[e.partition := e.sequence]
            && w'.live == (w.live || !Behind(w.(handled := w.handled[e.partition := e.sequence])))
  {
    var w1 := Recorded(w, e);
    var w2 := w.(handled := w.handled[e.partition := e.sequence]);
    assert Behind(w1.(live := w.live)) <==> Behind(w2);
    FlushAllExposed(db, w1, flush);
  }

  lemma DeadLetterProgress(db: Database, w: WorkerState, e: EventRef, io: DeadLetterIo, flush: seq<FlushIo>)
    requires flush != [] && DeadLetter(db, w, e, io, flush).ok
    ensures var w' := DeadLetter(db, w, e, io, flush).worker;
            && w'.latest == w.latest && w'.live == w.live && w'.handled == w.handled[e.partition := e.sequence]
  {
    if w.tx.Some? {
      FlushAllExposed(db, Buried(db, w, e), flush);
    }
  }

  lemma ConcludeProgress(cfg: Config, db: Database, w: WorkerState, e: EventRef, verdict: Verdict, io: HandleIo)
    requires io.flush != [] && io.deadFlush != [] && Conclude(cfg, db, w, e, verdict, io).ok
    ensures var w' := Conclude(cfg, db, w, e, verdict, io).worker;
            && w'.latest == w.latest && w'.handled == w.handled[e.partition := e.sequence]
            && w'.live == (w.live || !Behind(w.(handled := w.handled[e.partition := e.sequence])))
  {
    if verdict.Succeeded? {
      SettleProgress(cfg, db, w, e, io.flush);
    } else {
      var o := DeadLetter(db, w, e, io.dead, io.deadFlush);
      DeadLetterProgress(db, w, e, io.dead, io.deadFlush);
      SettleProgress(cfg, o.db, o.worker, e, io.flush);
      assert o.worker.handled[e.partition := e.sequence] == o.worker.handled;
      SameBehind(o.worker.(handled := o.worker.handled), w.(handled := w.handled[e.partition := e.sequence]));
    }
  }

  lemma SameBehind(a: WorkerState, b: WorkerState)
    requires a.latest == b.latest && a.handled == b.handled
    ensures Behind(a) <==> Behind(b)
  {}

  /** After every handled event, whatever its I/O did: the sample of a partition met for the first time
      is kept, and the worker is live exactly when it has handled every partition it has met up to its
      sample. */
  lemma LiveIff(cfg: Config, db: Database, w: WorkerState, e: EventRef, io: HandleIo)
    requires Exposed(cfg, w) && !Skips(w, e, io) && io.attempts != [] && io.flush != [] && io.deadFlush != []
    requires Returns(cfg, db, w, e, io)
    ensures var w' := HandleEvent(cfg, db, w, e, io).worker;
            && (e.partition in w.latest ==> w'.latest == w.latest)
            && (e.partition !in w.latest ==> w'.latest == w.latest[e.partition := io.sampled.value])
            && (w'.live <==> forall p :: p in w'.latest && w'.latest[p].Some? ==>
                               p in w'.handled && w'.latest[p].value <= w'.handled[p])
  {
    var sampled := if io.sampled.Some? then io.sampled.value else None;
    var tried, w' := Tried(w, e, io), HandleEvent(cfg, db, w, e, io).worker;
    ReturnsIff(cfg, db, w, e, io);
    MetBehind(w, e, sampled);
    ConcludeProgress(cfg, db, tried, e, AttemptAll(w.tx, e, io.attempts).verdict, io);
    var now := tried.(handled := tried.handled[e.partition := e.sequence]);
    var met := Met(w, e.partition, sampled);
    assert Behind(now) <==> Behind(met.(handled := met.handled[e.partition := e.sequence]));
    assert Behind(w') <==> Behind(now);
  }

  // ---- Fault-free runs ----

  ghost predicate HealthySystem(cfg: Config, s: System)
    requires cfg.workerCount > 0
  {
    forall id: nat :: id < cfg.workerCount ==> Healthy(Mine(cfg, id), s.db, Effective(s, id))
  }

  /** A crash is no fault of the I/O. */
  predicate FaultFreeStep(step: Step) {
    match step
    case Deliver(e, io) => FaultFree(e, io)
    case TimerFlush(_, ios) => ios != [] && FaultFreeFlush(ios[0])
    case Crash => true
  }

  lemma RebootHealthy(cfg: Config, db: Database)
    requires cfg.workerCount > 0
    ensures HealthySystem(cfg, Reboot(db))
  {}

  lemma HealthyFrame(mine: iset<nat>, other: iset<nat>, db: Database, db': Database, w: WorkerState)
    requires Advances(mine, db, db') && Healthy(other, db, w) && forall p :: p in other ==> p !in mine
    ensures Healthy(other, db', w)
  {}

  lemma SettledHealthy(cfg: Config, s: System, id: nat, o: Outcome, cursor: map<nat, nat>)
    requires cfg.workerCount > 0 && HealthySystem(cfg, s) && id < cfg.workerCount && o.ok
    requires Advances(Mine(cfg, id), s.db, o.db) && Healthy(Mine(cfg, id), o.db, o.worker)
    ensures HealthySystem(cfg, Settled(cfg, s, id, o, cursor))
  {
    var s' := Settled(cfg, s, id, o, cursor);
    forall other: nat | other < cfg.workerCount
      ensures Healthy(Mine(cfg, other), s'.db, Effective(s', other))
    {
      if other != id {
        assert Effective(s', other) == Effective(s, other);
        HealthyFrame(Mine(cfg, id), Mine(cfg, other), s.db, o.db, Effective(s, other));
      }
    }
  }

  lemma DeliverHealthy(cfg: Config, s: System, e: EventRef, io: HandleIo)
    requires cfg.workerCount > 0 && Tracked(cfg, s) && HealthySystem(cfg, s) && Enabled(cfg, s, Deliver(e, io))
    requires FaultFree(e, io)
    ensures HandleEvent(cfg, s.db, WorkerOf(cfg, s, e.partition), e, io).ok
    ensures HealthySystem(cfg, Take(cfg, s, Deliver(e, io))) && !StepLoses(cfg, s, Deliver(e, io))
  {
    var id := e.partition % cfg.workerCount;
    var mine, w := Mine(cfg, id), Effective(s, id);
    assert TrackedWorker(cfg, s.db, s.cursor, id, w);
    DeliveredFollows(mine, s.cursor, w, e);
    HandleEventMarks(cfg, mine, s.db, w, e, io);
    if !AlreadyHandled(w, e) {
      FaultFreeCall(cfg, mine, s.db, w, e, io);
    }
    SettledHealthy(cfg, s, id, HandleEvent(cfg, s.db, w, e, io), Delivered(s.cursor, e));
  }

  lemma TimerHealthy(cfg: Config, s: System, id: nat, ios: seq<FlushIo>)
    requires cfg.workerCount > 0 && Tracked(cfg, s) && HealthySystem(cfg, s) && Enabled(cfg, s, TimerFlush(id, ios))
    requires id < cfg.workerCount && FaultFreeFlush(ios[0])
    ensures FlushAll(s.db, s.workers[id], ios).ok && HealthySystem(cfg, Take(cfg, s, TimerFlush(id, ios)))
    ensures !ForgetsBatch(s.db, s.workers[id], ios)
  {
    var mine, w := Mine(cfg, id), Effective(s, id);
    assert TrackedWorker(cfg, s.db, s.cursor, id, w);
    FlushAllMarks(mine, s.db, w, ios);
    if w.tx.Some? {
      HealthyFlushes(mine, s.db, w, ios);
    }
    SettledHealthy(cfg, s, id, FlushAll(s.db, w, ios), s.cursor);
  }

  lemma StepHealthy(cfg: Config, s: System, step: Step)
    requires cfg.workerCount > 0 && Tracked(cfg, s) && Routed(cfg, s) && HealthySystem(cfg, s) && Enabled(cfg, s, step)
    requires FaultFreeStep(step)
    ensures HealthySystem(cfg, Take(cfg, s, step)) && !StepLoses(cfg, s, step)
    ensures step.Deliver? ==> HandleEvent(cfg, s.db, WorkerOf(cfg, s, step.e.partition), step.e, step.io).ok
    ensures step.TimerFlush? ==> FlushAll(s.db, s.workers[step.id], step.ios).ok
  {
    match step
    case Deliver(e, io) => DeliverHealthy(cfg, s, e, io);
    case TimerFlush(id, ios) => TimerHealthy(cfg, s, id, ios);
    case Crash => RebootHealthy(cfg, s.db);
  }

  lemma {:induction false} RunHealthy(cfg: Config, states: seq<System>, steps: seq<Step>, i: nat)
    requires cfg.workerCount > 0 && Run(cfg, states, steps) && i < |states|
    requires forall k :: 0 <= k < i ==> FaultFreeStep(steps[k])
    ensures HealthySystem(cfg, states[i]) && SoundSystem(cfg, states[i])
  {
    if i == 0 {
      RebootHealthy(cfg, states[0].db);
      RebootTracked(cfg, states[0].db);
    } else {
      assert states[i] == Take(cfg, states[i - 1], steps[i - 1]);
      RunHealthy(cfg, states, steps, i - 1);
      RunTracked(cfg, states, steps, i - 1);
      StepHealthy(cfg, states[i - 1], steps[i - 1]);
      StepSoundIff(cfg, states[i - 1], steps[i - 1]);
    }
  }

  /** In a run without faults, with any number of crashes: the tables are exact, only a crash ends an
      epoch, and a timer flush commits everything delivered to its worker. */
  lemma FaultFreeRun(cfg: Config, states: seq<System>, steps: seq<Step>, i: nat)
    requires cfg.workerCount > 0 && Run(cfg, states, steps) && i < |steps|
    requires forall k :: 0 <= k <= i ==> FaultFreeStep(steps[k])
    ensures Projected(states[i + 1].db)
    ensures Ends(cfg, states[i], steps[i]) <==> steps[i].Crash?
    ensures steps[i].TimerFlush? ==> forall p: nat :: p in Mine(cfg, steps[i].id) ==>
              Next(states[i + 1].db.checkpoints, p) == Next(states[i].cursor, p)
  {
    RunHealthy(cfg, states, steps, i);
    RunHealthy(cfg, states, steps, i + 1);
    RunTracked(cfg, states, steps, i);
    EndsReboots(cfg, states[i], steps[i]);
    StepHealthy(cfg, states[i], steps[i]);
    if steps[i].TimerFlush? {
      TimerCommits(cfg, states[i], steps[i].id, steps[i].ios);
    }
  }

  lemma TimerCommits(cfg: Config, s: System, id: nat, ios: seq<FlushIo>)
    requires cfg.workerCount > 0 && Tracked(cfg, s) && HealthySystem(cfg, s) && SoundSystem(cfg, s)
    requires Enabled(cfg, s, TimerFlush(id, ios)) && id < cfg.workerCount && FaultFreeFlush(ios[0])
    ensures forall p: nat :: p in Mine(cfg, id) ==>
              Next(Take(cfg, s, TimerFlush(id, ios)).db.checkpoints, p) == Next(s.cursor, p)
  {
    var mine, w := Mine(cfg, id), Effective(s, id);
    assert TrackedWorker(cfg, s.db, s.cursor, id, w);
    assert Sound(mine, s.db, w);
    if w.tx.Some? {
      HealthyFlushes(mine, s.db, w, ios);
    }
  }
}
