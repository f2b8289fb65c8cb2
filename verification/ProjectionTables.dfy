/** When the tables of a projection are exact, over whole runs. A losing step leaves a hole: a
    handled event that is in neither the tables nor the open transaction. A crash heals it. A
    COMMIT past it loses the event for good, and nothing else makes the tables inexact. */
module ProjectionTables {
  import opened Wrappers
  import opened ProjectionStore
  import opened ProjectionSteps
  import opened ProjectionMarks
  import opened ProjectionContent
  import opened ProjectionLoss
  import opened ProjectionExposure
  import opened ProjectionRuns

  ghost predicate Holed(mine: iset<nat>, db: Database, w: WorkerState) {
    Own(mine, w) && exists x :: Hole(mine, db, w, x)
  }

  /** Next to exact tables a worker either covers what it handled or has a hole. */
  ghost predicate Intact(mine: iset<nat>, db: Database, w: WorkerState) {
    Sound(mine, db, w) || Holed(mine, db, w)
  }

  lemma SoundNotHoled(mine: iset<nat>, db: Database, w: WorkerState)
    requires Projected(db) && Sound(mine, db, w)
    ensures !Holed(mine, db, w)
  {
    forall x | Hole(mine, db, w, x) ensures false {
      AbsentUnsound(mine, db, w, x);
    }
  }

  // ---- One call ----

  /** The worker had a hole, or its attempts drop the open batch, and then it publishes past it. */
  ghost predicate OverHole(cfg: Config, mine: iset<nat>, db: Database, w: WorkerState, e: EventRef, io: HandleIo)
    requires io.attempts != [] && io.deadFlush != [] && io.flush != []
  {
    && !Skips(w, e, io)
    && (Holed(mine, db, w) || (w.tx.Some? && DropsBatch(w.tx, e, io.attempts)))
    && PublishesPast(cfg, db, Tried(w, e, io), e, AttemptAll(w.tx, e, io.attempts).verdict, io)
  }

  /** What a call may assume of its worker and its script. */
  ghost predicate Callable(mine: iset<nat>, db: Database, w: WorkerState, e: EventRef, io: HandleIo) {
    && Projected(db) && Marks(mine, db, w) && Steady(w) && Intact(mine, db, w)
    && e.partition in mine && e.sequence <= Next(w.handled, e.partition) && io.attempts != []
    && OrdersOf(io.deadFlush, w.handled.Keys + {e.partition}) && OrdersOf(io.flush, w.handled.Keys + {e.partition})
  }

  /** After the attempts a hole is open if there was one or the batch was dropped. */
  lemma TriedHole(mine: iset<nat>, db: Database, w: WorkerState, e: EventRef, io: HandleIo) returns (x: EventRef)
    requires Callable(mine, db, w, e, io) && !Skips(w, e, io)
    requires Holed(mine, db, w) || (w.tx.Some? && DropsBatch(w.tx, e, io.attempts))
    ensures Hole(mine, db, Tried(w, e, io), x)
  {
    AttemptAllKeeps(w.tx, e, io.attempts);
    if Holed(mine, db, w) {
      x :| Hole(mine, db, w, x);
    } else {
      x := PendingEvent(mine, db, w);
    }
  }

  lemma OverHoleLoses(cfg: Config, mine: iset<nat>, db: Database, w: WorkerState, e: EventRef,
      io: HandleIo) returns (y: EventRef)
    requires Callable(mine, db, w, e, io) && OverHole(cfg, mine, db, w, e, io)
    ensures var o := HandleEvent(cfg, db, w, e, io); y.partition in mine && Lost(o.db, y) && Absent(o.db, o.worker, y)
  {
    var x := TriedHole(mine, db, w, e, io);
    AttemptAllKeeps(w.tx, e, io.attempts);
    y := PastHole(cfg, mine, db, Tried(w, e, io), e, AttemptAll(w.tx, e, io.attempts).verdict, io, x);
  }

  /** A call from a hole, old or new. */
  lemma HoledCall(cfg: Config, mine: iset<nat>, db: Database, w: WorkerState, e: EventRef, io: HandleIo)
    requires Callable(mine, db, w, e, io) && !Skips(w, e, io)
    requires Holed(mine, db, w) || (w.tx.Some? && DropsBatch(w.tx, e, io.attempts))
    ensures var o := HandleEvent(cfg, db, w, e, io);
            && (Projected(o.db) <==> !OverHole(cfg, mine, db, w, e, io))
            && (o.ok ==> exists x :: Hole(mine, o.db, o.worker, x))
  {
    var x := TriedHole(mine, db, w, e, io);
    AttemptAllKeeps(w.tx, e, io.attempts);
    HolePublishes(cfg, mine, db, Tried(w, e, io), e, AttemptAll(w.tx, e, io.attempts).verdict, io, x);
  }

  /** A call that keeps the batch of a sound worker. */
  lemma SoundCall(cfg: Config, mine: iset<nat>, db: Database, w: WorkerState, e: EventRef, io: HandleIo)
    requires Callable(mine, db, w, e, io) && !Skips(w, e, io) && Sound(mine, db, w)
    requires !(w.tx.Some? && DropsBatch(w.tx, e, io.attempts))
    ensures var o := HandleEvent(cfg, db, w, e, io);
            Projected(o.db) && (o.ok ==> Sound(mine, o.db, o.worker) || exists x :: Hole(mine, o.db, o.worker, x))
  {
    HandleEventSoundIff(cfg, mine, db, w, e, io);
    if Loses(cfg, db, w, e, io) {
      AttemptAllKeeps(w.tx, e, io.attempts);
      ForgottenUnsound(cfg, mine, db, Tried(w, e, io), e, AttemptAll(w.tx, e, io.attempts).verdict, io);
      ExactCovers(db.effects, db.deadLetters, e.partition, Next(db.checkpoints, e.partition), e.sequence);
      var o := HandleEvent(cfg, db, w, e, io);
      assert Hole(mine, o.db, o.worker, e);
    }
  }

  lemma {:induction false} FlushAllOwn(mine: iset<nat>, db: Database, w: WorkerState, ios: seq<FlushIo>)
    requires ios != [] && Own(mine, w)
    ensures Own(mine, FlushAll(db, w, ios).worker)
  {
    FlushAllGrows(mine, db, w, ios);
  }

  lemma OwnCall(cfg: Config, mine: iset<nat>, db: Database, w: WorkerState, e: EventRef, io: HandleIo)
    requires Own(mine, w) && e.partition in mine && io.attempts != [] && io.flush != [] && io.deadFlush != []
    requires HandleEvent(cfg, db, w, e, io).ok
    ensures Own(mine, HandleEvent(cfg, db, w, e, io).worker)
  {
    if !Skips(w, e, io) {
      AttemptAllKeeps(w.tx, e, io.attempts);
      var w1, verdict := Tried(w, e, io), AttemptAll(w.tx, e, io.attempts).verdict;
      if verdict.Succeeded? {
        OwnSettle(cfg, mine, db, w1, e, io.flush);
      } else {
        var o := DeadLetter(db, w1, e, io.dead, io.deadFlush);
        if w1.tx.Some? {
          FlushAllOwn(mine, db, Buried(db, w1, e), io.deadFlush);
        }
        OwnSettle(cfg, mine, o.db, o.worker, e, io.flush);
      }
    }
  }

  lemma OwnSettle(cfg: Config, mine: iset<nat>, db: Database, w: WorkerState, e: EventRef, flush: seq<FlushIo>)
    requires Own(mine, w) && flush != []
    ensures Own(mine, Settle(cfg, db, w, e, flush).worker)
  {
    FlushAllOwn(mine, db, Recorded(w, e), flush);
  }

  /** One call, next to exact tables: they stay exact if and only if it does not publish past a
      hole, and then its worker again covers what it handled or has a hole. */
  lemma CallTables(cfg: Config, mine: iset<nat>, db: Database, w: WorkerState, e: EventRef, io: HandleIo)
    requires Callable(mine, db, w, e, io)
    ensures var o := HandleEvent(cfg, db, w, e, io);
            && (Projected(o.db) <==> !OverHole(cfg, mine, db, w, e, io))
            && (o.ok ==> Projected(o.db) ==> Intact(mine, o.db, o.worker))
  {
    if !Skips(w, e, io) {
      var o := HandleEvent(cfg, db, w, e, io);
      if o.ok {
        OwnCall(cfg, mine, db, w, e, io);
      }
      if Holed(mine, db, w) || (w.tx.Some? && DropsBatch(w.tx, e, io.attempts)) {
        HoledCall(cfg, mine, db, w, e, io);
      } else {
        SoundCall(cfg, mine, db, w, e, io);
      }
    }
  }

  // ---- One timer flush ----

  lemma HoleUncommitted(mine: iset<nat>, db: Database, w: WorkerState, x: EventRef)
    requires Projected(db) && Hole(mine, db, w, x)
    ensures Next(db.checkpoints, x.partition) <= x.sequence < Next(w.handled, x.partition)
  {
    ExactCovers(db.effects, db.deadLetters, x.partition, Next(db.checkpoints, x.partition), x.sequence);
  }

  /** A flush of a worker with a hole. */
  lemma HoledFlush(mine: iset<nat>, db: Database, w: WorkerState, ios: seq<FlushIo>, x: EventRef)
    requires Projected(db) && Marks(mine, db, w) && RowsHandled(mine, w) && OrdersOf(ios, w.handled.Keys)
    requires Hole(mine, db, w, x)
    ensures var o := FlushAll(db, w, ios);
            && Hole(mine, o.db, o.worker, x)
            && (if FlushCommits(db, w, ios) then Lost(o.db, x) else o.db == db)
  {
    HoleUncommitted(mine, db, w, x);
    FlushAllAbsent(db, w, ios, x);
    FlushAllMarks(mine, db, w, ios);
    if w.tx.Some? {
      FlushAllEnds(mine, db, w, ios, x.partition);
      if FlushCommits(db, w, ios) {
        FlushAllPublishes(mine, db, w, ios);
      }
    } else {
      FlushIdle(db, w, ios);
    }
  }

  lemma FlushTables(mine: iset<nat>, db: Database, w: WorkerState, ios: seq<FlushIo>)
    requires Projected(db) && Marks(mine, db, w) && Steady(w) && Intact(mine, db, w) && OrdersOf(ios, w.handled.Keys)
    ensures var o := FlushAll(db, w, ios);
            && (Projected(o.db) <==> !(Holed(mine, db, w) && FlushCommits(db, w, ios)))
            && (o.ok ==> Intact(mine, o.db, o.worker))
  {
    var o := FlushAll(db, w, ios);
    FlushAllOwn(mine, db, w, ios);
    if Holed(mine, db, w) {
      var x :| Hole(mine, db, w, x);
      HoledFlush(mine, db, w, ios, x);
      if FlushCommits(db, w, ios) {
        LostInexact(o.db, x);
      }
    } else {
      FlushAllSound(mine, db, w, ios);
      if ForgetsBatch(db, w, ios) {
        FlushAllForgets(db, w, ios);
        var x := PendingEvent(mine, db, w);
        assert Hole(mine, o.db, o.worker, x);
      }
    }
  }

  // ---- One step of the system ----

  /** Exact tables, and every worker covers what it handled or has a hole. */
  ghost predicate IntactSystem(cfg: Config, s: System)
    requires cfg.workerCount > 0
  {
    && Projected(s.db)
    && forall id: nat :: id < cfg.workerCount ==> Intact(Mine(cfg, id), s.db, Effective(s, id))
  }

  /** The step commits a checkpoint past a hole. */
  ghost predicate StepOverHole(cfg: Config, s: System, step: Step)
    requires cfg.workerCount > 0
  {
    match step
    case Deliver(e, io) =>
      && io.attempts != [] && io.deadFlush != [] && io.flush != []
      && OverHole(cfg, Mine(cfg, e.partition % cfg.workerCount), s.db, WorkerOf(cfg, s, e.partition), e, io)
    case TimerFlush(id, ios) =>
      && id in s.workers && ios != []
      && Holed(Mine(cfg, id), s.db, s.workers[id]) && FlushCommits(s.db, s.workers[id], ios)
    case Crash => false
  }

  lemma RebootIntact(cfg: Config, db: Database)
    requires cfg.workerCount > 0
    ensures IntactSystem(cfg, Reboot(db)) <==> Projected(db)
  {
    RebootTracked(cfg, db);
  }

  /** Another worker's commit neither fills nor makes a hole. */
  lemma IntactFrame(mine: iset<nat>, other: iset<nat>, db: Database, db': Database, w: WorkerState)
    requires Grows(mine, db, db') && Advances(mine, db, db') && Intact(other, db, w)
    requires forall p :: p in other ==> p !in mine
    ensures Intact(other, db', w)
  {
    if Sound(other, db, w) {
      SoundFrame(mine, other, db, db', w);
    } else {
      var x :| Hole(other, db, w, x);
      assert x !in db'.effects;
      assert Hole(other, db', w, x);
    }
  }

  lemma OthersIntact(cfg: Config, s: System, id: nat, o: Outcome, cursor: map<nat, nat>)
    requires cfg.workerCount > 0 && IntactSystem(cfg, s) && id < cfg.workerCount && o.ok
    requires Advances(Mine(cfg, id), s.db, o.db) && Grows(Mine(cfg, id), s.db, o.db)
    requires Projected(o.db) && Intact(Mine(cfg, id), o.db, o.worker)
    ensures IntactSystem(cfg, Settled(cfg, s, id, o, cursor))
  {
    var s' := Settled(cfg, s, id, o, cursor);
    forall other: nat | other < cfg.workerCount
      ensures Intact(Mine(cfg, other), s'.db, Effective(s', other))
    {
      if other == id {
        assert Effective(s', id) == o.worker;
      } else {
        assert Effective(s', other) == Effective(s, other);
        IntactFrame(Mine(cfg, id), Mine(cfg, other), s.db, o.db, Effective(s, other));
      }
    }
  }

  lemma IntactOwn(mine: iset<nat>, db: Database, w: WorkerState)
    requires Intact(mine, db, w)
    ensures Own(mine, w)
  {}

  lemma DeliverTables(cfg: Config, s: System, e: EventRef, io: HandleIo)
    requires cfg.workerCount > 0 && Tracked(cfg, s) && IntactSystem(cfg, s) && Enabled(cfg, s, Deliver(e, io))
    ensures var s' := Take(cfg, s, Deliver(e, io));
            && (Projected(s'.db) <==> !StepOverHole(cfg, s, Deliver(e, io)))
            && (Projected(s'.db) ==> IntactSystem(cfg, s'))
  {
    var id := e.partition % cfg.workerCount;
    var mine, w := Mine(cfg, id), Effective(s, id);
    assert TrackedWorker(cfg, s.db, s.cursor, id, w);
    IntactOwn(mine, s.db, w);
    CallTables(cfg, mine, s.db, w, e, io);
    HandleEventMarks(cfg, mine, s.db, w, e, io);
    HandleEventGrows(cfg, mine, s.db, w, e, io);
    var o := HandleEvent(cfg, s.db, w, e, io);
    if Projected(o.db) {
      if o.ok {
        OthersIntact(cfg, s, id, o, Delivered(s.cursor, e));
      } else {
        RebootIntact(cfg, o.db);
      }
    }
  }

  lemma TimerTables(cfg: Config, s: System, id: nat, ios: seq<FlushIo>)
    requires cfg.workerCount > 0 && Tracked(cfg, s) && IntactSystem(cfg, s)
    requires Enabled(cfg, s, TimerFlush(id, ios)) && id < cfg.workerCount
    ensures var s' := Take(cfg, s, TimerFlush(id, ios));
            && (Projected(s'.db) <==> !StepOverHole(cfg, s, TimerFlush(id, ios)))
            && (Projected(s'.db) ==> IntactSystem(cfg, s'))
  {
    var mine, w := Mine(cfg, id), Effective(s, id);
    assert TrackedWorker(cfg, s.db, s.cursor, id, w);
    IntactOwn(mine, s.db, w);
    FlushTables(mine, s.db, w, ios);
    FlushAllMarks(mine, s.db, w, ios);
    FlushAllGrows(mine, s.db, w, ios);
    var o := FlushAll(s.db, w, ios);
    if Projected(o.db) {
      if o.ok {
        OthersIntact(cfg, s, id, o, s.cursor);
      } else {
        RebootIntact(cfg, o.db);
      }
    }
  }

  /** One step keeps the tables exact if and only if it does not commit past a hole. */
  lemma StepTablesIff(cfg: Config, s: System, step: Step)
    requires cfg.workerCount > 0 && Tracked(cfg, s) && Routed(cfg, s) && IntactSystem(cfg, s) && Enabled(cfg, s, step)
    ensures var s' := Take(cfg, s, step);
            && (Projected(s'.db) <==> !StepOverHole(cfg, s, step))
            && (Projected(s'.db) ==> IntactSystem(cfg, s'))
  {
    match step
    case Deliver(e, io) => DeliverTables(cfg, s, e, io);
    case TimerFlush(id, ios) => TimerTables(cfg, s, id, ios);
    case Crash => RebootIntact(cfg, s.db);
  }

  // ---- Where holes come from ----

  /** A call that the worker survives leaves a hole if and only if there was one or the call loses. */
  lemma CallHoledIff(cfg: Config, mine: iset<nat>, db: Database, w: WorkerState, e: EventRef, io: HandleIo)
    requires Callable(mine, db, w, e, io) && HandleEvent(cfg, db, w, e, io).ok && !OverHole(cfg, mine, db, w, e, io)
    ensures var o := HandleEvent(cfg, db, w, e, io);
            Holed(mine, o.db, o.worker) <==> Holed(mine, db, w) || Loses(cfg, db, w, e, io)
  {
    var o := HandleEvent(cfg, db, w, e, io);
    CallTables(cfg, mine, db, w, e, io);
    if Sound(mine, db, w) {
      SoundNotHoled(mine, db, w);
      HandleEventSoundIff(cfg, mine, db, w, e, io);
      if Sound(mine, o.db, o.worker) {
        SoundNotHoled(mine, o.db, o.worker);
      }
    } else if !Skips(w, e, io) {
      HoledCall(cfg, mine, db, w, e, io);
      OwnCall(cfg, mine, db, w, e, io);
    }
  }

  lemma FlushHoledIff(mine: iset<nat>, db: Database, w: WorkerState, ios: seq<FlushIo>)
    requires Projected(db) && Marks(mine, db, w) && Steady(w) && Intact(mine, db, w) && OrdersOf(ios, w.handled.Keys)
    requires FlushAll(db, w, ios).ok && !(Holed(mine, db, w) && FlushCommits(db, w, ios))
    ensures var o := FlushAll(db, w, ios);
            Holed(mine, o.db, o.worker) <==> Holed(mine, db, w) || ForgetsBatch(db, w, ios)
  {
    var o := FlushAll(db, w, ios);
    FlushAllOwn(mine, db, w, ios);
    if Holed(mine, db, w) {
      var x :| Hole(mine, db, w, x);
      HoledFlush(mine, db, w, ios, x);
    } else {
      FlushAllSound(mine, db, w, ios);
      if ForgetsBatch(db, w, ios) {
        FlushAllForgets(db, w, ios);
        var x := PendingEvent(mine, db, w);
        assert Hole(mine, o.db, o.worker, x);
      } else {
        SoundNotHoled(mine, o.db, o.worker);
      }
    }
  }

  lemma HoledFrame(mine: iset<nat>, other: iset<nat>, db: Database, db': Database, w: WorkerState)
    requires Grows(mine, db, db') && forall p :: p in other ==> p !in mine
    ensures Holed(other, db', w) <==> Holed(other, db, w)
  {
    assert forall x: EventRef :: x.partition in other ==> (x in db'.effects <==> x in db.effects);
    assert forall x :: Hole(other, db', w, x) <==> Hole(other, db, w, x);
  }

  predicate Addressed(cfg: Config, step: Step, id: nat)
    requires cfg.workerCount > 0
  {
    match step
    case Deliver(e, _) => id == e.partition % cfg.workerCount
    case TimerFlush(i, _) => id == i
    case Crash => false
  }

  /** The flush reports success: nothing is open, or COMMIT is acknowledged, or a retry follows it. */
  predicate FlushReturns(db: Database, w: WorkerState, ios: seq<FlushIo>)
    requires ios != []
  {
    var k := CommitAttempt(db, w, ios);
    || w.tx.None?
    || (k.Some? && (k.value + 1 < |ios| || (ios[k.value].commit.Acknowledged? && ios[k.value].afterCommitOk)))
  }

  lemma {:induction false} FlushReturnsIff(db: Database, w: WorkerState, ios: seq<FlushIo>)
    requires ios != []
    ensures FlushAll(db, w, ios).ok <==> FlushReturns(db, w, ios)
    decreases |ios|
  {
    var o := FlushOnce(db, w, ios[0]);
    if !o.ok && |ios| > 1 {
      if o.worker.tx.None? {
        FlushIdle(o.db, o.worker, ios[1..]);
      } else {
        FlushReturnsIff(o.db, o.worker, ios[1..]);
      }
    }
  }

  /** The call reports success. */
  predicate Returns(cfg: Config, db: Database, w: WorkerState, e: EventRef, io: HandleIo)
    requires io.attempts != [] && io.deadFlush != [] && io.flush != []
  {
    || AlreadyHandled(w, e)
    || (&& !Skips(w, e, io)
        && var tried := Tried(w, e, io);
           match AttemptAll(w.tx, e, io.attempts).verdict
           case FailedTransient => false
           case Succeeded =>
             var w1 := Recorded(tried, e);
             w1.sinceFlush < ActiveInterval(cfg, w1) || FlushReturns(db, w1, io.flush)
           case FailedPermanent =>
             && e.partition <= MAX_SMALLINT && io.dead.insertOk
             && (if tried.tx.Some? then !tried.tx.value.broken && FlushReturns(db, Buried(db, tried, e), io.deadFlush)
                 else io.dead.beginOk && io.dead.checkpointOk && io.dead.commit.Acknowledged?))
  }

  lemma ReturnsIff(cfg: Config, db: Database, w: WorkerState, e: EventRef, io: HandleIo)
    requires io.attempts != [] && io.deadFlush != [] && io.flush != []
    ensures HandleEvent(cfg, db, w, e, io).ok <==> Returns(cfg, db, w, e, io)
  {
    if !Skips(w, e, io) {
      var tried, verdict := Tried(w, e, io), AttemptAll(w.tx, e, io.attempts).verdict;
      if verdict.Succeeded? {
        FlushReturnsIff(db, Recorded(tried, e), io.flush);
      } else if verdict.FailedPermanent? {
        if tried.tx.Some? {
          FlushReturnsIff(db, Buried(db, tried, e), io.deadFlush);
          FlushAllExposed(db, Buried(db, tried, e), io.deadFlush);
        }
        var o := DeadLetter(db, tried, e, io.dead, io.deadFlush);
        if o.ok {
          SettleIdle(cfg, o.db, o.worker, e, io.flush);
        }
      }
    }
  }

  /** The step ends the epoch: a crash, or a call whose error propagates. */
  predicate Ends(cfg: Config, s: System, step: Step)
    requires cfg.workerCount > 0
  {
    match step
    case Deliver(e, io) =>
      && io.attempts != [] && io.deadFlush != [] && io.flush != []
      && !Returns(cfg, s.db, WorkerOf(cfg, s, e.partition), e, io)
    case TimerFlush(id, ios) => id in s.workers && ios != [] && !FlushReturns(s.db, s.workers[id], ios)
    case Crash => true
  }

  lemma EndsReboots(cfg: Config, s: System, step: Step)
    requires cfg.workerCount > 0 && Enabled(cfg, s, step)
    ensures Ends(cfg, s, step) ==> Take(cfg, s, step) == Reboot(Take(cfg, s, step).db)
    ensures step.Deliver? ==>
              (Ends(cfg, s, step) <==> !HandleEvent(cfg, s.db, WorkerOf(cfg, s, step.e.partition), step.e, step.io).ok)
    ensures step.TimerFlush? ==> (Ends(cfg, s, step) <==> !FlushAll(s.db, s.workers[step.id], step.ios).ok)
  {
    match step
    case Deliver(e, io) => ReturnsIff(cfg, s.db, WorkerOf(cfg, s, e.partition), e, io);
    case TimerFlush(id, ios) => FlushReturnsIff(s.db, s.workers[id], ios);
    case Crash =>
  }

  /** A hole is opened by a losing step of its worker, stays while the epoch lasts, and is healed by
      the end of the epoch. */
  lemma StepHoledIff(cfg: Config, s: System, step: Step, id: nat)
    requires cfg.workerCount > 0 && Tracked(cfg, s) && Routed(cfg, s) && IntactSystem(cfg, s) && Enabled(cfg, s, step)
    requires id < cfg.workerCount && !StepOverHole(cfg, s, step)
    ensures var s' := Take(cfg, s, step);
            Holed(Mine(cfg, id), s'.db, Effective(s', id)) <==>
              && !Ends(cfg, s, step)
              && (Holed(Mine(cfg, id), s.db, Effective(s, id)) || (Addressed(cfg, step, id) && StepLoses(cfg, s, step)))
  {
    StepTablesIff(cfg, s, step);
    EndsReboots(cfg, s, step);
    var s', w := Take(cfg, s, step), Effective(s, id);
    assert TrackedWorker(cfg, s.db, s.cursor, id, w);
    if Ends(cfg, s, step) {
      RebootTracked(cfg, s'.db);
      SoundNotHoled(Mine(cfg, id), s'.db, Effective(s', id));
    } else if Addressed(cfg, step, id) {
      match step
      case Deliver(e, io) => CallHoledIff(cfg, Mine(cfg, id), s.db, w, e, io);
      case TimerFlush(_, ios) => FlushHoledIff(Mine(cfg, id), s.db, w, ios);
    } else {
      UnaddressedHoled(cfg, s, step, id);
    }
  }

  lemma UnaddressedHoled(cfg: Config, s: System, step: Step, id: nat)
    requires cfg.workerCount > 0 && Routed(cfg, s) && IntactSystem(cfg, s) && Enabled(cfg, s, step)
    requires id < cfg.workerCount && !Ends(cfg, s, step) && !Addressed(cfg, step, id)
    ensures var s' := Take(cfg, s, step);
            Holed(Mine(cfg, id), s'.db, Effective(s', id)) <==> Holed(Mine(cfg, id), s.db, Effective(s, id))
  {
    var s' := Take(cfg, s, step);
    EndsReboots(cfg, s, step);
    assert Effective(s', id) == Effective(s, id);
    var i := if step.Deliver? then step.e.partition % cfg.workerCount else step.id;
    var mine, w := Mine(cfg, i), Effective(s, i);
    IntactOwn(mine, s.db, w);
    if step.Deliver? {
      HandleEventGrows(cfg, mine, s.db, w, step.e, step.io);
    } else {
      FlushAllGrows(mine, s.db, w, step.ios);
    }
    HoledFrame(mine, Mine(cfg, id), s.db, s'.db, Effective(s, id));
  }

  // ---- A lost event stays lost ----

  /** Lost, and no open transaction holds it either. */
  ghost predicate Gone(s: System, x: EventRef) {
    Lost(s.db, x) && forall id :: id in s.workers ==> Absent(s.db, s.workers[id], x)
  }

  lemma CallGone(cfg: Config, mine: iset<nat>, db: Database, w: WorkerState, e: EventRef, io: HandleIo, x: EventRef)
    requires Marks(mine, db, w) && e.partition in mine && Lost(db, x) && Absent(db, w, x)
    requires io.attempts != [] && io.flush != [] && io.deadFlush != []
    ensures var o := HandleEvent(cfg, db, w, e, io); Absent(o.db, o.worker, x)
  {
    if !Skips(w, e, io) {
      assert x != e;
      AttemptAllKeeps(w.tx, e, io.attempts);
      ConcludeAbsent(cfg, db, Tried(w, e, io), e, AttemptAll(w.tx, e, io.attempts).verdict, io, x);
    }
  }

  lemma SettledGone(cfg: Config, s: System, id: nat, o: Outcome, cursor: map<nat, nat>, x: EventRef)
    requires Gone(s, x) && Absent(o.db, o.worker, x) && x.sequence < Next(o.db.checkpoints, x.partition)
    ensures Gone(Settled(cfg, s, id, o, cursor), x)
  {}

  lemma StepGone(cfg: Config, s: System, step: Step, x: EventRef)
    requires cfg.workerCount > 0 && Tracked(cfg, s) && Routed(cfg, s) && Enabled(cfg, s, step) && Gone(s, x)
    ensures Gone(Take(cfg, s, step), x)
  {
    StepTracked(cfg, s, step);
    match step
    case Deliver(e, io) =>
      var id := e.partition % cfg.workerCount;
      var w := Effective(s, id);
      assert TrackedWorker(cfg, s.db, s.cursor, id, w);
      CallGone(cfg, Mine(cfg, id), s.db, w, e, io, x);
      SettledGone(cfg, s, id, HandleEvent(cfg, s.db, w, e, io),
                  Delivered(s.cursor, e), x);
    case TimerFlush(id, ios) =>
      FlushAllAbsent(s.db, s.workers[id], ios, x);
      SettledGone(cfg, s, id, FlushAll(s.db, s.workers[id], ios), s.cursor, x);
    case Crash =>
  }

  lemma RunStepGone(cfg: Config, states: seq<System>, steps: seq<Step>, i: nat, x: EventRef)
    requires cfg.workerCount > 0 && Run(cfg, states, steps) && i < |steps| && Gone(states[i], x)
    ensures Gone(states[i + 1], x)
  {
    RunTracked(cfg, states, steps, i);
    StepGone(cfg, states[i], steps[i], x);
    assert states[i + 1] == Take(cfg, states[i], steps[i]);
  }

  /** A lost event that no worker holds is lost in every later state of every run: no redelivery,
      retry or restart brings it back. */
  lemma {:induction false} GoneForever(cfg: Config, states: seq<System>, steps: seq<Step>, i: nat, j: nat, x: EventRef)
    requires cfg.workerCount > 0 && Run(cfg, states, steps) && i <= j < |states| && Gone(states[i], x)
    ensures Gone(states[j], x)
    decreases j - i
  {
    if i < j {
      RunStepGone(cfg, states, steps, i, x);
      GoneForever(cfg, states, steps, i + 1, j, x);
    }
  }

  /** The step that commits past a hole loses an event for good. */
  lemma StepOverHoleLoses(cfg: Config, s: System, step: Step) returns (x: EventRef)
    requires cfg.workerCount > 0 && Tracked(cfg, s) && Routed(cfg, s) && IntactSystem(cfg, s) && Enabled(cfg, s, step)
    requires StepOverHole(cfg, s, step)
    ensures Gone(Take(cfg, s, step), x)
  {
    match step
    case Deliver(e, io) =>
      var id := e.partition % cfg.workerCount;
      var w := Effective(s, id);
      assert TrackedWorker(cfg, s.db, s.cursor, id, w);
      x := OverHoleLoses(cfg, Mine(cfg, id), s.db, w, e, io);
      OthersGone(cfg, s, id, HandleEvent(cfg, s.db, w, e, io),
                 Delivered(s.cursor, e), x);
    case TimerFlush(id, ios) =>
      var mine, w := Mine(cfg, id), Effective(s, id);
      assert TrackedWorker(cfg, s.db, s.cursor, id, w);
      x :| Hole(mine, s.db, w, x);
      HoledFlush(mine, s.db, w, ios, x);
      OthersGone(cfg, s, id, FlushAll(s.db, w, ios), s.cursor, x);
  }

  lemma OthersGone(cfg: Config, s: System, id: nat, o: Outcome, cursor: map<nat, nat>, x: EventRef)
    requires cfg.workerCount > 0 && IntactSystem(cfg, s) && Routed(cfg, s) && id < cfg.workerCount
    requires x.partition in Mine(cfg, id) && Lost(o.db, x) && Absent(o.db, o.worker, x)
    ensures Gone(Settled(cfg, s, id, o, cursor), x)
  {
    var s' := Settled(cfg, s, id, o, cursor);
    forall other | other in s'.workers ensures Absent(s'.db, s'.workers[other], x) {
      if other != id {
        assert Effective(s, other) == s.workers[other];
        IntactOwn(Mine(cfg, other), s.db, s.workers[other]);
      }
    }
  }

  // ---- Whole runs ----

  lemma {:induction false} RunIntact(cfg: Config, states: seq<System>, steps: seq<Step>, i: nat)
    requires cfg.workerCount > 0 && Run(cfg, states, steps) && i < |states|
    requires forall k :: 0 <= k < i ==> !StepOverHole(cfg, states[k], steps[k])
    ensures IntactSystem(cfg, states[i])
  {
    if i == 0 {
      RebootIntact(cfg, states[0].db);
    } else {
      RunIntact(cfg, states, steps, i - 1);
      RunTracked(cfg, states, steps, i - 1);
      StepTablesIff(cfg, states[i - 1], steps[i - 1]);
    }
  }

  /** Step `j` of worker `id` lost, and the epoch has not ended between then and state `i`. */
  predicate Opened(cfg: Config, states: seq<System>, steps: seq<Step>, id: nat, j: nat, i: nat)
    requires cfg.workerCount > 0 && |states| == |steps| + 1 && i < |states|
  {
    && j < i && Addressed(cfg, steps[j], id) && StepLoses(cfg, states[j], steps[j])
    && forall k :: j <= k < i ==> !Ends(cfg, states[k], steps[k])
  }

  /** Holes over whole runs, next to exact tables: a worker has one if and only if one of its steps
      has lost since the epoch began. */
  lemma {:induction false} RunHoledIff(cfg: Config, states: seq<System>, steps: seq<Step>, i: nat, id: nat)
    requires cfg.workerCount > 0 && Run(cfg, states, steps) && i < |states| && id < cfg.workerCount
    requires forall k :: 0 <= k < i ==> !StepOverHole(cfg, states[k], steps[k])
    ensures Holed(Mine(cfg, id), states[i].db, Effective(states[i], id)) <==>
              exists j :: Opened(cfg, states, steps, id, j, i)
  {
    RunIntact(cfg, states, steps, i);
    if i == 0 {
      RebootTracked(cfg, states[0].db);
      SoundNotHoled(Mine(cfg, id), states[0].db, Effective(states[0], id));
    } else {
      RunHoledIff(cfg, states, steps, i - 1, id);
      RunIntact(cfg, states, steps, i - 1);
      RunTracked(cfg, states, steps, i - 1);
      StepHoledIff(cfg, states[i - 1], steps[i - 1], id);
      OpenedNext(cfg, states, steps, id, i - 1, i);
    }
  }

  lemma OpenedNext(cfg: Config, states: seq<System>, steps: seq<Step>, id: nat, i: nat, n: nat)
    requires cfg.workerCount > 0 && |states| == |steps| + 1 && n == i + 1 < |states|
    ensures (exists j :: Opened(cfg, states, steps, id, j, n)) <==>
              && !Ends(cfg, states[i], steps[i])
              && ((exists j :: Opened(cfg, states, steps, id, j, i))
                  || (Addressed(cfg, steps[i], id) && StepLoses(cfg, states[i], steps[i])))
  {
    if j :| Opened(cfg, states, steps, id, j, n) {
      assert j == i || Opened(cfg, states, steps, id, j, i);
    }
    if !Ends(cfg, states[i], steps[i]) {
      if j :| Opened(cfg, states, steps, id, j, i) {
        assert Opened(cfg, states, steps, id, j, n);
      }
      if Addressed(cfg, steps[i], id) && StepLoses(cfg, states[i], steps[i]) {
        assert Opened(cfg, states, steps, id, i, n);
      }
    }
  }

  /** Once a step has committed past a hole, some event is lost in every later state. */
  lemma {:induction false} RunLoses(cfg: Config, states: seq<System>, steps: seq<Step>, k: nat,
      i: nat) returns (x: EventRef)
    requires cfg.workerCount > 0 && Run(cfg, states, steps) && k < i < |states|
    requires StepOverHole(cfg, states[k], steps[k])
    ensures Gone(states[i], x)
    decreases k
  {
    if j: nat :| j < k && StepOverHole(cfg, states[j], steps[j]) {
      x := RunLoses(cfg, states, steps, j, i);
    } else {
      RunIntact(cfg, states, steps, k);
      RunTracked(cfg, states, steps, k);
      x := StepOverHoleLoses(cfg, states[k], steps[k]);
      GoneForever(cfg, states, steps, k + 1, i, x);
    }
  }

  /** Exactly-once projection with its exact condition: in every state of every run the tables are
      exact if and only if no step so far committed past a hole. */
  lemma TablesExactIff(cfg: Config, states: seq<System>, steps: seq<Step>, i: nat)
    requires cfg.workerCount > 0 && Run(cfg, states, steps) && i < |states|
    ensures Projected(states[i].db) <==> forall k :: 0 <= k < i ==> !StepOverHole(cfg, states[k], steps[k])
  {
    if k: nat :| k < i && StepOverHole(cfg, states[k], steps[k]) {
      var x := RunLoses(cfg, states, steps, k, i);
      LostInexact(states[i].db, x);
    } else {
      RunIntact(cfg, states, steps, i);
    }
  }

  /** The same condition without looking at tables or caches for a hole: a step of a worker that has
      lost in this epoch, or that drops its batch itself, commits past it. */
  ghost predicate CommitsPast(cfg: Config, states: seq<System>, steps: seq<Step>, k: nat)
    requires cfg.workerCount > 0 && |states| == |steps| + 1 && k < |steps|
  {
    var s := states[k];
    match steps[k]
    case Deliver(e, io) =>
      var w := WorkerOf(cfg, s, e.partition);
      && io.attempts != [] && io.deadFlush != [] && io.flush != [] && !Skips(w, e, io)
      && (|| (exists j :: Opened(cfg, states, steps, e.partition % cfg.workerCount, j, k))
          || (w.tx.Some? && DropsBatch(w.tx, e, io.attempts)))
      && PublishesPast(cfg, s.db, Tried(w, e, io), e, AttemptAll(w.tx, e, io.attempts).verdict, io)
    case TimerFlush(id, ios) =>
      && id in s.workers && ios != [] && FlushCommits(s.db, s.workers[id], ios)
      && exists j :: Opened(cfg, states, steps, id, j, k)
    case Crash => false
  }

  lemma CommitsPastIff(cfg: Config, states: seq<System>, steps: seq<Step>, k: nat)
    requires cfg.workerCount > 0 && Run(cfg, states, steps) && k < |steps|
    requires forall j :: 0 <= j < k ==> !StepOverHole(cfg, states[j], steps[j])
    ensures StepOverHole(cfg, states[k], steps[k]) <==> CommitsPast(cfg, states, steps, k)
  {
    RunTracked(cfg, states, steps, k);
    match steps[k]
    case Deliver(e, io) => RunHoledIff(cfg, states, steps, k, e.partition % cfg.workerCount);
    case TimerFlush(id, ios) => RunHoledIff(cfg, states, steps, k, id);
    case Crash =>
  }

  /** The first step that commits past a hole. */
  lemma {:induction false} FirstOverHole(cfg: Config, states: seq<System>, steps: seq<Step>,
      k: nat) returns (first: nat)
    requires cfg.workerCount > 0 && |states| == |steps| + 1 && k < |steps| && StepOverHole(cfg, states[k], steps[k])
    ensures first <= k && StepOverHole(cfg, states[first], steps[first])
    ensures forall j :: 0 <= j < first ==> !StepOverHole(cfg, states[j], steps[j])
    decreases k
  {
    if j: nat :| j < k && StepOverHole(cfg, states[j], steps[j]) {
      first := FirstOverHole(cfg, states, steps, j);
    } else {
      first := k;
    }
  }

  lemma SameSteps(cfg: Config, states: seq<System>, steps: seq<Step>, i: nat)
    requires cfg.workerCount > 0 && Run(cfg, states, steps) && i < |states|
    ensures (forall k :: 0 <= k < i ==> !StepOverHole(cfg, states[k], steps[k]))
            <==> (forall k :: 0 <= k < i ==> !CommitsPast(cfg, states, steps, k))
  {
    if k: nat :| k < i && StepOverHole(cfg, states[k], steps[k]) {
      var first := FirstOverHole(cfg, states, steps, k);
      CommitsPastIff(cfg, states, steps, first);
    } else {
      forall k | 0 <= k < i ensures !CommitsPast(cfg, states, steps, k) {
        CommitsPastIff(cfg, states, steps, k);
      }
    }
  }

  /** Exactly-once projection, by the steps alone: in every state of every run the tables are exact
      if and only if no worker committed past a loss of its own in the same epoch. */
  lemma ExactBySteps(cfg: Config, states: seq<System>, steps: seq<Step>, i: nat)
    requires cfg.workerCount > 0 && Run(cfg, states, steps) && i < |states|
    ensures Projected(states[i].db) <==> forall k :: 0 <= k < i ==> !CommitsPast(cfg, states, steps, k)
  {
    TablesExactIff(cfg, states, steps, i);
    SameSteps(cfg, states, steps, i);
  }

  /** What exact tables mean for each event: the committed effects of each partition are its events
      below the committed checkpoint that are not dead-lettered, in strictly increasing order; each
      event below it is applied or dead-lettered, never both; above it neither; and every dead
      letter was seen once. */
  lemma ExactlyOnce(cfg: Config, states: seq<System>, steps: seq<Step>, i: nat, p: nat, k: nat)
    requires cfg.workerCount > 0 && Run(cfg, states, steps) && i < |states|
    requires forall j :: 0 <= j < i ==> !StepOverHole(cfg, states[j], steps[j])
    ensures var db := states[i].db;
            var applied := AppliedTo(db.effects, p);
            && (forall a, b :: 0 <= a < b < |applied| ==> applied[a] < applied[b])
            && (k in applied <==> k < Next(db.checkpoints, p) && EventRef(p, k) !in db.deadLetters)
            && (EventRef(p, k) in db.effects || EventRef(p, k) in db.deadLetters <==> k < Next(db.checkpoints, p))
            && !(EventRef(p, k) in db.effects && EventRef(p, k) in db.deadLetters)
            && (EventRef(p, k) in db.deadLetters ==> db.deadLetters[EventRef(p, k)] == 1)
  {
    RunIntact(cfg, states, steps, i);
    var db := states[i].db;
    var n := Next(db.checkpoints, p);
    assert Exact(db.effects, db.deadLetters, p, n);
    ExactCovers(db.effects, db.deadLetters, p, n, k);
    SurvivorsIncrease(db.deadLetters, p, n);
    SurvivorsMember(db.deadLetters, p, n, k);
  }

  /** Whenever an epoch ends, by a crash or by an error that propagates, the next one resumes each
      partition at the first event that is neither applied nor dead-lettered. */
  lemma RestartResumes(cfg: Config, states: seq<System>, steps: seq<Step>, i: nat, p: nat, k: nat)
    requires cfg.workerCount > 0 && Run(cfg, states, steps) && i < |steps| && Ends(cfg, states[i], steps[i])
    requires forall j :: 0 <= j <= i ==> !StepOverHole(cfg, states[j], steps[j])
    ensures var s := states[i + 1];
            var start := if p in StartFrom(s.boot) then StartFrom(s.boot)[p] else 0;
            && s.workers == map[] && start == Next(s.cursor, p)
            && (k < start <==> EventRef(p, k) in s.db.effects || EventRef(p, k) in s.db.deadLetters)
  {
    EndsReboots(cfg, states[i], steps[i]);
    ExactlyOnce(cfg, states, steps, i + 1, p, k);
  }

  lemma {:induction false} BootBehind(cfg: Config, states: seq<System>, steps: seq<Step>, i: nat, p: nat)
    requires cfg.workerCount > 0 && Run(cfg, states, steps) && i < |states|
    ensures Next(states[i].boot, p) <= Next(states[i].cursor, p)
  {
    if i > 0 {
      BootBehind(cfg, states, steps, i - 1, p);
      StepBoot(cfg, states[i - 1], steps[i - 1], p);
    }
  }

  lemma StepBoot(cfg: Config, s: System, step: Step, p: nat)
    requires cfg.workerCount > 0 && Enabled(cfg, s, step) && Next(s.boot, p) <= Next(s.cursor, p)
    ensures var s' := Take(cfg, s, step); Next(s'.boot, p) <= Next(s'.cursor, p)
  {}

  /** A subscription that restarts on the living processor starts from the map read at boot. It skips
      nothing, and everything it repeats is handled already. */
  lemma ResubscribeRepeats(cfg: Config, states: seq<System>, steps: seq<Step>, i: nat, p: nat, k: nat)
    requires cfg.workerCount > 0 && Run(cfg, states, steps) && i < |states|
    ensures var s, w := states[i], WorkerOf(cfg, states[i], p);
            var start := if p in StartFrom(s.boot) then StartFrom(s.boot)[p] else 0;
            && start <= Next(w.handled, p) == Next(s.cursor, p)
            && (start <= k < Next(s.cursor, p) ==> AlreadyHandled(w, EventRef(p, k)))
  {
    BootBehind(cfg, states, steps, i, p);
    RunTracked(cfg, states, steps, i);
    var id := p % cfg.workerCount;
    assert TrackedWorker(cfg, states[i].db, states[i].cursor, id, Effective(states[i], id));
    assert p in Mine(cfg, id);
  }
}
