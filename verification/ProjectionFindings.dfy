/** Poison events publish their batch; two runs that lose an event; and the undecodable-message
    path, which writes a checkpoint beside the worker. */
module ProjectionFindings {
  import opened Wrappers
  import opened ProjectionStore
  import opened ProjectionSteps
  import opened ProjectionMarks
  import opened ProjectionContent
  import opened ProjectionLoss
  import opened ProjectionRuns
  import opened ProjectionTables

  // ---- Poison events ----

  /** A flush that succeeds without forgetting its batch publishes the whole transaction. */
  lemma {:induction false} FlushPublishesBatch(mine: iset<nat>, db: Database, w: WorkerState, ios: seq<FlushIo>, p: nat)
    requires Marks(mine, db, w) && RowsHandled(mine, w) && ios != [] && w.tx.Some? && NeedsWrite(w, p)
    requires forall i :: 0 <= i < |ios| ==> IsOrder(ios[i].order, w.handled.Keys)
    requires FlushAll(db, w, ios).ok && !ForgetsBatch(db, w, ios)
    ensures var db' := FlushAll(db, w, ios).db;
            db'.effects == db.effects + w.tx.value.effects && db'.deadLetters == db.deadLetters + w.tx.value.deadLetters
    decreases |ios|
  {
    var o := FlushOnce(db, w, ios[0]);
    ForgetsNext(db, w, ios);
    FlushOncePublishesBatch(mine, db, w, ios[0], p);
    if o.worker.tx.None? {
      if !o.ok {
        FlushIdle(o.db, o.worker, ios[1..]);
      }
    } else {
      FlushOnceMarks(mine, db, w, ios[0]);
      FlushPublishesBatch(mine, o.db, o.worker, ios[1..], p);
    }
  }

  lemma FlushOncePublishesBatch(mine: iset<nat>, db: Database, w: WorkerState, io: FlushIo, p: nat)
    requires Marks(mine, db, w) && RowsHandled(mine, w) && IsOrder(io.order, w.handled.Keys) && w.tx.Some?
    requires NeedsWrite(w, p)
    ensures var o, t := FlushOnce(db, w, io), w.tx.value;
            if o.worker.tx.None? && !io.commit.Rejected?
            then o.db.effects == db.effects + t.effects && o.db.deadLetters == db.deadLetters + t.deadLetters
            else o.db == db && !o.ok
    ensures var o, t := FlushOnce(db, w, io), w.tx.value;
            && o.worker.handled == w.handled && (!o.ok ==> o.worker.flushed == w.flushed)
            && (o.worker.tx.Some? ==>
                o.worker.tx.value.effects == t.effects && o.worker.tx.value.deadLetters == t.deadLetters)
  {
    WriteFromContent(db, w.tx.value, w, io, 0);
    if WriteFrom(db, w.tx.value, w, io, 0).ok {
      CommitCatchesUp(mine, db, w, io);
    }
  }

  /** A poison event discards nothing: with it, every earlier uncommitted event of every
      partition in the batch is published, the poison event is dead-lettered, and it is the only
      row the call adds. */
  lemma PoisonPublishesBatch(cfg: Config, mine: iset<nat>, db: Database, w: WorkerState, e: EventRef, io: HandleIo)
    requires Marks(mine, db, w) && Steady(w) && w.tx.Some? && e.partition in mine
    requires e.sequence == Next(w.handled, e.partition)
    requires OrdersOf(io.deadFlush, w.handled.Keys + {e.partition})
    requires OrdersOf(io.flush, w.handled.Keys + {e.partition})
    requires io.attempts != [] && !Skips(w, e, io) && AttemptAll(w.tx, e, io.attempts).verdict.FailedPermanent?
    requires Returns(cfg, db, w, e, io) && !Loses(cfg, db, w, e, io)
    ensures var db' := HandleEvent(cfg, db, w, e, io).db;
            && db'.effects == db.effects + w.tx.value.effects
            && db'.deadLetters == db.deadLetters[e := Attempts(db.deadLetters, e)]
  {
    var tried := Tried(w, e, io);
    ReturnsIff(cfg, db, w, e, io);
    AttemptAllKeeps(w.tx, e, io.attempts);
    ConcludeEnds(cfg, mine, db, tried, e, FailedPermanent, io);
    PoisonFlush(mine, db, tried, e, io.dead, io.deadFlush);
    var o := DeadLetter(db, tried, e, io.dead, io.deadFlush);
    SettleIdle(cfg, o.db, o.worker, e, io.flush);
  }

  lemma PoisonFlush(mine: iset<nat>, db: Database, w: WorkerState, e: EventRef, io: DeadLetterIo, flush: seq<FlushIo>)
    requires Marks(mine, db, w) && w.tx.Some? && e.partition in mine && e.sequence == Next(w.handled, e.partition)
    requires w.tx.value.checkpoints == map[] && w.tx.value.deadLetters == map[]
    requires OrdersOf(flush, w.handled.Keys + {e.partition})
    requires DeadLetter(db, w, e, io, flush).ok && !ForgetsBatch(db, Buried(db, w, e), flush)
    ensures var o := DeadLetter(db, w, e, io, flush);
            && o.db.effects == db.effects + w.tx.value.effects
            && o.db.deadLetters == db.deadLetters[e := Attempts(db.deadLetters, e)]
            && o.worker.tx.None?
  {
    var w1 := Buried(db, w, e);
    BuriedMarks(mine, db, w, e);
    assert db.deadLetters + w.tx.value.deadLetters == db.deadLetters;
    FlushAllMarks(mine, db, w1, flush);
    assert NeedsWrite(w1, e.partition);
    FlushPublishesBatch(mine, db, w1, flush, e.partition);
  }

  // ---- Runs that lose ----

  const EMPTY := Database([], map[], map[])
  const PAIRS := Config(1, 2, 2)
  const EACH := Config(1, 1, 1)
  const GOOD := AttemptIo(true, true, Applied, true, true)
  const BAD_SAVEPOINT := AttemptIo(true, false, Applied, true, true)
  const FLUSHES := FlushIo([0], None, true, false, Acknowledged, true)
  const REJECTED := FlushIo([0], None, true, false, Rejected, true)

  function Io(attempts: seq<AttemptIo>, flush: seq<FlushIo>): HandleIo {
    HandleIo(Some(None), attempts, DeadLetterIo(true, true, true, Acknowledged),
             [FLUSHES, FLUSHES, FLUSHES, FLUSHES], flush)
  }

  lemma OrderOfOne(keys: set<nat>)
    requires keys == {0}
    ensures OrdersOf([FLUSHES, FLUSHES, FLUSHES, FLUSHES], keys)
    ensures OrdersOf([REJECTED, FLUSHES, FLUSHES, FLUSHES], keys)
  {
    assert FLUSHES.order[0] == 0 && REJECTED.order[0] == 0;
  }

  /** One effective delivery to the single worker on partition 0. */
  lemma OneDelivery(cfg: Config, s: System, k: nat, io: HandleIo, o: Outcome)
    requires cfg.workerCount == 1 && Next(s.cursor, 0) == k && |io.attempts| == HANDLE_ATTEMPTS
    requires WorkerOf(cfg, s, 0).handled.Keys + {0} == {0}
    requires OrdersOf(io.deadFlush, {0}) && OrdersOf(io.flush, {0})
    requires o.ok && HandleEvent(cfg, s.db, WorkerOf(cfg, s, 0), EventRef(0, k), io) == o
    ensures Enabled(cfg, s, Deliver(EventRef(0, k), io))
    ensures Take(cfg, s, Deliver(EventRef(0, k), io)) ==
              System(o.db, s.boot, s.workers[0 := o.worker], s.cursor[0 := k])
  {}

  /** The first event succeeds and stays uncommitted in a two-event batch. */
  function AfterFirst(): WorkerState {
    WorkerState(Some(FRESH.(effects := [EventRef(0, 0)])), 1, map[], map[0 := 0], map[0 := None], true)
  }

  lemma FirstEvent(flush: seq<FlushIo>)
    requires flush == [FLUSHES, FLUSHES, FLUSHES, FLUSHES]
    ensures HandleEvent(PAIRS, EMPTY, Spawn(map[]), EventRef(0, 0), Io([GOOD, GOOD, GOOD, GOOD, GOOD, GOOD], flush))
         == Outcome(EMPTY, AfterFirst(), true)
  {
    var ios := [GOOD, GOOD, GOOD, GOOD, GOOD, GOOD];
    var w := Tried(Spawn(map[]), EventRef(0, 0), Io(ios, flush));
    assert AttemptAll(None, EventRef(0, 0), ios) == Attempted(Some(FRESH.(effects := [EventRef(0, 0)])), Succeeded) by {
      assert FRESH.effects + [EventRef(0, 0)] == [EventRef(0, 0)];
    }
    assert w.latest == map[0 := None];
    assert Recorded(w, EventRef(0, 0)).handled == map[0 := 0];
  }

  /** The flush of a worker whose transaction holds only event 1 of partition 0. */
  lemma FlushSecond(tx: Transaction, since: nat)
    requires tx == FRESH.(effects := [EventRef(0, 1)])
    ensures var w := WorkerState(Some(tx), since, map[], map[0 := 1], map[0 := None], true);
            && FlushOnce(EMPTY, w, FLUSHES).ok
            && FlushOnce(EMPTY, w, FLUSHES).db == Database([EventRef(0, 1)], map[0 := 1], map[])
  {
    var w := WorkerState(Some(tx), since, map[], map[0 := 1], map[0 := None], true);
    assert WriteFrom(EMPTY, tx, w, FLUSHES, 0) == WriteFrom(EMPTY, tx.(checkpoints := map[][0 := 1]), w, FLUSHES, 1);
    assert WriteFrom(EMPTY, tx.(checkpoints := map[][0 := 1]), w, FLUSHES, 1).ok;
    assert EMPTY.effects + tx.effects == [EventRef(0, 1)];
    assert EMPTY.checkpoints + map[0 := 1] == map[0 := 1];
  }

  /** SAVEPOINT fails on the second event; the retry opens a fresh transaction and succeeds, and
      the flush commits a checkpoint past the first event, whose effects were dropped. */
  lemma SavepointFailureLosesEvent() returns (states: seq<System>, steps: seq<Step>)
    ensures Run(PAIRS, states, steps) && Lost(states[|states| - 1].db, EventRef(0, 0))
  {
    var flush := [FLUSHES, FLUSHES, FLUSHES, FLUSHES];
    var good, retried := [GOOD, GOOD, GOOD, GOOD, GOOD, GOOD], [BAD_SAVEPOINT, GOOD, GOOD, GOOD, GOOD, GOOD];
    assert Spawn(map[]).handled.Keys + {0} == AfterFirst().handled.Keys + {0} == {0};
    OrderOfOne({0});
    EmptyProjected();
    FirstEvent(flush);
    var o := RetriedSecond(retried, flush);
    var s0 := Reboot(EMPTY);
    var s1 := System(EMPTY, map[], map[0 := AfterFirst()], map[0 := 0]);
    var s2 := System(o.db, map[], map[0 := o.worker], map[0 := 1]);
    OneDelivery(PAIRS, s0, 0, Io(good, flush), Outcome(EMPTY, AfterFirst(), true));
    OneDelivery(PAIRS, s1, 1, Io(retried, flush), o);
    assert s1.workers[0 := o.worker] == s2.workers && s1.cursor[0 := 1] == s2.cursor;
    states := [s0, s1, s2];
    steps := [Deliver(EventRef(0, 0), Io(good, flush)), Deliver(EventRef(0, 1), Io(retried, flush))];
  }

  lemma RetriedSecond(retried: seq<AttemptIo>, flush: seq<FlushIo>) returns (o: Outcome)
    requires retried == [BAD_SAVEPOINT, GOOD, GOOD, GOOD, GOOD, GOOD] && flush == [FLUSHES, FLUSHES, FLUSHES, FLUSHES]
    ensures o == HandleEvent(PAIRS, EMPTY, AfterFirst(), EventRef(0, 1), Io(retried, flush))
    ensures o.ok && o.db == Database([EventRef(0, 1)], map[0 := 1], map[])
  {
    o := HandleEvent(PAIRS, EMPTY, AfterFirst(), EventRef(0, 1), Io(retried, flush));
    var e, tx := EventRef(0, 1), FRESH.(effects := [EventRef(0, 1)]);
    assert AttemptOnce(AfterFirst().tx, e, retried[0]) == Attempted(None, FailedTransient);
    assert FRESH.effects + [e] == [e];
    assert AttemptAll(None, e, retried[1..]) == AttemptOnce(None, e, GOOD) == Attempted(Some(tx), Succeeded);
    var w := Tried(AfterFirst(), e, Io(retried, flush));
    assert AfterFirst().handled[0 := 1] == map[0 := 1];
    var w1 := WorkerState(Some(tx), 2, map[], map[0 := 1], map[0 := None], true);
    assert Recorded(w, e) == w1;
    FlushSecond(tx, 2);
    assert FlushAll(EMPTY, w1, flush) == FlushOnce(EMPTY, w1, FLUSHES);
  }

  lemma EmptyProjected()
    ensures Projected(EMPTY)
  {}

  function AfterForgotten(): WorkerState {
    WorkerState(None, 1, map[], map[0 := 0], map[0 := None], true)
  }

  /** With a flush after every event, the COMMIT of the first one is rejected. */
  lemma RejectedFirst(good: seq<AttemptIo>, flush: seq<FlushIo>)
    requires good == [GOOD, GOOD, GOOD, GOOD, GOOD, GOOD] && flush == [REJECTED, FLUSHES, FLUSHES, FLUSHES]
    ensures HandleEvent(EACH, EMPTY, Spawn(map[]), EventRef(0, 0), Io(good, flush)) ==
              Outcome(EMPTY, AfterForgotten(), true)
  {
    var e, tx := EventRef(0, 0), FRESH.(effects := [EventRef(0, 0)]);
    assert FRESH.effects + [e] == [e];
    assert AttemptAll(None, e, good) == Attempted(Some(tx), Succeeded);
    var w, w1 := Tried(Spawn(map[]), e, Io(good, flush)), AfterForgotten().(tx := Some(tx));
    assert w.latest == map[0 := None] && Spawn(map[]).handled[0 := 0] == map[0 := 0];
    assert Recorded(w, e) == w1;
    var tx1 := tx.(checkpoints := map[][0 := 0]);
    assert WriteFrom(EMPTY, tx, w1, REJECTED, 0) == WriteFrom(EMPTY, tx1, w1, REJECTED, 1) == Written(tx1, true);
    assert FlushOnce(EMPTY, w1, REJECTED) == Outcome(EMPTY, AfterForgotten(), false);
    FlushIdle(EMPTY, AfterForgotten(), flush[1..]);
  }

  lemma FlushedNext(good: seq<AttemptIo>, flush: seq<FlushIo>) returns (o: Outcome)
    requires good == [GOOD, GOOD, GOOD, GOOD, GOOD, GOOD] && flush == [FLUSHES, FLUSHES, FLUSHES, FLUSHES]
    ensures o == HandleEvent(EACH, EMPTY, AfterForgotten(), EventRef(0, 1), Io(good, flush))
    ensures o.ok && o.db == Database([EventRef(0, 1)], map[0 := 1], map[])
  {
    o := HandleEvent(EACH, EMPTY, AfterForgotten(), EventRef(0, 1), Io(good, flush));
    var e, tx := EventRef(0, 1), FRESH.(effects := [EventRef(0, 1)]);
    assert FRESH.effects + [e] == [e];
    assert AttemptAll(None, e, good) == Attempted(Some(tx), Succeeded);
    var w := Tried(AfterForgotten(), e, Io(good, flush));
    assert AfterForgotten().handled[0 := 1] == map[0 := 1];
    var w1 := WorkerState(Some(tx), 2, map[], map[0 := 1], map[0 := None], true);
    assert Recorded(w, e) == w1;
    FlushSecond(tx, 2);
    assert FlushAll(EMPTY, w1, flush) == FlushOnce(EMPTY, w1, FLUSHES);
  }

  /** A rejected COMMIT: the flush retry finds no transaction and reports success; the next flush
      commits a checkpoint past the forgotten event. */
  lemma RejectedCommitLosesEvent() returns (states: seq<System>, steps: seq<Step>)
    ensures Run(EACH, states, steps) && Lost(states[|states| - 1].db, EventRef(0, 0))
  {
    var flush, rejected := [FLUSHES, FLUSHES, FLUSHES, FLUSHES], [REJECTED, FLUSHES, FLUSHES, FLUSHES];
    var good := [GOOD, GOOD, GOOD, GOOD, GOOD, GOOD];
    assert Spawn(map[]).handled.Keys + {0} == AfterForgotten().handled.Keys + {0} == {0};
    OrderOfOne({0});
    EmptyProjected();
    RejectedFirst(good, rejected);
    var o := FlushedNext(good, flush);
    var s0 := Reboot(EMPTY);
    var s1 := System(EMPTY, map[], map[0 := AfterForgotten()], map[0 := 0]);
    var s2 := System(o.db, map[], map[0 := o.worker], map[0 := 1]);
    OneDelivery(EACH, s0, 0, Io(good, rejected), Outcome(EMPTY, AfterForgotten(), true));
    OneDelivery(EACH, s1, 1, Io(good, flush), o);
    assert s1.workers[0 := o.worker] == s2.workers && s1.cursor[0 := 1] == s2.cursor;
    states := [s0, s1, s2];
    steps := [Deliver(EventRef(0, 0), Io(good, rejected)), Deliver(EventRef(0, 1), Io(good, flush))];
  }

  /** The same rejected COMMIT, healed: the first step loses, a crash follows before the next flush,
      and the tables are exact in every state. */
  lemma CrashHeals() returns (states: seq<System>, steps: seq<Step>)
    ensures Run(EACH, states, steps) && steps != [] && StepLoses(EACH, states[0], steps[0])
    ensures forall i :: 0 <= i < |states| ==> Projected(states[i].db)
  {
    var rejected, good := [REJECTED, FLUSHES, FLUSHES, FLUSHES], [GOOD, GOOD, GOOD, GOOD, GOOD, GOOD];
    assert Spawn(map[]).handled.Keys + {0} == {0};
    OrderOfOne({0});
    EmptyProjected();
    RejectedFirst(good, rejected);
    var s0, s1 := Reboot(EMPTY), System(EMPTY, map[], map[0 := AfterForgotten()], map[0 := 0]);
    OneDelivery(EACH, s0, 0, Io(good, rejected), Outcome(EMPTY, AfterForgotten(), true));
    states := [s0, s1, s0];
    steps := [Deliver(EventRef(0, 0), Io(good, rejected)), Crash];
    assert !SoundSystem(EACH, s1) by {
      assert 0 in Mine(EACH, 0) && Next(EMPTY.checkpoints, 0) != Next(AfterForgotten().handled, 0);
      assert Effective(s1, 0) == AfterForgotten();
    }
    RebootTracked(EACH, EMPTY);
    StepSoundIff(EACH, s0, steps[0]);
  }

  // ---- Undecodable messages (written by the processor, beside the worker) ----

  /** One transaction of the processor: dead-letter row and GREATEST checkpoint. */
  function Undecodable(db: Database, e: EventRef): Database {
    var p, s := e.partition, e.sequence;
    Database(db.effects,
             db.checkpoints[p := if p in db.checkpoints && db.checkpoints[p] > s then db.checkpoints[p] else s],
             db.deadLetters[e := Attempts(db.deadLetters, e)])
  }

  /** The worker raises its flushed watermark; its handled watermark stays. */
  function Synced(w: WorkerState, e: EventRef): WorkerState {
    if e.partition in w.flushed && w.flushed[e.partition] >= e.sequence then w
    else w.(flushed := w.flushed[e.partition := e.sequence])
  }

  /** The processor moves no checkpoint back and covers the message; the worker's flushed watermark is
      raised to it and never lowered, and nothing else of the worker changes. */
  lemma UndecodableMarks(db: Database, w: WorkerState, e: EventRef)
    ensures var p, c, f := e.partition, Next(db.checkpoints, e.partition), Next(w.flushed, e.partition);
            && Next(Undecodable(db, e).checkpoints, p) == (if c > e.sequence then c else e.sequence + 1)
            && Next(Synced(w, e).flushed, p) == (if f > e.sequence then f else e.sequence + 1)
            && (forall q: nat :: q != p ==> Next(Undecodable(db, e).checkpoints, q) == Next(db.checkpoints, q))
            && Synced(w, e).(flushed := w.flushed) == w && e in Undecodable(db, e).deadLetters
  {}

  /** The tables stay exact if and only if the message is the first one the committed checkpoint
      does not cover: nothing of its partition may be uncommitted. */
  lemma UndecodableExactIff(db: Database, e: EventRef)
    requires Projected(db)
    ensures Projected(Undecodable(db, e)) <==> e.sequence == Next(db.checkpoints, e.partition)
  {
    var p, s, c, db' := e.partition, e.sequence, Next(db.checkpoints, e.partition), Undecodable(db, e);
    if s == c {
      StandaloneProjected(iset{}, db, db', e);
    } else if s > c {
      ExactCovers(db.effects, db.deadLetters, p, c, c);
      if Projected(db') {
        ExactCovers(db'.effects, db'.deadLetters, p, Next(db'.checkpoints, p), c);
      }
    } else {
      ExactCovers(db.effects, db.deadLetters, p, c, s);
      if Projected(db') {
        assert Exact(db'.effects, db'.deadLetters, p, Next(db'.checkpoints, p));
        ExactCovers(db'.effects, db'.deadLetters, p, Next(db'.checkpoints, p), s);
      }
    }
  }

  /** Whether or not events of the partition are uncommitted, the worker's next successful flush, due
      to any partition, moves its committed checkpoint back over the message if and only if the
      worker had handled an event of it. */
  lemma SyncedFlushRegresses(db: Database, w: WorkerState, e: EventRef, io: FlushIo)
    requires Next(db.checkpoints, e.partition) <= e.sequence == Next(w.handled, e.partition)
    requires w.flushed.Keys <= w.handled.Keys && Next(w.flushed, e.partition) <= e.sequence
    requires w.tx.Some? && w.tx.value.checkpoints == map[] && !w.tx.value.broken && IsOrder(io.order, w.handled.Keys)
    requires FlushOnce(Undecodable(db, e), Synced(w, e), io).ok
    ensures var db1 := Undecodable(db, e);
            var db2 := FlushOnce(db1, Synced(w, e), io).db;
            && Next(db1.checkpoints, e.partition) == e.sequence + 1
            && Next(db2.checkpoints, e.partition) == if e.partition in w.handled then e.sequence else e.sequence + 1
  {
    var p, db1, w1 := e.partition, Undecodable(db, e), Synced(w, e);
    var all := iset q: nat | q in w.handled;
    WriteFromRows(all, db1, w1.tx.value, w1, io, 0);
    var r := WriteFrom(db1, w1.tx.value, w1, io, 0).tx;
    if p in w.handled {
      assert NeedsWrite(w1, p) && p in io.order;
      var j :| 0 <= j < |io.order| && io.order[j] == p;
      WriteFromCovers(all, db1, w1.tx.value, w1, io, 0, j);
    } else {
      assert p !in r.checkpoints;
    }
  }
}
