/** How much a worker may hold uncommitted, when it turns live, and that its commits touch only
    the partitions it owns. These hold whatever fails. */
module ProjectionExposure {
  import opened Wrappers
  import opened ProjectionStore
  import opened ProjectionSteps
  import opened ProjectionMarks
  import opened ProjectionContent
  import opened ProjectionLoss

  // ---- Bounded exposure ----

  /** The uncommitted events are fewer than the flush interval in force, and a live worker has
      handled every partition it met up to the latest sequence sampled for it. */
  ghost predicate Exposed(cfg: Config, w: WorkerState) {
    && (w.tx.Some? ==> |w.tx.value.effects| <= w.sinceFlush < ActiveInterval(cfg, w))
    && (w.live ==> !Behind(w))
  }

  ghost predicate SameProgress(w: WorkerState, w': WorkerState) {
    w'.live == w.live && w'.latest == w.latest && w'.handled == w.handled
  }

  lemma FlushOnceExposed(db: Database, w: WorkerState, io: FlushIo)
    ensures var o := FlushOnce(db, w, io); (o.ok ==> o.worker.tx.None?) && SameProgress(w, o.worker)
  {}

  lemma {:induction false} FlushAllExposed(db: Database, w: WorkerState, ios: seq<FlushIo>)
    requires ios != []
    ensures var o := FlushAll(db, w, ios); (o.ok ==> o.worker.tx.None?) && SameProgress(w, o.worker)
    decreases |ios|
  {
    FlushOnceExposed(db, w, ios[0]);
    var o := FlushOnce(db, w, ios[0]);
    if !o.ok && |ios| > 1 {
      FlushAllExposed(o.db, o.worker, ios[1..]);
    }
  }

  lemma SettleExposed(cfg: Config, db: Database, w: WorkerState, e: EventRef, flush: seq<FlushIo>)
    requires flush != [] && (w.tx.Some? ==> |w.tx.value.effects| <= w.sinceFlush + 1)
    requires w.live ==> !Behind(w.(handled := w.handled[e.partition := e.sequence]))
    ensures var o := Settle(cfg, db, w, e, flush); o.ok ==> Exposed(cfg, o.worker)
  {
    var w1 := Recorded(w, e);
    assert w1.live ==> !Behind(w1);
    if w1.sinceFlush >= ActiveInterval(cfg, w1) {
      FlushAllExposed(db, w1, flush);
      var o := FlushAll(db, w1, flush);
      assert Behind(o.worker) ==> Behind(w1);
    }
  }

  lemma ConcludeExposed(cfg: Config, db: Database, w: WorkerState, e: EventRef, verdict: Verdict, io: HandleIo)
    requires io.flush != [] && io.deadFlush != [] && (w.tx.Some? ==> |w.tx.value.effects| <= w.sinceFlush + 1)
    requires w.live ==> !Behind(w.(handled := w.handled[e.partition := e.sequence]))
    ensures var o := Conclude(cfg, db, w, e, verdict, io); o.ok ==> Exposed(cfg, o.worker)
  {
    if verdict.Succeeded? {
      SettleExposed(cfg, db, w, e, io.flush);
    } else if verdict.FailedPermanent? {
      var o := DeadLetter(db, w, e, io.dead, io.deadFlush);
      if w.tx.Some? {
        FlushAllExposed(db, Buried(db, w, e), io.deadFlush);
      }
      if o.ok {
        assert o.worker.handled[e.partition := e.sequence] == w.handled[e.partition := e.sequence];
        SettleExposed(cfg, o.db, o.worker, e, io.flush);
      }
    }
  }

  lemma MetBehind(w: WorkerState, e: EventRef, sampled: Option<nat>)
    requires (w.live ==> !Behind(w)) && !AlreadyHandled(w, e)
    ensures var w1 := Met(w, e.partition, sampled);
            w1.live ==> !Behind(w1.(handled := w1.handled[e.partition := e.sequence]))
  {}

  /** After every handled event, whatever its I/O did. */
  lemma HandleEventExposed(cfg: Config, db: Database, w: WorkerState, e: EventRef, io: HandleIo)
    requires Exposed(cfg, w) && Steady(w) && io.attempts != [] && io.flush != [] && io.deadFlush != []
    ensures var o := HandleEvent(cfg, db, w, e, io); o.ok ==> Exposed(cfg, o.worker)
  {
    if !Skips(w, e, io) {
      AttemptAllKeeps(w.tx, e, io.attempts);
      var sampled := if io.sampled.Some? then io.sampled.value else None;
      MetBehind(w, e, sampled);
      var w1, tried := Met(w, e.partition, sampled), Tried(w, e, io);
      assert Behind(tried.(handled := tried.handled[e.partition := e.sequence]))
          ==> Behind(w1.(handled := w1.handled[e.partition := e.sequence]));
      ConcludeExposed(cfg, db, tried, e, AttemptAll(w.tx, e, io.attempts).verdict, io);
    }
  }

  // ---- Isolation ----

  /** The tables grow by effects and dead letters of the worker's own partitions only. */
  ghost predicate Grows(mine: iset<nat>, db: Database, db': Database) {
    && db.effects <= db'.effects
    && (forall i :: |db.effects| <= i < |db'.effects| ==> db'.effects[i].partition in mine)
    && (forall x :: x in db.deadLetters && x.partition !in mine ==>
        x in db'.deadLetters && db'.deadLetters[x] == db.deadLetters[x])
    && (forall x :: x in db'.deadLetters && x.partition !in mine ==> x in db.deadLetters)
  }

  ghost predicate Own(mine: iset<nat>, w: WorkerState) {
    w.tx.Some? ==> OwnOnly(mine, w.tx.value)
  }

  lemma FlushOnceGrows(mine: iset<nat>, db: Database, w: WorkerState, io: FlushIo)
    requires Own(mine, w)
    ensures var o := FlushOnce(db, w, io); Grows(mine, db, o.db) && Own(mine, o.worker)
  {
    if w.tx.Some? {
      WriteFromContent(db, w.tx.value, w, io, 0);
    }
  }

  lemma {:induction false} FlushAllGrows(mine: iset<nat>, db: Database, w: WorkerState, ios: seq<FlushIo>)
    requires ios != [] && Own(mine, w)
    ensures var o := FlushAll(db, w, ios); Grows(mine, db, o.db) && Own(mine, o.worker)
    decreases |ios|
  {
    FlushOnceGrows(mine, db, w, ios[0]);
    var o := FlushOnce(db, w, ios[0]);
    if !o.ok && |ios| > 1 {
      FlushAllGrows(mine, o.db, o.worker, ios[1..]);
    }
  }

  lemma SettleGrows(cfg: Config, mine: iset<nat>, db: Database, w: WorkerState, e: EventRef, flush: seq<FlushIo>)
    requires flush != [] && Own(mine, w)
    ensures Grows(mine, db, Settle(cfg, db, w, e, flush).db)
  {
    var w1 := Recorded(w, e);
    if w1.sinceFlush >= ActiveInterval(cfg, w1) {
      FlushAllGrows(mine, db, w1, flush);
    }
  }

  lemma ConcludeGrows(cfg: Config, mine: iset<nat>, db: Database, w: WorkerState, e: EventRef, verdict: Verdict,
      io: HandleIo)
    requires io.flush != [] && io.deadFlush != [] && Own(mine, w) && e.partition in mine
    ensures Grows(mine, db, Conclude(cfg, db, w, e, verdict, io).db)
  {
    if verdict.Succeeded? {
      SettleGrows(cfg, mine, db, w, e, io.flush);
    } else if verdict.FailedPermanent? {
      if w.tx.Some? {
        FlushAllGrows(mine, db, Buried(db, w, e), io.deadFlush);
      }
      var o := DeadLetter(db, w, e, io.dead, io.deadFlush);
      assert Grows(mine, db, o.db) && Own(mine, o.worker);
      if o.ok {
        SettleGrows(cfg, mine, o.db, o.worker, e, io.flush);
      }
    }
  }

  lemma HandleEventGrows(cfg: Config, mine: iset<nat>, db: Database, w: WorkerState, e: EventRef, io: HandleIo)
    requires io.attempts != [] && io.flush != [] && io.deadFlush != [] && Own(mine, w) && e.partition in mine
    ensures Grows(mine, db, HandleEvent(cfg, db, w, e, io).db)
  {
    if !Skips(w, e, io) {
      AttemptAllKeeps(w.tx, e, io.attempts);
      ConcludeGrows(cfg, mine, db, Tried(w, e, io), e, AttemptAll(w.tx, e, io.attempts).verdict, io);
    }
  }

  lemma GrowsApplied(mine: iset<nat>, db: Database, db': Database, p: nat)
    requires Grows(mine, db, db') && p !in mine
    ensures AppliedTo(db'.effects, p) == AppliedTo(db.effects, p)
  {
    var added := db'.effects[|db.effects|..];
    assert db'.effects == db.effects + added;
    AppliedConcat(db.effects, added, p);
    if AppliedTo(added, p) != [] {
      AppliedMember(added, p, AppliedTo(added, p)[0]);
    }
  }

  lemma ExactFrame(mine: iset<nat>, db: Database, db': Database, t: Transaction, p: nat, n: nat)
    requires Grows(mine, db, db') && p !in mine
    requires Exact(db.effects + t.effects, db.deadLetters + t.deadLetters, p, n)
    ensures Exact(db'.effects + t.effects, db'.deadLetters + t.deadLetters, p, n)
  {
    GrowsApplied(mine, db, db', p);
    AppliedConcat(db.effects, t.effects, p);
    AppliedConcat(db'.effects, t.effects, p);
    SurvivorsFrame(db.deadLetters + t.deadLetters, db'.deadLetters + t.deadLetters, p, n);
  }

  /** Another worker's commit leaves this worker sound. */
  lemma SoundFrame(mine: iset<nat>, other: iset<nat>, db: Database, db': Database, w: WorkerState)
    requires Grows(mine, db, db') && Advances(mine, db, db') && Sound(other, db, w)
    requires forall p :: p in other ==> p !in mine
    ensures Sound(other, db', w)
  {
    if w.tx.Some? {
      var t := w.tx.value;
      forall p: nat | p in other
        ensures Exact(db'.effects + t.effects, db'.deadLetters + t.deadLetters, p, Next(w.handled, p))
      {
        ExactFrame(mine, db, db', t, p, Next(w.handled, p));
      }
    }
  }
}
