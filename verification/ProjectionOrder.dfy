/** What the tables of a projection promise in every run, lossy ones included: each event at most
    once and in order, never applied and dead-lettered both, and nothing above the checkpoint. So a
    lost event is the only way in which the tables can be inexact. */
module ProjectionOrder {
  import opened Wrappers
  import opened ProjectionStore
  import opened ProjectionSteps
  import opened ProjectionMarks
  import opened ProjectionContent
  import opened ProjectionLoss
  import opened ProjectionRuns

  ghost predicate Increasing(s: seq<nat>) {
    forall i, j :: 0 <= i < j < |s| ==> s[i] < s[j]
  }

  /** The effects of `p` are in order and without repetition, its dead letters were seen once, no
      event is both, and all of them are in the range from `lo` to `hi`. */
  ghost predicate Ordered(effects: seq<EventRef>, dead: map<EventRef, nat>, p: nat, lo: nat, hi: nat) {
    && Increasing(AppliedTo(effects, p))
    && (forall k :: k in AppliedTo(effects, p) ==> lo <= k < hi && EventRef(p, k) !in dead)
    && (forall k: nat :: EventRef(p, k) in dead ==> lo <= k < hi && dead[EventRef(p, k)] == 1)
  }

  ghost predicate Tidy(db: Database) {
    forall p: nat :: Ordered(db.effects, db.deadLetters, p, 0, Next(db.checkpoints, p))
  }

  /** The open transaction lies between the committed and the handled watermark. */
  ghost predicate Between(mine: iset<nat>, db: Database, t: Transaction, handled: map<nat, nat>) {
    && OwnOnly(mine, t)
    && forall p: nat :: p in mine ==> Ordered(t.effects, t.deadLetters, p, Next(db.checkpoints, p), Next(handled, p))
  }

  ghost predicate TidyWorker(mine: iset<nat>, db: Database, w: WorkerState) {
    w.tx.Some? ==> Between(mine, db, w.tx.value, w.handled)
  }

  // ---- Ordered ranges ----

  lemma IncreasingConcat(a: seq<nat>, b: seq<nat>, mid: nat)
    requires Increasing(a) && Increasing(b)
    requires (forall k :: k in a ==> k < mid) && (forall k :: k in b ==> mid <= k)
    ensures Increasing(a + b)
  {
    forall i, j | 0 <= i < j < |a + b| ensures (a + b)[i] < (a + b)[j] {
      assert i < |a| ==> a[i] in a;
      assert j >= |a| ==> b[j - |a|] in b;
    }
  }

  lemma Join(a: seq<EventRef>, da: map<EventRef, nat>, b: seq<EventRef>, db: map<EventRef, nat>, p: nat, lo: nat,
      mid: nat, hi: nat)
    requires lo <= mid <= hi && Ordered(a, da, p, lo, mid) && Ordered(b, db, p, mid, hi)
    ensures Ordered(a + b, da + db, p, lo, hi)
  {
    AppliedConcat(a, b, p);
    IncreasingConcat(AppliedTo(a, p), AppliedTo(b, p), mid);
  }

  /** Nothing of `p` is added. */
  lemma Foreign(mine: iset<nat>, db: Database, t: Transaction, p: nat)
    requires OwnOnly(mine, t) && p !in mine && Ordered(db.effects, db.deadLetters, p, 0, Next(db.checkpoints, p))
    ensures Ordered(db.effects + t.effects, db.deadLetters + t.deadLetters, p, 0, Next(db.checkpoints, p))
  {
    AppliedConcat(db.effects, t.effects, p);
    if AppliedTo(t.effects, p) != [] {
      AppliedMember(t.effects, p, AppliedTo(t.effects, p)[0]);
    }
  }

  lemma Extend(effects: seq<EventRef>, dead: map<EventRef, nat>, e: EventRef, p: nat, lo: nat, hi: nat)
    requires Ordered(effects, dead, p, lo, hi) && (e.partition == p ==> lo <= hi <= e.sequence)
    ensures Ordered(effects + [e], dead, p, lo, if e.partition == p then e.sequence + 1 else hi)
  {
    assert (effects + [e])[..|effects|] == effects;
    if e.partition == p {
      IncreasingConcat(AppliedTo(effects, p), [e.sequence], hi);
    }
  }

  lemma Bury(effects: seq<EventRef>, dead: map<EventRef, nat>, e: EventRef, p: nat, lo: nat, hi: nat)
    requires Ordered(effects, dead, p, lo, hi) && (e.partition == p ==> lo <= hi <= e.sequence)
    ensures Ordered(effects, dead[e := 1], p, lo, if e.partition == p then e.sequence + 1 else hi)
  {}

  // ---- Flush ----

  lemma CommitTidy(mine: iset<nat>, db: Database, w: WorkerState, io: FlushIo)
    requires w.tx.Some? && Tidy(db) && TidyWorker(mine, db, w) && Marks(mine, db, w) && RowsHandled(mine, w)
    requires IsOrder(io.order, w.handled.Keys) && WriteFrom(db, w.tx.value, w, io, 0).ok
    ensures Tidy(Commit(db, WriteFrom(db, w.tx.value, w, io, 0).tx))
  {
    var t, r := w.tx.value, WriteFrom(db, w.tx.value, w, io, 0).tx;
    var db' := Commit(db, r);
    CommitCatchesUp(mine, db, w, io);
    WriteFromContent(db, t, w, io, 0);
    if !r.broken {
      forall p: nat ensures Ordered(db'.effects, db'.deadLetters, p, 0, Next(db'.checkpoints, p)) {
        if p in mine {
          Join(db.effects, db.deadLetters, t.effects, t.deadLetters, p, 0, Next(db.checkpoints, p), Next(w.handled, p));
        } else {
          Foreign(mine, db, t, p);
        }
      }
    }
  }

  lemma FlushOnceTidy(mine: iset<nat>, db: Database, w: WorkerState, io: FlushIo)
    requires Tidy(db) && TidyWorker(mine, db, w) && Marks(mine, db, w) && RowsHandled(mine, w)
    requires IsOrder(io.order, w.handled.Keys)
    ensures var o := FlushOnce(db, w, io); Tidy(o.db) && TidyWorker(mine, o.db, o.worker)
  {
    if w.tx.Some? {
      WriteFromContent(db, w.tx.value, w, io, 0);
      if WriteFrom(db, w.tx.value, w, io, 0).ok {
        CommitTidy(mine, db, w, io);
      }
    }
  }

  lemma {:induction false} FlushAllTidy(mine: iset<nat>, db: Database, w: WorkerState, ios: seq<FlushIo>)
    requires Tidy(db) && TidyWorker(mine, db, w) && Marks(mine, db, w) && RowsHandled(mine, w) && ios != []
    requires forall i :: 0 <= i < |ios| ==> IsOrder(ios[i].order, w.handled.Keys)
    ensures var o := FlushAll(db, w, ios); Tidy(o.db) && TidyWorker(mine, o.db, o.worker)
    decreases |ios|
  {
    var o := FlushOnce(db, w, ios[0]);
    FlushOnceTidy(mine, db, w, ios[0]);
    FlushOnceMarks(mine, db, w, ios[0]);
    if !o.ok && |ios| > 1 {
      FlushAllTidy(mine, o.db, o.worker, ios[1..]);
    }
  }

  // ---- One call ----

  lemma FreshBetween(mine: iset<nat>, db: Database, handled: map<nat, nat>)
    ensures Between(mine, db, FRESH, handled)
  {}

  /** A new event on top of the batch. */
  lemma ExtendBetween(mine: iset<nat>, db: Database, w: WorkerState, base: Transaction, t: Transaction, e: EventRef)
    requires Marks(mine, db, w) && Between(mine, db, base, w.handled) && e.partition in mine
    requires Next(w.handled, e.partition) == e.sequence
    requires t.effects == base.effects + [e] && t.deadLetters == base.deadLetters
    ensures Between(mine, db, t, w.handled[e.partition := e.sequence])
  {
    forall p: nat | p in mine
      ensures Ordered(t.effects, t.deadLetters, p, Next(db.checkpoints, p),
                      Next(w.handled[e.partition := e.sequence], p))
    {
      Extend(base.effects, base.deadLetters, e, p, Next(db.checkpoints, p), Next(w.handled, p));
    }
  }

  /** A dead letter on top of the batch. */
  lemma BuryBetween(mine: iset<nat>, db: Database, w: WorkerState, e: EventRef)
    requires Tidy(db) && Marks(mine, db, w) && TidyWorker(mine, db, w) && e.partition in mine
    requires Next(w.handled, e.partition) == e.sequence && w.tx.Some? && w.tx.value.deadLetters == map[]
    ensures TidyWorker(mine, db, Buried(db, w, e))
  {
    var t, w1 := w.tx.value, Buried(db, w, e);
    assert Ordered(db.effects, db.deadLetters, e.partition, 0, Next(db.checkpoints, e.partition));
    assert e !in db.deadLetters + t.deadLetters;
    forall p: nat | p in mine
      ensures Ordered(t.effects, t.deadLetters[e := 1], p, Next(db.checkpoints, p), Next(w1.handled, p))
    {
      Bury(t.effects, t.deadLetters, e, p, Next(db.checkpoints, p), Next(w.handled, p));
    }
  }

  /** A dead letter published on its own, past whatever was dropped. */
  lemma StandaloneTidy(mine: iset<nat>, db: Database, w: WorkerState, e: EventRef, io: DeadLetterIo,
      flush: seq<FlushIo>)
    requires Tidy(db) && Marks(mine, db, w) && e.partition in mine && Next(w.handled, e.partition) == e.sequence
    requires w.tx.None? && flush != []
    ensures Tidy(DeadLetter(db, w, e, io, flush).db)
  {
    var db' := DeadLetter(db, w, e, io, flush).db;
    assert Ordered(db.effects, db.deadLetters, e.partition, 0, Next(db.checkpoints, e.partition));
    if db' != db {
      forall p: nat ensures Ordered(db'.effects, db'.deadLetters, p, 0, Next(db'.checkpoints, p)) {
        Bury(db.effects, db.deadLetters, e, p, 0, Next(db.checkpoints, p));
      }
    }
  }

  lemma DeadLetterTidy(mine: iset<nat>, db: Database, w: WorkerState, e: EventRef, io: DeadLetterIo,
      flush: seq<FlushIo>)
    requires Tidy(db) && Marks(mine, db, w) && TidyWorker(mine, db, w) && e.partition in mine
    requires Next(w.handled, e.partition) == e.sequence && OrdersOf(flush, w.handled.Keys + {e.partition})
    requires w.tx.Some? ==> w.tx.value.checkpoints == map[] && w.tx.value.deadLetters == map[]
    ensures var o := DeadLetter(db, w, e, io, flush); Tidy(o.db) && (o.ok ==> o.worker.tx.None?)
  {
    if w.tx.Some? {
      BuryBetween(mine, db, w, e);
      BuriedMarks(mine, db, w, e);
      FlushAllTidy(mine, db, Buried(db, w, e), flush);
      FlushAllMarks(mine, db, Buried(db, w, e), flush);
    } else {
      StandaloneTidy(mine, db, w, e, io, flush);
    }
  }

  /** What follows the attempts; `base` is the batch without the event itself. */
  lemma ConcludeTidy(cfg: Config, mine: iset<nat>, db: Database, w: WorkerState, e: EventRef, verdict: Verdict,
      io: HandleIo, base: Transaction)
    requires Tidy(db) && Marks(mine, db, w) && e.partition in mine && Next(w.handled, e.partition) == e.sequence
    requires OrdersOf(io.deadFlush, w.handled.Keys + {e.partition})
    requires OrdersOf(io.flush, w.handled.Keys + {e.partition})
    requires Between(mine, db, base, w.handled) && base.deadLetters == map[]
    requires w.tx.Some? ==>
               && w.tx.value.effects == base.effects + (if verdict.Succeeded? then [e] else [])
               && w.tx.value.checkpoints == map[] && w.tx.value.deadLetters == map[]
    ensures var o := Conclude(cfg, db, w, e, verdict, io); Tidy(o.db) && (o.ok ==> TidyWorker(mine, o.db, o.worker))
  {
    if verdict.Succeeded? {
      var w1 := Recorded(w, e);
      if w.tx.Some? {
        ExtendBetween(mine, db, w, base, w.tx.value, e);
      }
      RecordMarks(mine, db, w, e);
      assert w1.handled.Keys == w.handled.Keys + {e.partition};
      FlushAllTidy(mine, db, w1, io.flush);
    } else if verdict.FailedPermanent? {
      assert base.effects + [] == base.effects;
      DeadLetterTidy(mine, db, w, e, io.dead, io.deadFlush);
      var o := DeadLetter(db, w, e, io.dead, io.deadFlush);
      if o.ok {
        SettleIdle(cfg, o.db, o.worker, e, io.flush);
      }
    }
  }

  lemma HandleTidy(cfg: Config, mine: iset<nat>, db: Database, w: WorkerState, e: EventRef, io: HandleIo)
    requires Tidy(db) && TidyWorker(mine, db, w) && Marks(mine, db, w) && Steady(w)
    requires e.partition in mine && e.sequence <= Next(w.handled, e.partition) && io.attempts != []
    requires OrdersOf(io.deadFlush, w.handled.Keys + {e.partition})
    requires OrdersOf(io.flush, w.handled.Keys + {e.partition})
    ensures var o := HandleEvent(cfg, db, w, e, io); Tidy(o.db) && (o.ok ==> TidyWorker(mine, o.db, o.worker))
  {
    if !Skips(w, e, io) {
      AttemptAllKeeps(w.tx, e, io.attempts);
      FreshBetween(mine, db, w.handled);
      var base := if w.tx.Some? && !DropsBatch(w.tx, e, io.attempts) then w.tx.value else FRESH;
      ConcludeTidy(cfg, mine, db, Tried(w, e, io), e, AttemptAll(w.tx, e, io.attempts).verdict, io, base);
    }
  }

  // ---- Whole runs ----

  ghost predicate TidySystem(cfg: Config, s: System)
    requires cfg.workerCount > 0
  {
    && Tidy(s.db)
    && forall id: nat :: id < cfg.workerCount ==> TidyWorker(Mine(cfg, id), s.db, Effective(s, id))
  }

  lemma TidyFrame(mine: iset<nat>, other: iset<nat>, db: Database, db': Database, w: WorkerState)
    requires Advances(mine, db, db') && TidyWorker(other, db, w) && forall p :: p in other ==> p !in mine
    ensures TidyWorker(other, db', w)
  {}

  lemma SettledTidy(cfg: Config, s: System, id: nat, o: Outcome, cursor: map<nat, nat>)
    requires cfg.workerCount > 0 && TidySystem(cfg, s) && id < cfg.workerCount && Tidy(o.db)
    requires Advances(Mine(cfg, id), s.db, o.db) && (o.ok ==> TidyWorker(Mine(cfg, id), o.db, o.worker))
    ensures TidySystem(cfg, Settled(cfg, s, id, o, cursor))
  {
    var s' := Settled(cfg, s, id, o, cursor);
    if o.ok {
      forall other: nat | other < cfg.workerCount
        ensures TidyWorker(Mine(cfg, other), s'.db, Effective(s', other))
      {
        if other != id {
          assert Effective(s', other) == Effective(s, other);
          TidyFrame(Mine(cfg, id), Mine(cfg, other), s.db, o.db, Effective(s, other));
        }
      }
    }
  }

  lemma StepTidy(cfg: Config, s: System, step: Step)
    requires cfg.workerCount > 0 && Tracked(cfg, s) && Routed(cfg, s) && TidySystem(cfg, s) && Enabled(cfg, s, step)
    ensures TidySystem(cfg, Take(cfg, s, step))
  {
    match step
    case Deliver(e, io) =>
      var id := e.partition % cfg.workerCount;
      var w := Effective(s, id);
      assert TrackedWorker(cfg, s.db, s.cursor, id, w);
      HandleTidy(cfg, Mine(cfg, id), s.db, w, e, io);
      HandleEventMarks(cfg, Mine(cfg, id), s.db, w, e, io);
      SettledTidy(cfg, s, id, HandleEvent(cfg, s.db, w, e, io),
                  Delivered(s.cursor, e));
    case TimerFlush(id, ios) =>
      var w := Effective(s, id);
      assert TrackedWorker(cfg, s.db, s.cursor, id, w);
      FlushAllTidy(Mine(cfg, id), s.db, w, ios);
      FlushAllMarks(Mine(cfg, id), s.db, w, ios);
      SettledTidy(cfg, s, id, FlushAll(s.db, w, ios), s.cursor);
    case Crash =>
  }

  lemma ProjectedTidy(db: Database)
    requires Projected(db)
    ensures Tidy(db)
  {
    forall p: nat ensures Ordered(db.effects, db.deadLetters, p, 0, Next(db.checkpoints, p)) {
      var n := Next(db.checkpoints, p);
      assert Exact(db.effects, db.deadLetters, p, n);
      SurvivorsIncrease(db.deadLetters, p, n);
      forall k | k in AppliedTo(db.effects, p) ensures k < n && EventRef(p, k) !in db.deadLetters {
        SurvivorsMember(db.deadLetters, p, n, k);
      }
    }
  }

  lemma {:induction false} RunTidy(cfg: Config, states: seq<System>, steps: seq<Step>, i: nat)
    requires cfg.workerCount > 0 && Run(cfg, states, steps) && i < |states|
    ensures TidySystem(cfg, states[i])
  {
    if i == 0 {
      ProjectedTidy(states[0].db);
    } else {
      RunTidy(cfg, states, steps, i - 1);
      RunTracked(cfg, states, steps, i - 1);
      StepTidy(cfg, states[i - 1], steps[i - 1]);
    }
  }

  /** In every state of every run, whatever was lost: the effects of each partition are strictly
      increasing, no event is applied and dead-lettered both, every dead letter was seen once, and
      nothing is above the committed checkpoint. */
  lemma AtMostOnce(cfg: Config, states: seq<System>, steps: seq<Step>, i: nat, p: nat, k: nat)
    requires cfg.workerCount > 0 && Run(cfg, states, steps) && i < |states|
    ensures var db := states[i].db;
            var applied := AppliedTo(db.effects, p);
            && (forall a, b :: 0 <= a < b < |applied| ==> applied[a] < applied[b])
            && (k in applied <==> EventRef(p, k) in db.effects)
            && (EventRef(p, k) in db.effects || EventRef(p, k) in db.deadLetters ==> k < Next(db.checkpoints, p))
            && !(EventRef(p, k) in db.effects && EventRef(p, k) in db.deadLetters)
            && (EventRef(p, k) in db.deadLetters ==> db.deadLetters[EventRef(p, k)] == 1)
  {
    RunTidy(cfg, states, steps, i);
    var db := states[i].db;
    assert Ordered(db.effects, db.deadLetters, p, 0, Next(db.checkpoints, p));
    AppliedMember(db.effects, p, k);
  }

  ghost predicate SameMembers(a: seq<nat>, b: seq<nat>) {
    forall k: nat :: k in a <==> k in b
  }

  /** Strictly increasing sequences with the same members are equal. */
  lemma {:induction false} SameSequence(a: seq<nat>, b: seq<nat>)
    requires Increasing(a) && Increasing(b) && SameMembers(a, b)
    ensures a == b
    decreases |a|
  {
    if a == [] {
      if b != [] {
        Nonempty(b, a);
      }
    } else {
      Nonempty(a, b);
      var x, y, front, front' := a[|a| - 1], b[|b| - 1], a[..|a| - 1], b[..|b| - 1];
      assert x in b && y in a;
      BelowLast(a, y);
      BelowLast(b, x);
      forall k: nat ensures k in front <==> k in front' {
        FrontMember(a, k);
        FrontMember(b, k);
      }
      SameSequence(front, front');
      assert a == front + [x] && b == front' + [y];
    }
  }

  lemma Nonempty(a: seq<nat>, b: seq<nat>)
    requires a != [] && SameMembers(a, b)
    ensures b != []
  {
    assert a[0] in b;
  }

  lemma BelowLast(a: seq<nat>, k: nat)
    requires Increasing(a) && k in a
    ensures k <= a[|a| - 1]
  {
    var j :| 0 <= j < |a| && a[j] == k;
  }

  lemma FrontMember(a: seq<nat>, k: nat)
    requires a != [] && Increasing(a)
    ensures k in a[..|a| - 1] <==> k in a && k != a[|a| - 1]
  {
    assert a == a[..|a| - 1] + [a[|a| - 1]];
  }

  /** Losing an event is the only way to inexact tables: in every state of every run they are exact
      if and only if no event is lost. */
  lemma OnlyLoss(cfg: Config, states: seq<System>, steps: seq<Step>, i: nat)
    requires cfg.workerCount > 0 && Run(cfg, states, steps) && i < |states|
    ensures Projected(states[i].db) <==> forall x :: !Lost(states[i].db, x)
  {
    var db := states[i].db;
    RunTidy(cfg, states, steps, i);
    if x :| Lost(db, x) {
      LostInexact(db, x);
    } else {
      forall p: nat ensures Exact(db.effects, db.deadLetters, p, Next(db.checkpoints, p)) {
        NothingLostExact(db, p);
      }
    }
  }

  lemma NothingLostExact(db: Database, p: nat)
    requires Tidy(db) && forall x :: !Lost(db, x)
    ensures Exact(db.effects, db.deadLetters, p, Next(db.checkpoints, p))
  {
    var n := Next(db.checkpoints, p);
    assert Ordered(db.effects, db.deadLetters, p, 0, n);
    SurvivorsIncrease(db.deadLetters, p, n);
    forall k: nat ensures k in AppliedTo(db.effects, p) <==> k in Survivors(db.deadLetters, p, n) {
      AppliedMember(db.effects, p, k);
      SurvivorsMember(db.deadLetters, p, n, k);
      assert !Lost(db, EventRef(p, k));
    }
    SameSequence(AppliedTo(db.effects, p), Survivors(db.deadLetters, p, n));
  }
}
