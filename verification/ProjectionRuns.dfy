/** Whole runs of a projection: any number of workers, deliveries, redeliveries, timer flushes,
    failures, crashes and restarts, in any order. */
module ProjectionRuns {
  import opened Wrappers
  import opened ProjectionStore
  import opened ProjectionSteps
  import opened ProjectionMarks
  import opened ProjectionContent
  import opened ProjectionLoss
  import opened ProjectionExposure

  ghost function Mine(cfg: Config, id: nat): iset<nat>
    requires cfg.workerCount > 0
  {
    iset p: nat | p % cfg.workerCount == id
  }

  /** The worker `id`, or the one that its first event would spawn. */
  function Effective(s: System, id: nat): WorkerState {
    if id in s.workers then s.workers[id] else Spawn(s.boot)
  }

  /** What every reachable state satisfies, whatever was lost on the way. */
  ghost predicate Tracked(cfg: Config, s: System)
    requires cfg.workerCount > 0
  {
    forall id: nat :: id < cfg.workerCount ==> TrackedWorker(cfg, s.db, s.cursor, id, Effective(s, id))
  }

  ghost predicate TrackedWorker(cfg: Config, db: Database, cursor: map<nat, nat>, id: nat, w: WorkerState)
    requires cfg.workerCount > 0
  {
    && Marks(Mine(cfg, id), db, w) && Steady(w) && Exposed(cfg, w)
    && Follows(Mine(cfg, id), cursor, w.handled)
  }

  /** The subscription's next event of an owned partition is the first one not handled. */
  ghost predicate Follows(mine: iset<nat>, cursor: map<nat, nat>, handled: map<nat, nat>) {
    forall p: nat :: p in mine ==> Next(cursor, p) == Next(handled, p)
  }

  /** Tables are exact and every worker is sound. */
  ghost predicate SoundSystem(cfg: Config, s: System)
    requires cfg.workerCount > 0
  {
    && Projected(s.db)
    && forall id: nat :: id < cfg.workerCount ==> Sound(Mine(cfg, id), s.db, Effective(s, id))
  }

  predicate StepLoses(cfg: Config, s: System, step: Step)
    requires cfg.workerCount > 0
  {
    match step
    case Deliver(e, io) =>
      && io.attempts != [] && io.deadFlush != [] && io.flush != []
      && Loses(cfg, s.db, WorkerOf(cfg, s, e.partition), e, io)
    case TimerFlush(id, ios) => id in s.workers && ios != [] && ForgetsBatch(s.db, s.workers[id], ios)
    case Crash => false
  }

  // ---- One step ----

  lemma RebootTracked(cfg: Config, db: Database)
    requires cfg.workerCount > 0
    ensures Tracked(cfg, Reboot(db))
    ensures SoundSystem(cfg, Reboot(db)) <==> Projected(db)
  {}

  /** The other workers do not notice a commit on partitions they do not own. */
  lemma OthersTracked(cfg: Config, s: System, id: nat, o: Outcome, cursor: map<nat, nat>)
    requires cfg.workerCount > 0 && Tracked(cfg, s) && id < cfg.workerCount && o.ok
    requires Advances(Mine(cfg, id), s.db, o.db)
    requires forall p: nat :: p % cfg.workerCount != id ==> Next(cursor, p) == Next(s.cursor, p)
    requires TrackedWorker(cfg, o.db, cursor, id, o.worker)
    ensures Tracked(cfg, Settled(cfg, s, id, o, cursor))
  {
    var s' := Settled(cfg, s, id, o, cursor);
    forall other: nat | other < cfg.workerCount
      ensures TrackedWorker(cfg, s'.db, s'.cursor, other, Effective(s', other))
    {
      if other != id {
        assert Effective(s', other) == Effective(s, other);
        MarksFrame(Mine(cfg, id), Mine(cfg, other), s.db, o.db, Effective(s, other));
      }
    }
  }

  lemma MarksFrame(mine: iset<nat>, other: iset<nat>, db: Database, db': Database, w: WorkerState)
    requires Advances(mine, db, db') && Marks(other, db, w)
    requires forall p :: p in other ==> p !in mine
    ensures Marks(other, db', w)
  {}

  lemma OthersSound(cfg: Config, s: System, id: nat, o: Outcome, cursor: map<nat, nat>)
    requires cfg.workerCount > 0 && SoundSystem(cfg, s) && id < cfg.workerCount && o.ok
    requires Advances(Mine(cfg, id), s.db, o.db) && Grows(Mine(cfg, id), s.db, o.db)
    ensures SoundSystem(cfg, Settled(cfg, s, id, o, cursor)) <==>
              Projected(o.db) && Sound(Mine(cfg, id), o.db, o.worker)
  {
    var s' := Settled(cfg, s, id, o, cursor);
    forall other: nat | other < cfg.workerCount && other != id
      ensures Sound(Mine(cfg, other), s'.db, Effective(s', other))
    {
      assert Effective(s', other) == Effective(s, other);
      SoundFrame(Mine(cfg, id), Mine(cfg, other), s.db, o.db, Effective(s, other));
    }
    assert Effective(s', id) == o.worker;
  }

  /** A delivered event is new exactly when it is the subscription's next one. */
  lemma DeliveredFollows(mine: iset<nat>, cursor: map<nat, nat>, w: WorkerState, e: EventRef)
    requires Follows(mine, cursor, w.handled) && e.partition in mine && e.sequence <= Next(cursor, e.partition)
    ensures AlreadyHandled(w, e) <==> e.sequence < Next(cursor, e.partition)
    ensures Follows(mine, Delivered(cursor, e),
                    if AlreadyHandled(w, e) then w.handled else w.handled[e.partition := e.sequence])
  {}

  lemma DeliverTracked(cfg: Config, s: System, e: EventRef, io: HandleIo)
    requires cfg.workerCount > 0 && Tracked(cfg, s) && Enabled(cfg, s, Deliver(e, io))
    ensures Tracked(cfg, Take(cfg, s, Deliver(e, io)))
    ensures var id := e.partition % cfg.workerCount;
            Advances(Mine(cfg, id), s.db, Take(cfg, s, Deliver(e, io)).db)
  {
    var id := e.partition % cfg.workerCount;
    var w := Effective(s, id);
    assert TrackedWorker(cfg, s.db, s.cursor, id, w);
    HandleEventMarks(cfg, Mine(cfg, id), s.db, w, e, io);
    HandleEventExposed(cfg, s.db, w, e, io);
    DeliveredFollows(Mine(cfg, id), s.cursor, w, e);
    var o := HandleEvent(cfg, s.db, w, e, io);
    if o.ok {
      OthersTracked(cfg, s, id, o, Delivered(s.cursor, e));
    } else {
      RebootTracked(cfg, o.db);
    }
  }

  lemma TimerTracked(cfg: Config, s: System, id: nat, ios: seq<FlushIo>)
    requires cfg.workerCount > 0 && Tracked(cfg, s) && Enabled(cfg, s, TimerFlush(id, ios)) && id < cfg.workerCount
    ensures Tracked(cfg, Take(cfg, s, TimerFlush(id, ios)))
    ensures Advances(Mine(cfg, id), s.db, Take(cfg, s, TimerFlush(id, ios)).db)
  {
    var w := Effective(s, id);
    assert TrackedWorker(cfg, s.db, s.cursor, id, w);
    FlushAllMarks(Mine(cfg, id), s.db, w, ios);
    FlushAllExposed(s.db, w, ios);
    var o := FlushAll(s.db, w, ios);
    assert Behind(o.worker) ==> Behind(w);
    if o.ok {
      OthersTracked(cfg, s, id, o, s.cursor);
    } else {
      RebootTracked(cfg, o.db);
    }
  }

  /** Routing only ever creates workers below the worker count. */
  ghost predicate Routed(cfg: Config, s: System) {
    forall id :: id in s.workers ==> id < cfg.workerCount
  }

  /** Every step, whatever fails: watermarks stay ordered, exposure stays bounded, the restart
      point stays the first unhandled event, and no committed checkpoint moves back. */
  lemma StepTracked(cfg: Config, s: System, step: Step)
    requires cfg.workerCount > 0 && Tracked(cfg, s) && Routed(cfg, s) && Enabled(cfg, s, step)
    ensures var s' := Take(cfg, s, step);
            && Tracked(cfg, s') && Routed(cfg, s')
            && forall p: nat :: Next(s.db.checkpoints, p) <= Next(s'.db.checkpoints, p)
  {
    match step
    case Deliver(e, io) => DeliverTracked(cfg, s, e, io);
    case TimerFlush(id, ios) => TimerTracked(cfg, s, id, ios);
    case Crash => RebootTracked(cfg, s.db);
  }

  lemma DeliverSoundIff(cfg: Config, s: System, e: EventRef, io: HandleIo)
    requires cfg.workerCount > 0 && Tracked(cfg, s) && SoundSystem(cfg, s) && Enabled(cfg, s, Deliver(e, io))
    ensures SoundSystem(cfg, Take(cfg, s, Deliver(e, io))) <==> !StepLoses(cfg, s, Deliver(e, io))
  {
    var id := e.partition % cfg.workerCount;
    var w := Effective(s, id);
    assert TrackedWorker(cfg, s.db, s.cursor, id, w);
    HandleEventMarks(cfg, Mine(cfg, id), s.db, w, e, io);
    HandleEventGrows(cfg, Mine(cfg, id), s.db, w, e, io);
    HandleEventSoundIff(cfg, Mine(cfg, id), s.db, w, e, io);
    var o := HandleEvent(cfg, s.db, w, e, io);
    if o.ok {
      OthersSound(cfg, s, id, o, Delivered(s.cursor, e));
    } else {
      RebootTracked(cfg, o.db);
    }
  }

  lemma TimerSoundIff(cfg: Config, s: System, id: nat, ios: seq<FlushIo>)
    requires cfg.workerCount > 0 && Tracked(cfg, s) && SoundSystem(cfg, s)
    requires Enabled(cfg, s, TimerFlush(id, ios)) && id < cfg.workerCount
    ensures SoundSystem(cfg, Take(cfg, s, TimerFlush(id, ios))) <==> !StepLoses(cfg, s, TimerFlush(id, ios))
  {
    var mine, w := Mine(cfg, id), Effective(s, id);
    assert TrackedWorker(cfg, s.db, s.cursor, id, w);
    FlushAllMarks(mine, s.db, w, ios);
    FlushAllGrows(mine, s.db, w, ios);
    FlushAllSound(mine, s.db, w, ios);
    var o := FlushAll(s.db, w, ios);
    if ForgetsBatch(s.db, w, ios) {
      FlushAllForgets(s.db, w, ios);
      var x := PendingEvent(mine, s.db, w);
      AbsentUnsound(mine, o.db, o.worker, x);
    }
    if o.ok {
      OthersSound(cfg, s, id, o, s.cursor);
    } else {
      RebootTracked(cfg, o.db);
    }
  }

  /** One step keeps the tables exact and every worker's cache in line with them if and only if it
      does not lose. */
  lemma StepSoundIff(cfg: Config, s: System, step: Step)
    requires cfg.workerCount > 0 && Tracked(cfg, s) && Routed(cfg, s) && SoundSystem(cfg, s) && Enabled(cfg, s, step)
    ensures SoundSystem(cfg, Take(cfg, s, step)) <==> !StepLoses(cfg, s, step)
  {
    match step
    case Deliver(e, io) => DeliverSoundIff(cfg, s, e, io);
    case TimerFlush(id, ios) => TimerSoundIff(cfg, s, id, ios);
    case Crash => RebootTracked(cfg, s.db);
  }

  // ---- Whole runs ----

  /** A run of `steps` through `states`, started on exact tables. */
  ghost predicate Run(cfg: Config, states: seq<System>, steps: seq<Step>)
    requires cfg.workerCount > 0
  {
    && |states| == |steps| + 1
    && states[0] == Reboot(states[0].db) && Projected(states[0].db)
    && forall i :: 0 <= i < |steps| ==>
        Enabled(cfg, states[i], steps[i]) && states[i + 1] == Take(cfg, states[i], steps[i])
  }

  lemma {:induction false} RunTracked(cfg: Config, states: seq<System>, steps: seq<Step>, i: nat)
    requires cfg.workerCount > 0 && Run(cfg, states, steps) && i < |states|
    ensures Tracked(cfg, states[i]) && Routed(cfg, states[i])
  {
    if i == 0 {
      RebootTracked(cfg, states[0].db);
    } else {
      RunTracked(cfg, states, steps, i - 1);
      StepTracked(cfg, states[i - 1], steps[i - 1]);
    }
  }

  /** Committed checkpoints never decrease, in any run. */
  lemma {:induction false} CheckpointsMonotone(cfg: Config, states: seq<System>, steps: seq<Step>, i: nat, j: nat,
      p: nat)
    requires cfg.workerCount > 0 && Run(cfg, states, steps) && i <= j < |states|
    ensures Next(states[i].db.checkpoints, p) <= Next(states[j].db.checkpoints, p)
    decreases j
  {
    if i < j {
      assert states[j] == Take(cfg, states[j - 1], steps[j - 1]);
      CheckpointsMonotone(cfg, states, steps, i, j - 1, p);
      RunTracked(cfg, states, steps, j - 1);
      StepTracked(cfg, states[j - 1], steps[j - 1]);
    }
  }

  /** At any time every worker holds fewer uncommitted events than its flush interval. */
  lemma BoundedExposure(cfg: Config, states: seq<System>, steps: seq<Step>, i: nat, id: nat)
    requires cfg.workerCount > 0 && Run(cfg, states, steps) && i < |states| && id in states[i].workers
    ensures var w := states[i].workers[id];
            && (w.tx.Some? ==> |w.tx.value.effects| < if w.live then cfg.liveInterval else cfg.replayInterval)
            && (w.live ==> forall p :: p in w.latest && w.latest[p].Some? ==>
                p in w.handled && w.latest[p].value <= w.handled[p])
  {
    RunTracked(cfg, states, steps, i);
    assert TrackedWorker(cfg, states[i].db, states[i].cursor, id, Effective(states[i], id));
    var w := states[i].workers[id];
    assert w.live ==> !Behind(w);
  }
}
