/** What one call of a projection worker computes, as a function of its state and of the
    outcomes of the I/O it performs. `ProjectionWorker` proves the imperative code against
    these functions; `ProjectionRuns` proves what they keep over whole runs. */
module ProjectionSteps {
  import opened Wrappers
  import opened ProjectionStore

  /** One attempt plus five retries for an event; one plus three (the default) for a flush. */
  const HANDLE_ATTEMPTS: nat := 6
  const FLUSH_ATTEMPTS: nat := 4

  /** Largest partition id the SMALLINT checkpoint column can hold. */
  const MAX_SMALLINT: nat := 32767

  datatype Config = Config(workerCount: nat, liveInterval: nat, replayInterval: nat)

  datatype WorkerState = WorkerState(
    tx: Option<Transaction>,
    sinceFlush: nat,
    flushed: map<nat, nat>,
    handled: map<nat, nat>,
    latest: map<nat, Option<nat>>,
    live: bool)

  /** Result of a call; `ok` is false when the error propagates and ends the epoch. */
  datatype Outcome = Outcome(db: Database, worker: WorkerState, ok: bool)

  // Outcomes of I/O, consulted only on the paths that reach them.

  datatype HandlerResult = Applied | TransientError | PermanentError

  datatype AttemptIo = AttemptIo(
    beginOk: bool, savepointOk: bool, handler: HandlerResult, rollbackOk: bool, releaseOk: bool)

  /** A rejected COMMIT leaves no trace; a lost acknowledgement is a COMMIT that took effect
      although the client sees an error. */
  datatype CommitResult = Acknowledged | AckLost | Rejected

  /** `order` is the iteration order of the handled map; `failAt` the position whose handler
      flush or statement fails, `breaks` whether a failure leaves the transaction unusable. */
  datatype FlushIo = FlushIo(
    order: seq<nat>, failAt: Option<nat>, finalFlushOk: bool, breaks: bool,
    commit: CommitResult, afterCommitOk: bool)

  datatype DeadLetterIo = DeadLetterIo(beginOk: bool, insertOk: bool, checkpointOk: bool, commit: CommitResult)

  datatype HandleIo = HandleIo(
    sampled: Option<Option<nat>>, attempts: seq<AttemptIo>, dead: DeadLetterIo,
    deadFlush: seq<FlushIo>, flush: seq<FlushIo>)

  // ---- One event inside its savepoint (free function `handle_event`) ----

  datatype Verdict = Succeeded | FailedTransient | FailedPermanent

  datatype Attempted = Attempted(tx: Option<Transaction>, verdict: Verdict)

  function AttemptOnce(tx: Option<Transaction>, e: EventRef, io: AttemptIo): Attempted {
    if tx.None? && !io.beginOk then Attempted(None, FailedTransient)
    else
      var t := if tx.Some? then tx.value else FRESH;
      if t.broken || !io.savepointOk then Attempted(None, FailedTransient)
      else match io.handler
        case Applied => Attempted(Some(t.(effects := t.effects + [e], broken := !io.releaseOk)), Succeeded)
        case TransientError => Attempted(if io.rollbackOk then Some(t) else None, FailedTransient)
        case PermanentError => Attempted(if io.rollbackOk then Some(t) else None, FailedPermanent)
  }

  /** Retried until it succeeds or the attempts are used up; every error is retried. */
  function AttemptAll(tx: Option<Transaction>, e: EventRef, ios: seq<AttemptIo>): Attempted
    requires ios != []
    decreases |ios|
  {
    var a := AttemptOnce(tx, e, ios[0]);
    if a.verdict.Succeeded? || |ios| == 1 then a else AttemptAll(a.tx, e, ios[1..])
  }

  /** Some attempt that runs discards the transaction it was given: SAVEPOINT or
      ROLLBACK TO failed. */
  predicate DropsBatch(tx: Option<Transaction>, e: EventRef, ios: seq<AttemptIo>)
    requires ios != []
    decreases |ios|
  {
    var a := AttemptOnce(tx, e, ios[0]);
    || (tx.Some? && a.tx.None?)
    || (!a.verdict.Succeeded? && |ios| > 1 && DropsBatch(a.tx, e, ios[1..]))
  }

  // ---- Flush (`flush_checkpoint`, `flush_retry`) ----

  predicate NeedsWrite(w: WorkerState, p: nat) {
    p in w.handled && (p !in w.flushed || w.flushed[p] != w.handled[p])
  }

  datatype Written = Written(tx: Transaction, ok: bool)

  /** The checkpoint write of one partition: INSERT when the worker has never flushed it
      (a unique violation is an error), UPDATE otherwise (zero rows is an error). */
  function WriteOne(db: Database, t: Transaction, w: WorkerState, p: nat, fails: bool, breaks: bool): Written
    requires p in w.handled
  {
    if fails then Written(t.(broken := t.broken || breaks), false)
    else if p > MAX_SMALLINT || t.broken then Written(t, false)
    else
      var present := p in db.checkpoints || p in t.checkpoints;
      if p !in w.flushed && present then Written(t.(broken := true), false)
      else if p in w.flushed && !present then Written(t, false)
      else Written(t.(checkpoints := t.checkpoints[p := w.handled[p]]), true)
  }

  /** The loop over the handled map, from position `i` of the iteration order. */
  function WriteFrom(db: Database, t: Transaction, w: WorkerState, io: FlushIo, i: nat): Written
    requires i <= |io.order|
    decreases |io.order| - i
  {
    if i == |io.order| then Written(t, true)
    else
      var p := io.order[i];
      if !NeedsWrite(w, p) then WriteFrom(db, t, w, io, i + 1)
      else
        var one := WriteOne(db, t, w, p, io.failAt == Some(i), io.breaks);
        if one.ok then WriteFrom(db, one.tx, w, io, i + 1) else one
  }

  function FlushOnce(db: Database, w: WorkerState, io: FlushIo): Outcome {
    if w.tx.None? then Outcome(db, w, true)
    else
      var wr := WriteFrom(db, w.tx.value, w, io, 0);
      if !wr.ok then Outcome(db, w.(tx := Some(wr.tx)), false)
      else if !io.finalFlushOk then
        Outcome(db, w.(tx := Some(wr.tx.(broken := wr.tx.broken || io.breaks))), false)
      else match io.commit
        case Rejected => Outcome(db, w.(tx := None), false)
        case AckLost => Outcome(Commit(db, wr.tx), w.(tx := None), false)
        case Acknowledged =>
          if io.afterCommitOk
          then Outcome(Commit(db, wr.tx), w.(tx := None, flushed := w.handled, sinceFlush := 0), true)
          else Outcome(Commit(db, wr.tx), w.(tx := None), false)
  }

  function FlushAll(db: Database, w: WorkerState, ios: seq<FlushIo>): Outcome
    requires ios != []
    decreases |ios|
  {
    var o := FlushOnce(db, w, ios[0]);
    if o.ok || |ios| == 1 then o else FlushAll(o.db, o.worker, ios[1..])
  }

  /** The transaction that a flush attempt leaves open when it does not get as far as COMMIT. */
  function LeftOpen(db: Database, w: WorkerState, io: FlushIo): Transaction
    requires w.tx.Some?
  {
    var wr := WriteFrom(db, w.tx.value, w, io, 0);
    if wr.ok then wr.tx.(broken := wr.tx.broken || io.breaks) else wr.tx
  }

  /** The attempt that gets as far as COMMIT, if any: the first whose checkpoint writes and final
      handler flush succeed. */
  function CommitAttempt(db: Database, w: WorkerState, ios: seq<FlushIo>): (k: Option<nat>)
    requires ios != []
    ensures k.Some? ==> k.value < |ios|
    decreases |ios|
  {
    if w.tx.None? then None
    else if WriteFrom(db, w.tx.value, w, ios[0], 0).ok && ios[0].finalFlushOk then Some(0)
    else if |ios| == 1 then None
    else
      var k := CommitAttempt(db, w.(tx := Some(LeftOpen(db, w, ios[0]))), ios[1..]);
      if k.Some? then Some(k.value + 1) else None
  }

  /** The COMMIT takes effect, whether or not its answer arrives. */
  predicate FlushCommits(db: Database, w: WorkerState, ios: seq<FlushIo>)
    requires ios != []
  {
    var k := CommitAttempt(db, w, ios);
    k.Some? && !ios[k.value].commit.Rejected?
  }

  /** COMMIT is rejected and a retry follows: the retry finds no transaction and reports success. */
  predicate ForgetsBatch(db: Database, w: WorkerState, ios: seq<FlushIo>)
    requires ios != []
  {
    var k := CommitAttempt(db, w, ios);
    k.Some? && ios[k.value].commit.Rejected? && k.value + 1 < |ios|
  }

  // ---- Dead letter (`dead_letter_event`) ----

  /** The dead-letter row joins the retained transaction and the event counts as handled. */
  function Buried(db: Database, w: WorkerState, e: EventRef): WorkerState
    requires w.tx.Some?
  {
    var t := w.tx.value;
    var row := Attempts(db.deadLetters + t.deadLetters, e);
    w.(tx := Some(t.(deadLetters := t.deadLetters[e := row])), handled := w.handled[e.partition := e.sequence])
  }

  function DeadLetter(db: Database, w: WorkerState, e: EventRef, io: DeadLetterIo, flush: seq<FlushIo>): Outcome
    requires flush != []
  {
    var p, s := e.partition, e.sequence;
    if p > MAX_SMALLINT then Outcome(db, w, false)
    else if w.tx.Some? then
      if w.tx.value.broken || !io.insertOk then Outcome(db, w, false)
      else FlushAll(db, Buried(db, w, e), flush)
    else if !io.beginOk || !io.insertOk || !io.checkpointOk || io.commit.Rejected? then Outcome(db, w, false)
    else
      var top := if p in db.checkpoints && db.checkpoints[p] > s then db.checkpoints[p] else s;
      var db' := Database(db.effects, db.checkpoints[p := top], db.deadLetters[e := Attempts(db.deadLetters, e)]);
      if io.commit.AckLost? then Outcome(db', w, false)
      else Outcome(db', w.(handled := w.handled[p := s], flushed := w.flushed[p := s], sinceFlush := 0), true)
  }

  // ---- A delivered event (`Worker::handle_event`) ----

  /** Some partition met so far is still behind the latest sequence sampled for it. */
  predicate Behind(w: WorkerState) {
    exists p :: p in w.latest && w.latest[p].Some? && (p !in w.handled || w.latest[p].value > w.handled[p])
  }

  function ActiveInterval(cfg: Config, w: WorkerState): nat {
    if w.live then cfg.liveInterval else cfg.replayInterval
  }

  /** The worker after recording `e` as handled, before the flush decision. */
  function Recorded(w: WorkerState, e: EventRef): WorkerState {
    var w1 := w.(handled := w.handled[e.partition := e.sequence], sinceFlush := w.sinceFlush + 1);
    w1.(live := w1.live || !Behind(w1))
  }

  function Settle(cfg: Config, db: Database, w: WorkerState, e: EventRef, flush: seq<FlushIo>): Outcome
    requires flush != []
  {
    var w1 := Recorded(w, e);
    if w1.sinceFlush >= ActiveInterval(cfg, w1) then FlushAll(db, w1, flush) else Outcome(db, w1, true)
  }

  predicate AlreadyHandled(w: WorkerState, e: EventRef) {
    e.partition in w.handled && w.handled[e.partition] >= e.sequence
  }

  /** Meeting a partition for the first time samples its latest sequence and ends live mode. */
  function Met(w: WorkerState, p: nat, sampled: Option<nat>): WorkerState {
    if p in w.latest then w else w.(live := false, latest := w.latest[p := sampled])
  }

  /** What follows the attempts: a transient error propagates, a permanent one is dead-lettered. */
  function Conclude(cfg: Config, db: Database, w: WorkerState, e: EventRef, verdict: Verdict, io: HandleIo): Outcome
    requires io.deadFlush != [] && io.flush != []
  {
    match verdict
    case FailedTransient => Outcome(db, w, false)
    case Succeeded => Settle(cfg, db, w, e, io.flush)
    case FailedPermanent =>
      var o := DeadLetter(db, w, e, io.dead, io.deadFlush);
      if o.ok then Settle(cfg, o.db, o.worker, e, io.flush) else o
  }

  /** Skipped events change nothing; sampling the partition may fail. */
  predicate Skips(w: WorkerState, e: EventRef, io: HandleIo) {
    AlreadyHandled(w, e) || (e.partition !in w.latest && io.sampled.None?)
  }

  /** The worker once the partition is met and the attempts have run. */
  function Tried(w: WorkerState, e: EventRef, io: HandleIo): WorkerState
    requires io.attempts != []
  {
    Met(w, e.partition, if io.sampled.Some? then io.sampled.value else None).(tx := AttemptAll(w.tx, e, io.attempts).tx)
  }

  function HandleEvent(cfg: Config, db: Database, w: WorkerState, e: EventRef, io: HandleIo): Outcome
    requires io.attempts != [] && io.deadFlush != [] && io.flush != []
  {
    if AlreadyHandled(w, e) then Outcome(db, w, true)
    else if Skips(w, e, io) then Outcome(db, w.(live := false), false)
    else Conclude(cfg, db, Tried(w, e, io), e, AttemptAll(w.tx, e, io.attempts).verdict, io)
  }

  /** The worker state and script of the flush that `Conclude` performs on an open transaction,
      if any: the flush protocol of a dead letter, or a flush that the event count makes due. */
  function FlushPoint(cfg: Config, db: Database, w: WorkerState, e: EventRef, verdict: Verdict,
      io: HandleIo): Option<(WorkerState, seq<FlushIo>)> {
    match verdict
    case FailedTransient => None
    case Succeeded =>
      var w1 := Recorded(w, e);
      if w1.sinceFlush >= ActiveInterval(cfg, w1) then Some((w1, io.flush)) else None
    case FailedPermanent =>
      if e.partition <= MAX_SMALLINT && w.tx.Some? && !w.tx.value.broken && io.dead.insertOk
      then Some((Buried(db, w, e), io.deadFlush))
      else None
  }

  // ---- The processor: spawning, routing, crash and restart ----

  /** A worker starts from a copy of the processor's checkpoint map, for every partition. */
  function Spawn(boot: map<nat, nat>): WorkerState {
    WorkerState(None, 0, boot, boot, map[], false)
  }

  /** `boot` is the checkpoint map read at start, `cursor` the last sequence delivered per
      partition by the subscription, which starts right after `boot`. */
  datatype System = System(db: Database, boot: map<nat, nat>, workers: map<nat, WorkerState>, cursor: map<nat, nat>)

  /** A new epoch: open transactions are lost, checkpoints are read back. */
  function Reboot(db: Database): System {
    System(db, db.checkpoints, map[], db.checkpoints)
  }

  /** `GetStartFrom`: the subscription point of every partition with a checkpoint. */
  function StartFrom(boot: map<nat, nat>): map<nat, nat> {
    map p | p in boot :: boot[p] + 1
  }

  datatype Step =
    | Deliver(e: EventRef, io: HandleIo)
    | TimerFlush(id: nat, ios: seq<FlushIo>)
    | Crash

  function WorkerOf(cfg: Config, s: System, p: nat): WorkerState
    requires cfg.workerCount > 0
  {
    var id := p % cfg.workerCount;
    if id in s.workers then s.workers[id] else Spawn(s.boot)
  }

  /** Iteration visits every key of the map exactly once. */
  ghost predicate IsOrder(order: seq<nat>, keys: set<nat>) {
    && (forall i, j :: 0 <= i < j < |order| ==> order[i] != order[j])
    && (forall k :: k in keys <==> k in order)
  }

  ghost predicate OrdersOf(ios: seq<FlushIo>, keys: set<nat>) {
    |ios| == FLUSH_ATTEMPTS && forall i :: 0 <= i < |ios| ==> IsOrder(ios[i].order, keys)
  }

  /** What the environment may do: the subscription delivers each partition in order without
      gaps (and may redeliver), timers fire on live workers, and maps are iterated in full. */
  ghost predicate Enabled(cfg: Config, s: System, step: Step)
    requires cfg.workerCount > 0
  {
    match step
    case Deliver(e, io) =>
      var keys := WorkerOf(cfg, s, e.partition).handled.Keys + {e.partition};
      && e.sequence <= Next(s.cursor, e.partition)
      && |io.attempts| == HANDLE_ATTEMPTS
      && OrdersOf(io.deadFlush, keys) && OrdersOf(io.flush, keys)
    case TimerFlush(id, ios) => id in s.workers && OrdersOf(ios, s.workers[id].handled.Keys)
    case Crash => true
  }

  /** The subscription's position after delivering `e`; a redelivery does not move it. */
  function Delivered(cursor: map<nat, nat>, e: EventRef): map<nat, nat> {
    if e.sequence == Next(cursor, e.partition) then cursor[e.partition := e.sequence] else cursor
  }

  function Settled(cfg: Config, s: System, id: nat, o: Outcome, cursor: map<nat, nat>): System {
    if o.ok then System(o.db, s.boot, s.workers[id := o.worker], cursor) else Reboot(o.db)
  }

  ghost function Take(cfg: Config, s: System, step: Step): System
    requires cfg.workerCount > 0 && Enabled(cfg, s, step)
  {
    match step
    case Deliver(e, io) =>
      var p := e.partition;
      Settled(cfg, s, p % cfg.workerCount, HandleEvent(cfg, s.db, WorkerOf(cfg, s, p), e, io),
              Delivered(s.cursor, e))
    case TimerFlush(id, ios) => Settled(cfg, s, id, FlushAll(s.db, s.workers[id], ios), s.cursor)
    case Crash => Reboot(s.db)
  }
}
