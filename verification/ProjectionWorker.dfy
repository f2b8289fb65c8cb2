/** The projection worker as the code runs it: fields updated step by step inside one retained
    transaction, each method proved against its step function. */
module ProjectionWorker {
  import opened Wrappers
  import opened ProjectionStore
  import opened ProjectionSteps

  /** The committed tables, shared by all workers. */
  class Tables {
    var effects: seq<EventRef>
    var checkpoints: map<nat, nat>
    var deadLetters: map<EventRef, nat>

    function View(): Database
      reads this
    {
      Database(effects, checkpoints, deadLetters)
    }

    method Commit(tx: Transaction)
      modifies this
      ensures View() == ProjectionStore.Commit(old(View()), tx)
    {
      if !tx.broken {
        effects := effects + tx.effects;
        checkpoints := checkpoints + tx.checkpoints;
        deadLetters := deadLetters + tx.deadLetters;
      }
    }
  }

  class Worker {
    const tables: Tables
    const config: Config
    var transaction: Option<Transaction>
    var eventsSinceFlush: nat
    var lastFlushed: map<nat, nat>
    var lastHandled: map<nat, nat>
    var partitionLatest: map<nat, Option<nat>>
    var isLive: bool

    function State(): WorkerState
      reads this
    {
      WorkerState(transaction, eventsSinceFlush, lastFlushed, lastHandled, partitionLatest, isLive)
    }

    constructor (tables: Tables, config: Config, boot: map<nat, nat>)
      ensures State() == Spawn(boot) && this.tables == tables && this.config == config
    {
      this.tables := tables;
      this.config := config;
      transaction, eventsSinceFlush := None, 0;
      lastFlushed, lastHandled := boot, boot;
      partitionLatest, isLive := map[], false;
    }

    /** One event inside a savepoint of the retained transaction. */
    method AttemptEvent(e: EventRef, io: AttemptIo) returns (verdict: Verdict)
      modifies this`transaction
      ensures Attempted(transaction, verdict) == AttemptOnce(old(transaction), e, io)
    {
      var tx := FRESH;
      match transaction {
        case Some(t) => tx := t;
        case None =>
          if !io.beginOk {
            return FailedTransient;
          }
      }
      transaction := None;
      if tx.broken || !io.savepointOk {
        return FailedTransient;
      }
      if !io.handler.Applied? {
        if io.rollbackOk {
          transaction := Some(tx);
        }
        return if io.handler.PermanentError? then FailedPermanent else FailedTransient;
      }
      transaction := Some(tx.(effects := tx.effects + [e], broken := !io.releaseOk));
      verdict := Succeeded;
    }

    /** Retries until success or until the attempts are used up. */
    method ProcessEvent(e: EventRef, ios: seq<AttemptIo>) returns (verdict: Verdict)
      requires ios != []
      modifies this`transaction
      ensures Attempted(transaction, verdict) == AttemptAll(old(transaction), e, ios)
    {
      var i := 0;
      verdict := AttemptEvent(e, ios[0]);
      while !verdict.Succeeded? && i + 1 < |ios|
        invariant i < |ios|
        invariant AttemptAll(old(transaction), e, ios)
               == if verdict.Succeeded? || i + 1 == |ios| then Attempted(transaction, verdict)
                  else AttemptAll(transaction, e, ios[i + 1..])
      {
        i := i + 1;
        ghost var rest := ios[i..];
        assert rest[0] == ios[i] && rest[1..] == ios[i + 1..];
        verdict := AttemptEvent(e, ios[i]);
      }
    }

    /** The checkpoint loop and the commit of one flush attempt. */
    method FlushCheckpoint(io: FlushIo) returns (ok: bool)
      modifies this`transaction, this`lastFlushed, this`eventsSinceFlush, tables
      ensures Outcome(tables.View(), State(), ok) == FlushOnce(old(tables.View()), old(State()), io)
    {
      if transaction.None? {
        return true;
      }
      var tx := transaction.value;
      for i := 0 to |io.order|
        invariant tables.View() == old(tables.View()) && State() == old(State())
        invariant WriteFrom(tables.View(), old(transaction).value, State(), io, 0)
               == WriteFrom(tables.View(), tx, State(), io, i)
      {
        var p := io.order[i];
        if NeedsWrite(State(), p) {
          var one := WriteOne(tables.View(), tx, State(), p, io.failAt == Some(i), io.breaks);
          tx := one.tx;
          if !one.ok {
            transaction := Some(tx);
            return false;
          }
        }
      }
      if !io.finalFlushOk {
        transaction := Some(tx.(broken := tx.broken || io.breaks));
        return false;
      }
      transaction := None;
      if io.commit.Rejected? {
        return false;
      }
      tables.Commit(tx);
      if io.commit.AckLost? || !io.afterCommitOk {
        return false;
      }
      lastFlushed := lastHandled;
      eventsSinceFlush := 0;
      ok := true;
    }

    method Flush(ios: seq<FlushIo>) returns (ok: bool)
      requires ios != []
      modifies this`transaction, this`lastFlushed, this`eventsSinceFlush, tables
      ensures Outcome(tables.View(), State(), ok) == FlushAll(old(tables.View()), old(State()), ios)
    {
      var i := 0;
      ok := FlushCheckpoint(ios[0]);
      while !ok && i + 1 < |ios|
        invariant i < |ios|
        invariant FlushAll(old(tables.View()), old(State()), ios)
               == if ok || i + 1 == |ios| then Outcome(tables.View(), State(), ok)
                  else FlushAll(tables.View(), State(), ios[i + 1..])
      {
        i := i + 1;
        ghost var rest := ios[i..];
        assert rest[0] == ios[i] && rest[1..] == ios[i + 1..];
        ok := FlushCheckpoint(ios[i]);
      }
    }

    method DeadLetterEvent(e: EventRef, io: DeadLetterIo, flush: seq<FlushIo>) returns (ok: bool)
      requires flush != []
      modifies this, tables
      ensures Outcome(tables.View(), State(), ok) == DeadLetter(old(tables.View()), old(State()), e, io, flush)
    {
      if e.partition > MAX_SMALLINT {
        return false;
      }
      if transaction.Some? {
        var tx := transaction.value;
        if tx.broken || !io.insertOk {
          return false;
        }
        var row := Attempts(tables.deadLetters + tx.deadLetters, e);
        transaction := Some(tx.(deadLetters := tx.deadLetters[e := row]));
        lastHandled := lastHandled[e.partition := e.sequence];
        ok := Flush(flush);
      } else {
        if !io.beginOk || !io.insertOk || !io.checkpointOk || io.commit.Rejected? {
          return false;
        }
        var p, s := e.partition, e.sequence;
        if !(p in tables.checkpoints && tables.checkpoints[p] > s) {
          tables.checkpoints := tables.checkpoints[p := s];
        }
        tables.deadLetters := tables.deadLetters[e := Attempts(tables.deadLetters, e)];
        assert tables.checkpoints == old(tables.checkpoints)[p := tables.checkpoints[p]];
        if io.commit.AckLost? {
          return false;
        }
        lastHandled := lastHandled[p := s];
        lastFlushed := lastFlushed[p := s];
        eventsSinceFlush := 0;
        ok := true;
      }
    }

    /** Records the event as handled and flushes when the interval of the current mode is reached. */
    method SettleEvent(e: EventRef, flush: seq<FlushIo>) returns (ok: bool)
      requires flush != []
      modifies this, tables
      ensures Outcome(tables.View(), State(), ok) == Settle(config, old(tables.View()), old(State()), e, flush)
    {
      lastHandled := lastHandled[e.partition := e.sequence];
      eventsSinceFlush := eventsSinceFlush + 1;
      var replaying := !isLive && Behind(State());
      var interval := config.replayInterval;
      if !replaying {
        isLive := true;
        interval := config.liveInterval;
      }
      ok := true;
      if eventsSinceFlush >= interval {
        ok := Flush(flush);
      }
    }

    method Handle(e: EventRef, io: HandleIo) returns (ok: bool)
      requires io.attempts != [] && io.deadFlush != [] && io.flush != []
      modifies this, tables
      ensures Outcome(tables.View(), State(), ok) == HandleEvent(config, old(tables.View()), old(State()), e, io)
    {
      if e.partition in lastHandled && lastHandled[e.partition] >= e.sequence {
        return true;
      }
      if e.partition !in partitionLatest {
        isLive := false;
        if io.sampled.None? {
          return false;
        }
        partitionLatest := partitionLatest[e.partition := io.sampled.value];
      }
      var verdict := ProcessEvent(e, io.attempts);
      assert State() == Tried(old(State()), e, io);
      if verdict.FailedTransient? {
        return false;
      }
      if verdict.FailedPermanent? {
        ok := DeadLetterEvent(e, io.dead, io.deadFlush);
        if !ok {
          return;
        }
      }
      ok := SettleEvent(e, io.flush);
    }
  }
}
