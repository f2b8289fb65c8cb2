/** The entity actor as the code runs it: cached fields updated event by event, paged resync, and
    the retry loop of a command, with other actors appending between any two requests. */
module EntityActor {
  import opened Wrappers
  import opened Causation
  import opened EntityLog
  import opened EntityRuns

  const PAGE_SIZE: nat := 10000
  const CONFLICT_RETRIES: nat := 5

  datatype Answer = Appended | WrongVersion | Failed

  /** The stream in the event store. `accepted` counts the batches accepted from this handle. */
  class EventStore<E(==)> {
    var log: seq<Record<E>>
    ghost var accepted: nat

    /** Other actors append. */
    method Arrive(rs: seq<Record<E>>)
      modifies this`log
      ensures log == old(log) + rs
    {
      log := log + rs;
    }

    /** Atomic append of a whole batch against its expected versions. */
    method Append(rs: seq<Record<E>>, expected: seq<ExpectedVersion>, io: AppendIo) returns (answer: Answer)
      modifies this
      ensures io.Unreachable? || !Accepts(|old(log)|, expected) ==>
                log == old(log) && accepted == old(accepted) && !answer.Appended?
      ensures !io.Unreachable? && Accepts(|old(log)|, expected) ==>
                log == old(log) + rs && accepted == old(accepted) + 1
      ensures answer.Appended? ==> io.Answered? && Accepts(|old(log)|, expected)
      ensures answer.WrongVersion? ==> io.Answered? && !Accepts(|old(log)|, expected)
      ensures answer.Failed? ==> !io.Answered?
    {
      if io.Unreachable? {
        return Failed;
      }
      var fits := Accepts(|log|, expected);
      if fits {
        log := log + rs;
        accepted := accepted + 1;
      }
      answer := if io.AnswerLost? then Failed else if fits then Appended else WrongVersion;
    }
  }

  /** One page read: what other actors append before it, whether the read succeeds, how many events
      the store returns at most, and the event that fails to decode, if any. */
  datatype PageIo<E> = PageIo(arrivals: seq<Record<E>>, readOk: bool, count: nat, undecodable: Option<nat>)

  datatype ResyncEnd = CaughtUp | Stalled | Unreadable

  /** One attempt of a command: the clock it reads for rate limiting, what other actors append before
      ours, the fate of the append request, and the pages of the resync that follows a conflict. */
  datatype TryIo<E> = TryIo(now: int, arrivals: seq<Record<E>>, io: AppendIo, pages: seq<PageIo<E>>)

  /** No page of the resync stalls, fails to be read or fails to decode. */
  predicate Smooth<E>(pages: seq<PageIo<E>>) {
    forall i :: 0 <= i < |pages| ==> pages[i].readOk && pages[i].count > 0 && pages[i].undecodable.None?
  }

  /** Retry `i` follows a smooth resync, and no rival appends before its own append. */
  predicate Quiet<E(==)>(tries: seq<TryIo<E>>, i: nat) {
    0 < i < |tries| && tries[i].arrivals == [] && Smooth(tries[i - 1].pages)
  }

  datatype ExecuteError = PartitionKeyMismatch | NotAccepted(reason: string) | TooManyConflicts | Database

  datatype ExecuteResult<E> =
    | Executed(events: seq<E>)
    | WasIdempotent(current: CurrentVersion)
    | Error(error: ExecuteError)

  /** What a settled command means for the log and the cache. An append was decided on the replay of
      exactly the log before it, its first `base` events; anything else was decided on the cache and
      added nothing. `added` is the number of its batches the store accepted. */
  ghost predicate Settles<S, E, C>(
    model: Entity<S, E, C>, cmd: Command<C>, res: ExecuteResult<E>,
    base: nat, log: seq<Record<E>>, c: Cached<S>, added: int)
  {
    match res
    case Executed(events) =>
      if events == [] || cmd.dryRun then Answers(model, c, cmd, events) && added == 0
      else
        && base <= |log| && log == log[..base] + Records(events, cmd.meta, cmd.time)
        && Answers(model, Fold(model, log[..base]), cmd, events) && c == Fold(model, log) && added == 1
    case WasIdempotent(current) =>
      && Meets(cmd.expected, NextVersion(c.version)) && !Limited(model, c, cmd) && Repeats(model, c, cmd)
      && current == c.version && added == 0
    case Error(NotAccepted(reason)) =>
      && added == 0
      && (if !Meets(cmd.expected, NextVersion(c.version)) then reason == "IncorrectExpectedVersion"
          else if Limited(model, c, cmd) then reason == "RateLimitExceeded"
          else !Repeats(model, c, cmd) && Reply(model, c, cmd) == Err(reason))
    case Error(error) => if error.Database? then added <= 1 else added == 0
  }

  /** The command passes every check on this state, and these are the events it answers with. */
  ghost predicate Answers<S, E, C>(model: Entity<S, E, C>, c: Cached<S>, cmd: Command<C>, events: seq<E>) {
    && Meets(cmd.expected, NextVersion(c.version)) && !Limited(model, c, cmd)
    && !Repeats(model, c, cmd) && Reply(model, c, cmd) == Ok(events)
  }

  class Actor<S, E(==), C> {
    const model: Entity<S, E, C>
    const store: EventStore<E>
    const partitionKey: nat
    var entity: S
    var version: CurrentVersion
    var causation: Index
    var history: History

    function State(): Cached<S>
      reads this
    {
      Cached(entity, version, causation, history)
    }

    /** The cache is the replay of a prefix of the stream. */
    ghost predicate Valid()
      reads this, store
    {
      ReplaysPrefix(model, State(), store.log)
    }

    constructor (model: Entity<S, E, C>, store: EventStore<E>, partitionKey: nat)
      ensures this.model == model && this.store == store && this.partitionKey == partitionKey
      ensures State() == Initial(model) && Valid()
    {
      this.model, this.store, this.partitionKey := model, store, partitionKey;
      entity, version, causation, history := model.init, Empty, map[], [];
      new;
      StartGood(model, store.log);
    }

    /** Applies one event. The precondition is the version assertion of the code. */
    method Apply(r: Record<E>, streamVersion: nat)
      requires NextVersion(version) == streamVersion
      modifies this
      ensures State() == ApplyOne(model, old(State()), r)
    {
      entity := model.apply(entity, r.event, r.meta);
      version := Current(streamVersion);
      history := history + [if r.meta.command.Some? then Some((r.meta.command.value, r.time)) else None];
      if r.meta.command.Some? && r.meta.cause.Some? {
        var cmd, cause := r.meta.command.value, r.meta.cause.value;
        if cause.stream in causation {
          var seen := causation[cause.stream];
          if cause.version > seen.max {
            causation := causation[cause.stream := Seen(cause.version, {cmd})];
          } else if cause.version == seen.max {
            causation := causation[cause.stream := Seen(seen.max, seen.commands + {cmd})];
          }
        } else {
          causation := causation[cause.stream := Seen(cause.version, {cmd})];
        }
      }
    }

    /** Applies consecutive events of the stream, stopping at one that does not decode. */
    method ApplyPage(rs: seq<Record<E>>, undecodable: Option<nat>) returns (ok: bool)
      requires Valid()
      requires NextVersion(version) + |rs| <= |store.log|
      requires rs == store.log[NextVersion(version)..NextVersion(version) + |rs|]
      modifies this
      ensures Valid() && NextVersion(old(version)) <= NextVersion(version)
      ensures ok ==> NextVersion(version) == NextVersion(old(version)) + |rs|
      ensures undecodable.None? ==> ok
    {
      var from := NextVersion(version);
      for j := 0 to |rs|
        invariant NextVersion(version) == from + j && Valid()
      {
        if undecodable == Some(j) {
          return false;
        }
        assert rs[j] == store.log[from + j];
        FoldNext(model, store.log, from + j);
        Apply(rs[j], from + j);
      }
      ok := true;
    }

    /** Reads and applies one page; `last` when the store reports no more events. */
    method ReadPage(io: PageIo<E>) returns (ok: bool, last: bool)
      requires Valid()
      modifies this, store`log
      ensures Valid() && store.log == old(store.log) + io.arrivals && NextVersion(old(version)) <= NextVersion(version)
      ensures ok && last ==> State() == Fold(model, store.log)
      ensures ok && !last ==> NextVersion(version) < |store.log|
      ensures ok && !last && io.count > 0 ==> NextVersion(old(version)) < NextVersion(version)
      ensures io.readOk && io.undecodable.None? ==> ok
    {
      PrefixExtends(model, State(), store.log, io.arrivals);
      store.Arrive(io.arrivals);
      if !io.readOk {
        return false, false;
      }
      var from := NextVersion(version);
      var limit := if io.count < PAGE_SIZE then io.count else PAGE_SIZE;
      var pending := |store.log| - from;
      var size := if limit < pending then limit else pending;
      ok := ApplyPage(store.log[from..from + size], io.undecodable);
      last := size == pending;
      assert store.log[..|store.log|] == store.log;
    }

    /** Reads page after page until the store reports no more events. Pages without events while
        more are pending end the loop as well. */
    method Resync(pages: seq<PageIo<E>>) returns (end: ResyncEnd)
      requires Valid()
      modifies this, store`log
      ensures Valid() && old(store.log) <= store.log && NextVersion(old(version)) <= NextVersion(version)
      ensures end.CaughtUp? ==> State() == Fold(model, store.log)
      ensures (forall i :: 0 <= i < |pages| ==> pages[i].count > 0) ==> !end.Stalled?
      ensures (forall i :: 0 <= i < |pages| ==> pages[i].readOk && pages[i].undecodable.None?) ==> !end.Unreadable?
    {
      var i := 0;
      while true
        invariant 0 <= i && Valid() && old(store.log) <= store.log && NextVersion(old(version)) <= NextVersion(version)
        decreases if i < |pages| then |pages| - i else 0, |store.log| - NextVersion(version)
      {
        var io := if i < |pages| then pages[i] else PageIo([], true, PAGE_SIZE, None);
        var original := version;
        var ok, last := ReadPage(io);
        if !ok {
          return Unreadable;
        }
        if last {
          return CaughtUp;
        }
        if version == original {
          return Stalled;
        }
        i := i + 1;
      }
    }

    /** Applies a batch that is the rest of the stream. */
    method ApplyRest(rs: seq<Record<E>>)
      requires Valid() && NextVersion(version) + |rs| == |store.log| && rs == store.log[NextVersion(version)..]
      modifies this
      ensures Valid() && State() == Fold(model, store.log)
    {
      var _ := ApplyPage(rs, None);
      assert store.log[..|store.log|] == store.log;
    }

    /** Appends the decided events and, once accepted, applies them to the cache. */
    method AppendEvents(events: seq<E>, meta: Metadata, time: int, io: AppendIo) returns (answer: Answer)
      requires Valid() && events != []
      modifies this, store
      ensures Valid() && old(store.log) <= store.log
      ensures answer.Appended? ==>
                && old(State()) == Fold(model, old(store.log))
                && store.log == old(store.log) + Records(events, meta, time)
                && State() == Fold(model, store.log) && store.accepted == old(store.accepted) + 1
      ensures answer.WrongVersion? ==>
                && store.log == old(store.log) && State() == old(State()) && store.accepted == old(store.accepted)
                && old(version) != VersionOf(|store.log|)
      ensures answer.Failed? ==>
                State() == old(State()) && store.accepted <= old(store.accepted) + (if io.AnswerLost? then 1 else 0)
    {
      ghost var before := store.log;
      var rs := Records(events, meta, time);
      var expected := ExpectedFrom(version, 0, |events|);
      AcceptsIff(|store.log|, version, |events|);
      PrefixExtends(model, State(), before, rs);
      answer := store.Append(rs, expected, io);
      if answer.Appended? {
        AcceptedDecidesOnLog(model, State(), before, |events|);
        FoldVersion(model, before);
        ApplyRest(rs);
      }
    }

    /** One attempt: decide on the cache and append. No result means a conflict: the log has moved. */
    method Try(cmd: Command<C>, io: TryIo<E>) returns (res: Option<ExecuteResult<E>>, sent: bool, ghost base: nat)
      requires Valid()
      modifies this, store
      ensures Valid() && old(store.log) <= store.log && |old(store.log)| <= base <= |store.log|
      ensures res.Some? ==>
                && Settles(model, cmd.(now := io.now), res.value, base, store.log, State(),
                           store.accepted - old(store.accepted))
                && (res.value.Error? ==> !res.value.error.TooManyConflicts? && !res.value.error.PartitionKeyMismatch?)
      ensures res.None? ==>
                && sent && store.accepted == old(store.accepted) && store.log == old(store.log) + io.arrivals
                && version == old(version) && version != VersionOf(|store.log|)
    {
      sent, base := false, |store.log|;
      var events: seq<E>;
      DecideIff(model, State(), cmd.(now := io.now));
      match Decide(model, State(), cmd.(now := io.now)) {
        case Refused(reason) => return Some(Error(NotAccepted(reason))), sent, base;
        case Idempotent => return Some(WasIdempotent(version)), sent, base;
        case Decided(es) => events := es;
      }
      if events == [] || cmd.dryRun {
        return Some(Executed(events)), sent, base;
      }
      PrefixExtends(model, State(), store.log, io.arrivals);
      store.Arrive(io.arrivals);
      sent, base := true, |store.log|;
      ghost var before := store.log;
      var answer := AppendEvents(events, cmd.meta, cmd.time, io.io);
      match answer {
        case Appended =>
          assert store.log[..base] == before;
          res := Some(Executed(events));
        case Failed => res := Some(Error(Database));
        case WrongVersion => res := None;
      }
    }

    /** The resync between two attempts; only a failed read or an undecodable event stops the command. */
    method CatchUp(pages: seq<PageIo<E>>) returns (ok: bool)
      requires Valid()
      modifies this, store`log
      ensures Valid() && old(store.log) <= store.log
      ensures Smooth(pages) ==> ok && version == VersionOf(|store.log|)
    {
      var end := Resync(pages);
      FoldVersion(model, store.log);
      ok := !end.Unreadable?;
    }

    /** One round: an attempt and, after a conflict, the resync for the next one unless it was the last. */
    method Round(cmd: Command<C>, io: TryIo<E>,
        last: bool) returns (res: Option<ExecuteResult<E>>, sent: bool, ghost base: nat)
      requires Valid()
      modifies this, store
      ensures Valid() && old(store.log) <= store.log && |old(store.log)| <= base <= |store.log|
      ensures res.Some? ==>
                Settles(model, cmd.(now := io.now), res.value, base, store.log, State(),
                        store.accepted - old(store.accepted))
      ensures res != Some(Error(PartitionKeyMismatch)) && (res == Some(Error(TooManyConflicts)) ==> last)
      ensures res.None? || res == Some(Error(TooManyConflicts)) ==>
                sent && (io.arrivals == [] ==> old(version) != VersionOf(|old(store.log)|))
      ensures res.None? ==>
                && !last && store.accepted == old(store.accepted)
                && (Smooth(io.pages) ==> version == VersionOf(|store.log|))
    {
      res, sent, base := Try(cmd, io);
      if res.None? {
        if last {
          res := Some(Error(TooManyConflicts));
        } else {
          var ok := CatchUp(io.pages);
          if !ok {
            res := Some(Error(Database));
          }
        }
      }
    }

    /** A command: attempts with a resync after every conflict, until one settles it. At most one batch
        of it is ever accepted, there are at most CONFLICT_RETRIES + 1 append requests, and one quiet
        retry is enough for the conflicts to end. */
    method Execute(cmd: Command<C>, key: nat, tries: seq<TryIo<E>>)
      returns (res: ExecuteResult<E>, requests: nat, ghost at: nat, ghost base: nat)
      requires Valid() && |tries| == CONFLICT_RETRIES + 1
      modifies this, store
      ensures Valid() && old(store.log) <= store.log && |old(store.log)| <= base <= |store.log|
      ensures at <= CONFLICT_RETRIES && requests <= at + 1
      ensures Settles(model, cmd.(now := tries[at].now), res, base, store.log, State(),
                      store.accepted - old(store.accepted))
      ensures res == Error(TooManyConflicts) ==> requests == CONFLICT_RETRIES + 1 && forall i: nat :: !Quiet(tries, i)
      ensures res == Error(PartitionKeyMismatch) <==> key != partitionKey
    {
      at, base, requests := 0, |store.log|, 0;
      if key != partitionKey {
        return Error(PartitionKeyMismatch), requests, at, base;
      }
      var attempt := 0;
      while true
        invariant attempt <= CONFLICT_RETRIES && requests == attempt
        invariant Valid() && old(store.log) <= store.log && store.accepted == old(store.accepted)
        invariant attempt > 0 && Smooth(tries[attempt - 1].pages) ==> version == VersionOf(|store.log|)
        invariant forall i: nat :: i < attempt ==> !Quiet(tries, i)
        decreases CONFLICT_RETRIES - attempt
      {
        var settled, sent, start := Round(cmd, tries[attempt], attempt == CONFLICT_RETRIES);
        at, base := attempt, start;
        requests := requests + if sent then 1 else 0;
        if settled.Some? {
          return settled.value, requests, at, base;
        }
        attempt := attempt + 1;
      }
    }
  }
}
