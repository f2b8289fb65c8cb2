/** An event-sourced entity: its append-only log with optimistic expected versions, the state an
    actor caches, and what one command decides. */
module EntityLog {
  import opened Wrappers
  import opened Causation

  /** A stream is empty, or its last event has this 0-based version. */
  datatype CurrentVersion = Empty | Current(version: nat)

  datatype ExpectedVersion = Any | Exists | EmptyStream | Exact(version: nat)

  function NextVersion(v: CurrentVersion): nat {
    if v.Empty? then 0 else v.version + 1
  }

  /** Version of a stream that holds `n` events. */
  function VersionOf(n: nat): CurrentVersion {
    if n == 0 then Empty else Current(n - 1)
  }

  predicate Satisfied(expected: ExpectedVersion, v: CurrentVersion) {
    match expected
    case Any => true
    case Exists => v.Current?
    case EmptyStream => v.Empty?
    case Exact(n) => v == Current(n)
  }

  datatype Record<E> = Record(event: E, meta: Metadata, time: int)

  /** One past entry of the command history used for rate limiting. */
  type History = seq<Option<(string, int)>>

  /** The user-supplied entity: initial state, event application, and the command side. */
  datatype Entity<!S, !E, !C> = Entity(
    init: S,
    apply: (S, E, Metadata) -> S,
    handle: (S, Index, C, Metadata, int) -> Result<seq<E>, string>,
    stateIdempotent: (S, C, Metadata) -> bool,
    rateLimited: (S, History, C, int) -> bool)

  /** What an actor caches about its stream. */
  datatype Cached<S> = Cached(entity: S, version: CurrentVersion, index: Index, history: History)

  function Initial<S, E, C>(ent: Entity<S, E, C>): Cached<S> {
    Cached(ent.init, Empty, map[], [])
  }

  function ApplyOne<S, E, C>(ent: Entity<S, E, C>, c: Cached<S>, r: Record<E>): Cached<S> {
    Cached(ent.apply(c.entity, r.event, r.meta), Current(NextVersion(c.version)), Track(c.index, r.meta),
           c.history + [if r.meta.command.Some? then Some((r.meta.command.value, r.time)) else None])
  }

  /** The state that replaying a whole log produces. */
  function Fold<S, E, C>(ent: Entity<S, E, C>, log: seq<Record<E>>): Cached<S> {
    if log == [] then Initial(ent) else ApplyOne(ent, Fold(ent, log[..|log| - 1]), log[|log| - 1])
  }

  function Metas<E>(log: seq<Record<E>>): seq<Metadata> {
    seq(|log|, i requires 0 <= i < |log| => log[i].meta)
  }

  lemma {:induction false} FoldVersion<S, E, C>(ent: Entity<S, E, C>, log: seq<Record<E>>)
    ensures Fold(ent, log).version == VersionOf(|log|) && |Fold(ent, log).history| == |log|
  {
    if log != [] {
      FoldVersion(ent, log[..|log| - 1]);
    }
  }

  /** The cached index is the index of the whole replayed history. */
  lemma {:induction false} FoldIndex<S, E, C>(ent: Entity<S, E, C>, log: seq<Record<E>>)
    ensures Fold(ent, log).index == TrackAll(Metas(log))
  {
    if log != [] {
      FoldIndex(ent, log[..|log| - 1]);
      assert Metas(log)[..|log| - 1] == Metas(log[..|log| - 1]);
    }
  }

  lemma FoldNext<S, E, C>(ent: Entity<S, E, C>, log: seq<Record<E>>, n: nat)
    requires n < |log|
    ensures Fold(ent, log[..n + 1]) == ApplyOne(ent, Fold(ent, log[..n]), log[n])
  {
    assert log[..n + 1][..n] == log[..n];
  }

  // ---- Expected versions of a multi-event append ----

  /** `expected_version` of the i-th event of a batch decided at version `v`. */
  function ExpectedAt(v: CurrentVersion, i: nat): ExpectedVersion {
    match v
    case Empty => if i == 0 then EmptyStream else Exact(i - 1)
    case Current(n) => Exact(n + i)
  }

  /** The store's atomic check: each event against the stream as the previous ones leave it. */
  predicate Accepts(n: nat, expected: seq<ExpectedVersion>)
    decreases |expected|
  {
    expected == [] || (Satisfied(expected[0], VersionOf(n)) && Accepts(n + 1, expected[1..]))
  }

  function ExpectedFrom(v: CurrentVersion, i: nat, k: nat): seq<ExpectedVersion>
    decreases k
  {
    if k == 0 then [] else [ExpectedAt(v, i)] + ExpectedFrom(v, i + 1, k - 1)
  }

  /** A non-empty batch is accepted as a whole if and only if the stream is still at the version
      the actor decided on. */
  lemma AcceptsIff(n: nat, v: CurrentVersion, k: nat)
    requires k > 0
    ensures Accepts(n, ExpectedFrom(v, 0, k)) <==> VersionOf(n) == v
  {
    var e := ExpectedFrom(v, 0, k);
    assert e[1..] == ExpectedFrom(v, 1, k - 1);
    if VersionOf(n) == v {
      AcceptsFrom(n + 1, v, 1, k - 1);
    }
  }

  lemma {:induction false} AcceptsFrom(n: nat, v: CurrentVersion, i: nat, k: nat)
    requires i > 0 && n == NextVersion(v) + i
    ensures Accepts(n, ExpectedFrom(v, i, k))
    decreases k
  {
    if k > 0 {
      AcceptsFrom(n + 1, v, i + 1, k - 1);
      assert ExpectedFrom(v, i, k)[1..] == ExpectedFrom(v, i + 1, k - 1);
    }
  }

  // ---- What a command decides on a cached state ----

  datatype Command<C> = Command(
    payload: C, meta: Metadata, expected: ExpectedVersion, time: int, now: int, dryRun: bool)

  datatype Decision<E> = Refused(reason: string) | Idempotent | Decided(events: seq<E>)

  predicate IsIdempotent<S, E, C>(ent: Entity<S, E, C>, c: Cached<S>, cmd: Command<C>) {
    ShouldSkip(c.index, cmd.meta) || ent.stateIdempotent(c.entity, cmd.payload, cmd.meta)
  }

  function Decide<S, E, C>(ent: Entity<S, E, C>, c: Cached<S>, cmd: Command<C>): Decision<E> {
    if !Satisfied(cmd.expected, c.version) then Refused("IncorrectExpectedVersion")
    else if ent.rateLimited(c.entity, c.history, cmd.payload, cmd.now) then Refused("RateLimitExceeded")
    else if IsIdempotent(ent, c, cmd) then Idempotent
    else match ent.handle(c.entity, c.index, cmd.payload, cmd.meta, cmd.time)
      case Err(e) => Refused(e)
      case Ok(events) => Decided(events)
  }

  function Records<E>(events: seq<E>, meta: Metadata, time: int): seq<Record<E>> {
    seq(|events|, i requires 0 <= i < |events| => Record(events[i], meta, time))
  }

  // ---- The same in terms of the log ----

  /** The caller's expectation, for a stream of `n` events. */
  predicate Meets(expected: ExpectedVersion, n: nat) {
    match expected
    case Any => true
    case Exists => n > 0
    case EmptyStream => n == 0
    case Exact(v) => n == v + 1
  }

  /** The command has been executed before: by its cause, or as the entity's state tells. */
  predicate Repeats<S, E, C>(ent: Entity<S, E, C>, c: Cached<S>, cmd: Command<C>) {
    ShouldSkip(c.index, cmd.meta) || ent.stateIdempotent(c.entity, cmd.payload, cmd.meta)
  }

  predicate Limited<S, E, C>(ent: Entity<S, E, C>, c: Cached<S>, cmd: Command<C>) {
    ent.rateLimited(c.entity, c.history, cmd.payload, cmd.now)
  }

  function Reply<S, E, C>(ent: Entity<S, E, C>, c: Cached<S>, cmd: Command<C>): Result<seq<E>, string> {
    ent.handle(c.entity, c.index, cmd.payload, cmd.meta, cmd.time)
  }

  /** Which check decides, in which order. */
  lemma DecideIff<S, E, C>(ent: Entity<S, E, C>, c: Cached<S>, cmd: Command<C>)
    ensures var meets, d := Meets(cmd.expected, NextVersion(c.version)), Decide(ent, c, cmd);
            && (!meets <==> d == Refused("IncorrectExpectedVersion") && !Satisfied(cmd.expected, c.version))
            && (meets && Limited(ent, c, cmd) ==> d == Refused("RateLimitExceeded"))
            && (d == Idempotent <==> meets && !Limited(ent, c, cmd) && Repeats(ent, c, cmd))
            && (forall events :: d == Decided(events) <==>
                  meets && !Limited(ent, c, cmd) && !Repeats(ent, c, cmd) && Reply(ent, c, cmd) == Ok(events))
            && (meets && !Limited(ent, c, cmd) && !Repeats(ent, c, cmd) && Reply(ent, c, cmd).Err? ==>
                  d == Refused(Reply(ent, c, cmd).error))
  {}

  /** The entity's state by applying event after event from the first. */
  function Replay<S, E, C>(ent: Entity<S, E, C>, s: S, log: seq<Record<E>>): S
    decreases |log|
  {
    if log == [] then s else Replay(ent, ent.apply(s, log[0].event, log[0].meta), log[1..])
  }

  lemma {:induction false} ReplayLast<S, E, C>(ent: Entity<S, E, C>, s: S, log: seq<Record<E>>, r: Record<E>)
    ensures Replay(ent, s, log + [r]) == ent.apply(Replay(ent, s, log), r.event, r.meta)
    decreases |log|
  {
    if log != [] {
      assert (log + [r])[1..] == log[1..] + [r];
      ReplayLast(ent, ent.apply(s, log[0].event, log[0].meta), log[1..], r);
    } else {
      assert (log + [r])[1..] == [];
    }
  }

  /** The cached entity is the replay of the log from the initial state. */
  lemma {:induction false} FoldEntity<S, E, C>(ent: Entity<S, E, C>, log: seq<Record<E>>)
    ensures Fold(ent, log).entity == Replay(ent, ent.init, log)
  {
    if log != [] {
      FoldEntity(ent, log[..|log| - 1]);
      ReplayLast(ent, ent.init, log[..|log| - 1], log[|log| - 1]);
      assert log == log[..|log| - 1] + [log[|log| - 1]];
    }
  }

  /** The history that rate limiting counts: one entry per event, its command's name and its time. */
  lemma {:induction false} FoldHistory<S, E, C>(ent: Entity<S, E, C>, log: seq<Record<E>>, i: nat)
    requires i < |log|
    ensures i < |Fold(ent, log).history|
    ensures Fold(ent, log).history[i] ==
              match log[i].meta.command { case Some(name) => Some((name, log[i].time)) case None => None }
  {
    FoldVersion(ent, log);
    FoldVersion(ent, log[..|log| - 1]);
    if i < |log| - 1 {
      FoldHistory(ent, log[..|log| - 1], i);
    }
  }
}
