/** Any number of actors on one stream, each deciding on its own cached state, appending with
    exact expected versions and catching up page by page, in any interleaving. */
module EntityRuns {
  import opened Wrappers
  import opened Causation
  import opened EntityLog

  /** One appended batch and the command it came from. */
  datatype Batch<E, C> = Batch(cmd: Command<C>, events: seq<E>)

  datatype System<S, E, C> = System(batches: seq<Batch<E, C>>, actors: map<nat, Cached<S>>)

  function LogOf<E, C>(batches: seq<Batch<E, C>>): seq<Record<E>> {
    if batches == [] then []
    else
      var b := batches[|batches| - 1];
      LogOf(batches[..|batches| - 1]) + Records(b.events, b.cmd.meta, b.cmd.time)
  }

  /** Outcome of the append request: answered, never sent, or executed with its answer lost. */
  datatype AppendIo = Answered | Unreachable | AnswerLost

  datatype Step<C> =
    | Start(id: nat)
    | Page(id: nat, count: nat)
    | Submit(id: nat, cmd: Command<C>, io: AppendIo)

  ghost predicate Enabled<S, E, C>(s: System<S, E, C>, step: Step<C>) {
    match step
    case Start(_) => true
    case Page(id, count) => id in s.actors && NextVersion(s.actors[id].version) + count <= |LogOf(s.batches)|
    case Submit(id, _, _) => id in s.actors
  }

  function ApplyAll<S, E, C>(ent: Entity<S, E, C>, c: Cached<S>, rs: seq<Record<E>>): Cached<S> {
    if rs == [] then c else ApplyOne(ent, ApplyAll(ent, c, rs[..|rs| - 1]), rs[|rs| - 1])
  }

  /** The batch a submitted command tries to append, if it gets that far. */
  function Attempted<S, E, C>(ent: Entity<S, E, C>, c: Cached<S>, cmd: Command<C>): Option<Batch<E, C>> {
    match Decide(ent, c, cmd)
    case Decided(events) => if events == [] || cmd.dryRun then None else Some(Batch(cmd, events))
    case _ => None
  }

  ghost function Take<S, E, C>(ent: Entity<S, E, C>, s: System<S, E, C>, step: Step<C>): System<S, E, C>
    requires Enabled(s, step)
  {
    match step
    case Start(id) => Started(ent, s, id)
    case Page(id, count) => Paged(ent, s, id, count)
    case Submit(id, cmd, io) => Submitted(ent, s, id, cmd, io)
  }

  function Started<S, E, C>(ent: Entity<S, E, C>, s: System<S, E, C>, id: nat): System<S, E, C> {
    System(s.batches, s.actors[id := Initial(ent)])
  }

  /** The next `count` events of the log are applied. */
  function Paged<S, E, C>(ent: Entity<S, E, C>, s: System<S, E, C>, id: nat, count: nat): System<S, E, C>
    requires id in s.actors && NextVersion(s.actors[id].version) + count <= |LogOf(s.batches)|
  {
    var from := NextVersion(s.actors[id].version);
    System(s.batches, s.actors[id := ApplyAll(ent, s.actors[id], LogOf(s.batches)[from..from + count])])
  }

  /** Deciding on the cached state and the atomic append that follows. */
  function Submitted<S, E, C>(ent: Entity<S, E, C>, s: System<S, E, C>, id: nat, cmd: Command<C>,
      io: AppendIo): System<S, E, C>
    requires id in s.actors
  {
    var c := s.actors[id];
    match Attempted(ent, c, cmd)
    case None => s
    case Some(b) =>
      if io.Unreachable? || !Accepts(|LogOf(s.batches)|, ExpectedFrom(c.version, 0, |b.events|)) then s
      else
        System(s.batches + [b],
               if io.AnswerLost? then s.actors
               else s.actors[id := ApplyAll(ent, c, Records(b.events, cmd.meta, cmd.time))])
  }

  // ---- Invariants ----

  /** The cached state is the replay of a prefix of the log. */
  ghost predicate ReplaysPrefix<S, E, C>(ent: Entity<S, E, C>, c: Cached<S>, log: seq<Record<E>>) {
    NextVersion(c.version) <= |log| && c == Fold(ent, log[..NextVersion(c.version)])
  }

  /** Every batch is what its command decides on the replay of exactly the log before it. */
  ghost predicate Serial<S, E, C>(ent: Entity<S, E, C>, batches: seq<Batch<E, C>>) {
    forall i :: 0 <= i < |batches| ==>
      Attempted(ent, Fold(ent, LogOf(batches[..i])), batches[i].cmd) == Some(batches[i])
  }

  ghost predicate Good<S, E, C>(ent: Entity<S, E, C>, s: System<S, E, C>) {
    && Serial(ent, s.batches)
    && AllReplay(ent, s.actors, LogOf(s.batches))
  }

  lemma {:induction false} ApplyAllFold<S, E, C>(ent: Entity<S, E, C>, log: seq<Record<E>>, rs: seq<Record<E>>)
    ensures ApplyAll(ent, Fold(ent, log), rs) == Fold(ent, log + rs)
  {
    if rs == [] {
      assert log + rs == log;
    } else {
      ApplyAllFold(ent, log, rs[..|rs| - 1]);
      assert (log + rs)[..|log + rs| - 1] == log + rs[..|rs| - 1];
    }
  }

  lemma PrefixExtends<S, E, C>(ent: Entity<S, E, C>, c: Cached<S>, log: seq<Record<E>>, more: seq<Record<E>>)
    requires ReplaysPrefix(ent, c, log)
    ensures ReplaysPrefix(ent, c, log + more)
  {
    assert (log + more)[..NextVersion(c.version)] == log[..NextVersion(c.version)];
  }

  lemma PageReplays<S, E, C>(ent: Entity<S, E, C>, c: Cached<S>, log: seq<Record<E>>, count: nat)
    requires ReplaysPrefix(ent, c, log) && NextVersion(c.version) + count <= |log|
    ensures var n := NextVersion(c.version);
            var c' := ApplyAll(ent, c, log[n..n + count]);
            c' == Fold(ent, log[..n + count]) && NextVersion(c'.version) == n + count && ReplaysPrefix(ent, c', log)
  {
    var n := NextVersion(c.version);
    ApplyAllFold(ent, log[..n], log[n..n + count]);
    assert log[..n] + log[n..n + count] == log[..n + count];
    FoldVersion(ent, log[..n + count]);
  }

  lemma LogAppend<E, C>(batches: seq<Batch<E, C>>, b: Batch<E, C>)
    ensures LogOf(batches + [b]) == LogOf(batches) + Records(b.events, b.cmd.meta, b.cmd.time)
  {
    assert (batches + [b])[..|batches|] == batches;
  }

  lemma SerialAppend<S, E, C>(ent: Entity<S, E, C>, batches: seq<Batch<E, C>>, b: Batch<E, C>)
    requires Serial(ent, batches) && Attempted(ent, Fold(ent, LogOf(batches)), b.cmd) == Some(b)
    ensures Serial(ent, batches + [b])
  {
    var bs := batches + [b];
    forall i | 0 <= i < |bs|
      ensures Attempted(ent, Fold(ent, LogOf(bs[..i])), bs[i].cmd) == Some(bs[i])
    {
      assert bs[..i] == batches[..i];
      if i == |batches| {
        assert batches[..i] == batches;
      }
    }
  }

  /** An accepted batch was decided on the replay of the whole log as it stands. */
  lemma AcceptedDecidesOnLog<S, E, C>(ent: Entity<S, E, C>, c: Cached<S>, log: seq<Record<E>>, k: nat)
    requires ReplaysPrefix(ent, c, log) && k > 0 && Accepts(|log|, ExpectedFrom(c.version, 0, k))
    ensures c == Fold(ent, log)
  {
    AcceptsIff(|log|, c.version, k);
    assert log[..NextVersion(c.version)] == log;
  }

  /** Applying the accepted batch to the deciding cache replays the whole new log. */
  lemma OwnAppend<S, E, C>(ent: Entity<S, E, C>, log: seq<Record<E>>, more: seq<Record<E>>)
    ensures ReplaysPrefix(ent, ApplyAll(ent, Fold(ent, log), more), log + more)
  {
    ApplyAllFold(ent, log, more);
    FoldVersion(ent, log + more);
    assert (log + more)[..|log + more|] == log + more;
  }

  ghost predicate AllReplay<S, E, C>(ent: Entity<S, E, C>, actors: map<nat, Cached<S>>, log: seq<Record<E>>) {
    forall id {:trigger ReplaysAt(ent, actors, id, log)} :: id in actors ==> ReplaysAt(ent, actors, id, log)
  }

  ghost predicate ReplaysAt<S, E, C>(ent: Entity<S, E, C>, actors: map<nat, Cached<S>>, id: nat, log: seq<Record<E>>)
    requires id in actors
  {
    ReplaysPrefix(ent, actors[id], log)
  }

  lemma AllExtend<S, E, C>(ent: Entity<S, E, C>, actors: map<nat, Cached<S>>, log: seq<Record<E>>, more: seq<Record<E>>)
    requires AllReplay(ent, actors, log)
    ensures AllReplay(ent, actors, log + more)
  {
    forall id | id in actors ensures ReplaysAt(ent, actors, id, log + more) {
      assert ReplaysAt(ent, actors, id, log);
      PrefixExtends(ent, actors[id], log, more);
    }
  }

  lemma SubmitGood<S, E, C>(ent: Entity<S, E, C>, s: System<S, E, C>, id: nat, cmd: Command<C>, b: Batch<E, C>)
    requires Good(ent, s) && id in s.actors && Attempted(ent, s.actors[id], cmd) == Some(b)
    requires Accepts(|LogOf(s.batches)|, ExpectedFrom(s.actors[id].version, 0, |b.events|))
    ensures var log := LogOf(s.batches + [b]);
            && Serial(ent, s.batches + [b])
            && AllReplay(ent, s.actors, log)
            && AllReplay(ent, s.actors[id := ApplyAll(ent, s.actors[id], Records(b.events, cmd.meta, cmd.time))], log)
  {
    var log, more := LogOf(s.batches), Records(b.events, cmd.meta, cmd.time);
    assert ReplaysAt(ent, s.actors, id, log);
    AcceptedDecidesOnLog(ent, s.actors[id], log, |b.events|);
    SerialAppend(ent, s.batches, b);
    LogAppend(s.batches, b);
    AllExtend(ent, s.actors, log, more);
    OwnAppend(ent, log, more);
    AllReplace(ent, s.actors, id, ApplyAll(ent, s.actors[id], more), log + more);
  }

  lemma StartGood<S, E, C>(ent: Entity<S, E, C>, log: seq<Record<E>>)
    ensures ReplaysPrefix(ent, Initial(ent), log)
  {
    assert log[..0] == [];
  }

  lemma AllReplace<S, E, C>(ent: Entity<S, E, C>, actors: map<nat, Cached<S>>, id: nat, c: Cached<S>,
      log: seq<Record<E>>)
    requires AllReplay(ent, actors, log) && ReplaysPrefix(ent, c, log)
    ensures AllReplay(ent, actors[id := c], log)
  {
    var now := actors[id := c];
    forall i | i in now ensures ReplaysAt(ent, now, i, log) {
      assert i != id ==> ReplaysAt(ent, actors, i, log);
    }
  }

  lemma SubmittedGood<S, E, C>(ent: Entity<S, E, C>, s: System<S, E, C>, id: nat, cmd: Command<C>, io: AppendIo)
    requires Good(ent, s) && id in s.actors
    ensures Good(ent, Submitted(ent, s, id, cmd, io))
  {
    var c, b := s.actors[id], Attempted(ent, s.actors[id], cmd);
    if b.None? || io.Unreachable? || !Accepts(|LogOf(s.batches)|, ExpectedFrom(c.version, 0, |b.value.events|)) {
      assert Submitted(ent, s, id, cmd, io) == s;
    } else {
      SubmitGood(ent, s, id, cmd, b.value);
      var applied := ApplyAll(ent, c, Records(b.value.events, cmd.meta, cmd.time));
      var actors := if io.AnswerLost? then s.actors else s.actors[id := applied];
      assert Submitted(ent, s, id, cmd, io) == System(s.batches + [b.value], actors);
    }
  }

  lemma StartStepGood<S, E, C>(ent: Entity<S, E, C>, s: System<S, E, C>, id: nat)
    requires Good(ent, s)
    ensures Good(ent, Started(ent, s, id))
  {
    StartGood(ent, LogOf(s.batches));
    AllReplace(ent, s.actors, id, Initial(ent), LogOf(s.batches));
  }

  lemma PageAll<S, E, C>(ent: Entity<S, E, C>, actors: map<nat, Cached<S>>, log: seq<Record<E>>, id: nat, count: nat)
    requires AllReplay(ent, actors, log) && id in actors && NextVersion(actors[id].version) + count <= |log|
    ensures var from := NextVersion(actors[id].version);
            AllReplay(ent, actors[id := ApplyAll(ent, actors[id], log[from..from + count])], log)
  {
    var from := NextVersion(actors[id].version);
    assert ReplaysAt(ent, actors, id, log);
    PageReplays(ent, actors[id], log, count);
    AllReplace(ent, actors, id, ApplyAll(ent, actors[id], log[from..from + count]), log);
  }

  lemma PageStepGood<S, E, C>(ent: Entity<S, E, C>, s: System<S, E, C>, id: nat, count: nat)
    requires Good(ent, s) && id in s.actors && NextVersion(s.actors[id].version) + count <= |LogOf(s.batches)|
    ensures Good(ent, Paged(ent, s, id, count))
  {
    PageAll(ent, s.actors, LogOf(s.batches), id, count);
    GoodWith(ent, s.batches, Paged(ent, s, id, count).actors);
  }

  lemma GoodWith<S, E, C>(ent: Entity<S, E, C>, batches: seq<Batch<E, C>>, actors: map<nat, Cached<S>>)
    requires Serial(ent, batches) && AllReplay(ent, actors, LogOf(batches))
    ensures Good(ent, System(batches, actors))
  {}

  /** Every step of every actor keeps the history serial and every cache a replayed prefix. */
  lemma StepGood<S, E, C>(ent: Entity<S, E, C>, s: System<S, E, C>, step: Step<C>)
    requires Good(ent, s) && Enabled(s, step)
    ensures Good(ent, Take(ent, s, step))
  {
    match step
    case Start(id) =>
      StartStepGood(ent, s, id);
      assert Take(ent, s, step) == Started(ent, s, id);
    case Page(id, count) =>
      PageStepGood(ent, s, id, count);
      assert Take(ent, s, step) == Paged(ent, s, id, count);
    case Submit(id, cmd, io) =>
      SubmittedGood(ent, s, id, cmd, io);
      assert Take(ent, s, step) == Submitted(ent, s, id, cmd, io);
  }

  ghost predicate Run<S, E, C>(ent: Entity<S, E, C>, states: seq<System<S, E, C>>, steps: seq<Step<C>>) {
    && |states| == |steps| + 1
    && states[0] == System([], map[])
    && forall i :: 0 <= i < |steps| ==> Enabled(states[i], steps[i]) && states[i + 1] == Take(ent, states[i], steps[i])
  }

  lemma {:induction false} RunGood<S, E, C>(ent: Entity<S, E, C>, states: seq<System<S, E, C>>, steps: seq<Step<C>>,
      i: nat)
    requires Run(ent, states, steps) && i < |states|
    ensures Serial(ent, states[i].batches) && AllReplay(ent, states[i].actors, LogOf(states[i].batches))
  {
    if i > 0 {
      RunGood(ent, states, steps, i - 1);
      StepGood(ent, states[i - 1], steps[i - 1]);
    }
  }

  /** Serial history: in every reachable state, under any interference, every batch in the log is
      what its command decides on the replay of exactly the log before it. */
  lemma SerialHistory<S, E, C>(ent: Entity<S, E, C>, states: seq<System<S, E, C>>, steps: seq<Step<C>>, i: nat, k: nat)
    requires Run(ent, states, steps) && i < |states| && k < |states[i].batches|
    ensures var batches := states[i].batches;
            && batches[k].events != [] && !batches[k].cmd.dryRun
            && Decide(ent, Fold(ent, LogOf(batches[..k])), batches[k].cmd) == Decided(batches[k].events)
  {
    RunGood(ent, states, steps, i);
    var batches := states[i].batches;
    assert Attempted(ent, Fold(ent, LogOf(batches[..k])), batches[k].cmd) == Some(batches[k]);
  }

  /** The same, check by check: every batch in a reachable log met its caller's expected version when
      `n` events were before it, was within the rate limit, had not been executed before, and is what
      the entity answers on the replay of those events. */
  lemma LawfulHistory<S, E, C>(ent: Entity<S, E, C>, states: seq<System<S, E, C>>, steps: seq<Step<C>>, i: nat, k: nat)
    requires Run(ent, states, steps) && i < |states| && k < |states[i].batches|
    ensures var b, before := states[i].batches[k], LogOf(states[i].batches[..k]);
            var c := Fold(ent, before);
            && Meets(b.cmd.expected, |before|) && !Limited(ent, c, b.cmd)
            && !Repeats(ent, c, b.cmd) && Reply(ent, c, b.cmd) == Ok(b.events)
  {
    SerialHistory(ent, states, steps, i, k);
    var b, before := states[i].batches[k], LogOf(states[i].batches[..k]);
    FoldVersion(ent, before);
    DecideIff(ent, Fold(ent, before), b.cmd);
  }

  /** Conversely a command that passes these checks on an actor that has caught up is appended. */
  lemma LawfulAppends<S, E, C>(ent: Entity<S, E, C>, s: System<S, E, C>, id: nat, cmd: Command<C>, events: seq<E>)
    requires Good(ent, s) && id in s.actors && s.actors[id] == Fold(ent, LogOf(s.batches))
    requires Meets(cmd.expected, |LogOf(s.batches)|) && !Limited(ent, s.actors[id], cmd)
    requires !Repeats(ent, s.actors[id], cmd) && Reply(ent, s.actors[id], cmd) == Ok(events)
    requires events != [] && !cmd.dryRun
    ensures var s' := Take(ent, s, Submit(id, cmd, Answered));
            && s'.batches == s.batches + [Batch(cmd, events)] && s'.actors[id] == Fold(ent, LogOf(s'.batches))
            && LogOf(s'.batches) == LogOf(s.batches) + Records(events, cmd.meta, cmd.time)
            && forall j :: 0 <= j < |events| ==>
                 Records(events, cmd.meta, cmd.time)[j] == Record(events[j], cmd.meta, cmd.time)
  {
    var log, b := LogOf(s.batches), Batch(cmd, events);
    FoldVersion(ent, log);
    DecideIff(ent, s.actors[id], cmd);
    assert Attempted(ent, s.actors[id], cmd) == Some(b);
    AcceptsIff(|log|, s.actors[id].version, |events|);
    LogAppend(s.batches, b);
    ApplyAllFold(ent, log, Records(events, cmd.meta, cmd.time));
  }

  /** In every reachable state every cached state is the replay of the log's prefix of its version. */
  lemma CachesReplay<S, E, C>(ent: Entity<S, E, C>, states: seq<System<S, E, C>>, steps: seq<Step<C>>, i: nat, id: nat)
    requires Run(ent, states, steps) && i < |states| && id in states[i].actors
    ensures var log, c := LogOf(states[i].batches), states[i].actors[id];
            NextVersion(c.version) <= |log| && c == Fold(ent, log[..NextVersion(c.version)])
  {
    RunGood(ent, states, steps, i);
    assert ReplaysAt(ent, states[i].actors, id, LogOf(states[i].batches));
  }

  // ---- Caused commands ----

  predicate CausedBy<E, C>(b: Batch<E, C>, stream: string, v: nat) {
    b.cmd.meta.cause == Some(Cause(stream, v))
  }

  lemma {:induction false} BatchRecorded<E, C>(batches: seq<Batch<E, C>>, i: nat, stream: string, v: nat, name: string)
    requires i < |batches| && batches[i].events != [] && Carries(batches[i].cmd.meta, stream, v, name)
    ensures Recorded(Metas(LogOf(batches)), stream, v, name)
  {
    var front, b := batches[..|batches| - 1], batches[|batches| - 1];
    var before, added := LogOf(front), Records(b.events, b.cmd.meta, b.cmd.time);
    var metas := Metas(before + added);
    if i < |front| {
      BatchRecorded(front, i, stream, v, name);
      var k :| 0 <= k < |Metas(before)| && Carries(Metas(before)[k], stream, v, name);
      assert Carries(metas[k], stream, v, name);
    } else {
      assert Carries(metas[|before|], stream, v, name);
    }
  }

  /** At most once: of two batches in a serial log, the later one does not carry the same source
      version and command as the earlier, and its source version is not smaller. */
  lemma CausedOnce<S, E, C>(ent: Entity<S, E, C>, batches: seq<Batch<E, C>>, i: nat, j: nat, stream: string, v: nat,
      v': nat, name: string)
    requires Serial(ent, batches) && i < j < |batches|
    requires Carries(batches[i].cmd.meta, stream, v, name) && CausedBy(batches[j], stream, v')
    ensures v <= v'
    ensures v == v' ==> batches[j].cmd.meta.command != Some(name)
  {
    var before := LogOf(batches[..j]);
    assert Attempted(ent, Fold(ent, LogOf(batches[..i])), batches[i].cmd) == Some(batches[i]);
    assert Attempted(ent, Fold(ent, before), batches[j].cmd) == Some(batches[j]);
    assert batches[..j][i] == batches[i];
    BatchRecorded(batches[..j], i, stream, v, name);
    FoldIndex(ent, before);
    SkipIff(Metas(before), batches[j].cmd.meta);
  }

  /** The same over runs: in every reachable log at most one batch carries a given source stream,
      source version and command name. */
  lemma CausedOnceInRuns<S, E, C>(ent: Entity<S, E, C>, states: seq<System<S, E, C>>, steps: seq<Step<C>>, k: nat,
                                  i: nat, j: nat, stream: string, v: nat, name: string)
    requires Run(ent, states, steps) && k < |states| && i < |states[k].batches| && j < |states[k].batches|
    requires Carries(states[k].batches[i].cmd.meta, stream, v, name)
    requires Carries(states[k].batches[j].cmd.meta, stream, v, name)
    ensures i == j
  {
    RunGood(ent, states, steps, k);
    if i < j {
      CausedOnce(ent, states[k].batches, i, j, stream, v, v, name);
    } else if j < i {
      CausedOnce(ent, states[k].batches, j, i, stream, v, v, name);
    }
  }

  // ---- The guard only sees batches that carry a command ----

  /** A history without command names records nothing, so no cause is ever skipped against it. */
  lemma {:induction false} NamelessNeverSkipped(metas: seq<Metadata>, meta: Metadata)
    requires forall i :: 0 <= i < |metas| ==> metas[i].command.None?
    ensures TrackAll(metas) == map[] && !ShouldSkip(TrackAll(metas), meta)
  {
    if metas != [] {
      NamelessNeverSkipped(metas[..|metas| - 1], meta);
    }
  }

  const ALWAYS: Entity<int, int, int> :=
    Entity(0, (s, e, m) => 0, (s, x, c, m, t) => Ok([0]), (s, c, m) => false, (s, h, c, n) => false)

  function Nameless(v: nat): Batch<int, int> {
    Batch(Command(0, Metadata(None, Some(Cause("source", v))), Any, 0, 0, false), [0])
  }

  lemma {:induction false} NamelessLog(batches: seq<Batch<int, int>>)
    requires forall i :: 0 <= i < |batches| ==> batches[i].cmd.meta.command.None?
    ensures var metas := Metas(LogOf(batches)); forall k :: 0 <= k < |metas| ==> metas[k].command.None?
  {
    if batches != [] {
      var front := batches[..|batches| - 1];
      NamelessLog(front);
      assert forall k :: 0 <= k < |LogOf(front)| ==> Metas(LogOf(front))[k] == LogOf(front)[k].meta;
    }
  }

  lemma NamelessDecides(c: Cached<int>, v: nat)
    requires c.index == map[]
    ensures Attempted(ALWAYS, c, Nameless(v).cmd) == Some(Nameless(v))
  {
    assert Decide(ALWAYS, c, Nameless(v).cmd) == Decided([0]);
  }

  /** So a serial log can execute any sequence of source versions, repeated or decreasing. */
  lemma NamelessCausesRepeat(vs: seq<nat>)
    ensures Serial(ALWAYS, seq(|vs|, i requires 0 <= i < |vs| => Nameless(vs[i])))
  {
    var bs := seq(|vs|, i requires 0 <= i < |vs| => Nameless(vs[i]));
    forall i | 0 <= i < |bs|
      ensures Attempted(ALWAYS, Fold(ALWAYS, LogOf(bs[..i])), bs[i].cmd) == Some(bs[i])
    {
      NamelessPrefix(bs[..i]);
      NamelessDecides(Fold(ALWAYS, LogOf(bs[..i])), vs[i]);
    }
  }

  lemma NamelessPrefix(batches: seq<Batch<int, int>>)
    requires forall i :: 0 <= i < |batches| ==> batches[i].cmd.meta.command.None?
    ensures Fold(ALWAYS, LogOf(batches)).index == map[]
  {
    var log := LogOf(batches);
    NamelessLog(batches);
    FoldIndex(ALWAYS, log);
    NamelessNeverSkipped(Metas(log), Metadata(None, None));
  }
}
