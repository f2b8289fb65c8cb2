/** Causation metadata and the index an entity keeps of the causes it has processed. */
module Causation {
  import opened Wrappers

  /** The event that caused a command: its stream and its version there. */
  datatype Cause = Cause(stream: string, version: nat)

  datatype Metadata = Metadata(command: Option<string>, cause: Option<Cause>)

  /** Per source stream, the highest causing version and the commands recorded at it. */
  datatype Seen = Seen(max: nat, commands: set<string>)

  type Index = map<string, Seen>

  datatype Check = Fine | NoCausation | AlreadyProcessed | OutOfOrder(received: nat, maxSeen: nat)

  function CheckCausation(index: Index, meta: Metadata): Check {
    match meta.cause
    case None => NoCausation
    case Some(c) =>
      if c.stream !in index then Fine
      else
        var seen := index[c.stream];
        if c.version < seen.max then OutOfOrder(c.version, seen.max)
        else if c.version == seen.max && meta.command.Some? && meta.command.value in seen.commands then AlreadyProcessed
        else Fine
  }

  predicate ShouldSkip(index: Index, meta: Metadata) {
    match CheckCausation(index, meta)
    case Fine => false
    case NoCausation => false
    case AlreadyProcessed => true
    case OutOfOrder(_, _) => true
  }

  /** The index after an event with this metadata: only events that carry both a command and a
      cause are recorded. */
  function Track(index: Index, meta: Metadata): Index {
    if meta.command.None? || meta.cause.None? then index
    else
      var cmd, c := meta.command.value, meta.cause.value;
      if c.stream !in index || c.version > index[c.stream].max then index[c.stream := Seen(c.version, {cmd})]
      else if c.version == index[c.stream].max
      then index[c.stream := Seen(c.version, index[c.stream].commands + {cmd})]
      else index
  }

  function TrackAll(metas: seq<Metadata>): Index {
    if metas == [] then map[] else Track(TrackAll(metas[..|metas| - 1]), metas[|metas| - 1])
  }

  /** The event carries command `cmd`, caused by version `v` of `stream`. */
  predicate Carries(meta: Metadata, stream: string, v: nat, cmd: string) {
    meta.command == Some(cmd) && meta.cause == Some(Cause(stream, v))
  }

  ghost predicate Recorded(metas: seq<Metadata>, stream: string, v: nat, cmd: string) {
    exists i :: 0 <= i < |metas| && Carries(metas[i], stream, v, cmd)
  }

  /** What a scan of the whole history finds for one source stream. */
  ghost predicate Scans(metas: seq<Metadata>, index: Index, stream: string) {
    && (stream !in index ==> forall v: nat, cmd :: !Recorded(metas, stream, v, cmd))
    && (stream in index ==>
         && (forall v: nat, cmd :: Recorded(metas, stream, v, cmd) ==> v <= index[stream].max)
         && (forall cmd :: cmd in index[stream].commands <==> Recorded(metas, stream, index[stream].max, cmd))
         && index[stream].commands != {})
  }

  lemma RecordedExtend(metas: seq<Metadata>, m: Metadata, stream: string, v: nat, cmd: string)
    ensures Recorded(metas + [m], stream, v, cmd) <==> Recorded(metas, stream, v, cmd) || Carries(m, stream, v, cmd)
  {
    if Recorded(metas, stream, v, cmd) {
      var i :| 0 <= i < |metas| && Carries(metas[i], stream, v, cmd);
      assert Carries((metas + [m])[i], stream, v, cmd);
    }
    if Carries(m, stream, v, cmd) {
      assert Carries((metas + [m])[|metas|], stream, v, cmd);
    }
  }

  /** The incremental index equals a scan of the whole history, for every sequence of events,
      out-of-order causes included. */
  lemma {:induction false} TrackAllScans(metas: seq<Metadata>, stream: string)
    ensures Scans(metas, TrackAll(metas), stream)
  {
    if metas != [] {
      var front, m := metas[..|metas| - 1], metas[|metas| - 1];
      TrackAllScans(front, stream);
      assert metas == front + [m];
      forall v: nat, cmd
        ensures Recorded(metas, stream, v, cmd) <==> Recorded(front, stream, v, cmd) || Carries(m, stream, v, cmd)
      {
        RecordedExtend(front, m, stream, v, cmd);
      }
      TrackScans(TrackAll(front), front, metas, m, stream);
    }
  }

  lemma TrackScans(index: Index, front: seq<Metadata>, metas: seq<Metadata>, m: Metadata, stream: string)
    requires Scans(front, index, stream)
    requires forall v: nat, cmd :: Recorded(metas, stream, v, cmd) <==>
              Recorded(front, stream, v, cmd) || Carries(m, stream, v, cmd)
    ensures Scans(metas, Track(index, m), stream)
  {
    var index' := Track(index, m);
    if stream in index' && index' != index && m.cause.value.stream == stream {
      var cmd := m.command.value;
      assert Carries(m, stream, m.cause.value.version, cmd);
      assert stream in index ==> exists c :: c in index[stream].commands;
    }
  }

  /** The check read through the history: a command is skipped exactly when a later version of its
      source was recorded, or the same version with the same command and no later one. */
  lemma SkipIff(metas: seq<Metadata>, meta: Metadata)
    ensures ShouldSkip(TrackAll(metas), meta) <==>
              meta.cause.Some? &&
              var c := meta.cause.value;
              || (exists v: nat, cmd :: v > c.version && Recorded(metas, c.stream, v, cmd))
              || (meta.command.Some? && Recorded(metas, c.stream, c.version, meta.command.value))
  {
    if meta.cause.Some? {
      var c, index := meta.cause.value, TrackAll(metas);
      TrackAllScans(metas, c.stream);
      if c.stream in index && c.version < index[c.stream].max {
        var cmd :| cmd in index[c.stream].commands;
        assert Recorded(metas, c.stream, index[c.stream].max, cmd);
      }
    }
  }
}
