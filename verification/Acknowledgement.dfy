/** The subscription's acknowledgement batches: which cursors are sent back to the event store while
    a handler runs and when it stops. */
module Acknowledgement {
  import opened Wrappers

  const SUBSCRIPTION_WINDOW := 10_000
  const BATCH_SIZE := 8_000

  /** The acknowledgements owed after processing `p`: the cursor of every full batch's last event. */
  function Batches(p: seq<nat>): (r: seq<nat>)
    ensures |r| == |p| / BATCH_SIZE
    ensures forall k :: 0 <= k < |r| ==> r[k] == p[(k + 1) * BATCH_SIZE - 1]
  {
    seq(|p| / BATCH_SIZE, k requires 0 <= k < |p| / BATCH_SIZE => p[(k + 1) * BATCH_SIZE - 1])
  }

  /** The acknowledgements after a clean exit: the partial batch is flushed too. */
  function Flushed(p: seq<nat>): seq<nat> {
    if |p| % BATCH_SIZE != 0 then Batches(p) + [p[|p| - 1]] else Batches(p)
  }

  /** Processed events behind the last of the batch acknowledgements sent. */
  function Unacked(p: seq<nat>, acked: seq<nat>): int { |p| - |acked| * BATCH_SIZE }

  predicate Increasing(s: seq<nat>) {
    forall i, j :: 0 <= i < j < |s| ==> s[i] < s[j]
  }

  /** While running: acknowledgements strictly increase, name processed cursors only, and cover all
      but fewer than a batch of the processed events, so the delivery window never fills. */
  lemma BatchesOrdered(p: seq<nat>)
    requires Increasing(p)
    ensures Increasing(Batches(p)) && (forall c :: c in Batches(p) ==> c in p)
    ensures |p| - |Batches(p)| * BATCH_SIZE < BATCH_SIZE < SUBSCRIPTION_WINDOW
    ensures forall i :: |Batches(p)| * BATCH_SIZE <= i < |p| ==> forall c :: c in Batches(p) ==> c < p[i]
  {
  }

  /** After a clean exit every processed event is covered by the last acknowledgement, which is the
      last processed cursor and is sent once. */
  lemma FlushedCovers(p: seq<nat>)
    requires Increasing(p) && p != []
    ensures var a := Flushed(p); Increasing(a) && a != [] && a[|a| - 1] == p[|p| - 1] && (forall c :: c in a ==> c in p)
  {
    BatchesOrdered(p);
  }

  lemma {:induction false} BatchesExtend(p: seq<nat>, c: nat)
    ensures Batches(p + [c]) == if (|p| + 1) % BATCH_SIZE == 0 then Batches(p) + [c] else Batches(p)
  {
  }

  class AckTracker {
    var since: nat
    var last: Option<nat>

    constructor ()
      ensures since == 0 && last == None
    {
      since, last := 0, None;
    }

    /** The tracker agrees with the history `p` of processed cursors. */
    predicate Tracks(p: seq<nat>)
      reads this
    {
      since == |p| % BATCH_SIZE && last == if p == [] then None else Some(p[|p| - 1])
    }

    method Processed(cursor: nat, ghost p: seq<nat>) returns (r: Option<nat>)
      requires Tracks(p)
      modifies this
      ensures Tracks(p + [cursor])
      ensures Batches(p + [cursor]) == Batches(p) + if r.Some? then [r.value] else []
    {
      BatchesExtend(p, cursor);
      since, last := since + 1, Some(cursor);
      if since >= BATCH_SIZE {
        since := 0;
        r := Some(cursor);
      } else {
        r := None;
      }
    }

    method Flush(ghost p: seq<nat>) returns (r: Option<nat>)
      requires Tracks(p)
      modifies this
      ensures since == 0 && last == old(last)
      ensures Flushed(p) == Batches(p) + if r.Some? then [r.value] else []
    {
      if since > 0 {
        since := 0;
        r := last;
      } else {
        r := None;
      }
    }
  }

  /** One subscription message, with the outcome of what the loop does with it: of the handler or
      the dead letter, and of the acknowledgement if one falls due. */
  datatype Message =
    | Confirmed
    | Failed
    | Event(cursor: nat, decodable: bool, handled: bool, ackOk: bool)

  function Cursors(ms: seq<Message>): seq<nat> {
    if ms == [] then []
    else Cursors(ms[..|ms| - 1]) + if ms[|ms| - 1].Event? then [ms[|ms| - 1].cursor] else []
  }

  class Subscription {
    const tracker: AckTracker
    var processed: seq<nat>
    var acked: seq<nat>

    constructor ()
      ensures fresh(tracker) && tracker.Tracks([]) && processed == [] && acked == []
    {
      tracker := new AckTracker();
      processed, acked := [], [];
    }

    /** Process one event, or dead-letter an undecodable one, then acknowledge when due. */
    method Process(m: Message) returns (ok: bool)
      requires m.Event? && tracker.Tracks(processed) && acked == Batches(processed)
      modifies this, tracker
      ensures processed == if m.handled then old(processed) + [m.cursor] else old(processed)
      ensures ok ==> m.handled && tracker.Tracks(processed) && acked == Batches(processed)
      ensures !ok ==> !(m.handled && m.ackOk) && Owed(processed, acked)
      ensures !ok && m.handled ==> Batches(processed) == acked + [m.cursor]
    {
      BatchesOwed(processed);
      if !m.handled {
        return false;
      }
      var due := tracker.Processed(m.cursor, processed);
      OneOwed(processed, m.cursor);
      processed := processed + [m.cursor];
      if due.Some? {
        if !m.ackOk {
          return false;
        }
        acked := acked + [due.value];
      }
      ok := true;
    }

    /** Handles the messages until they end or one stops the run. */
    method Drain(ms: seq<Message>) returns (ok: bool, ghost stop: nat)
      requires tracker.Tracks([]) && processed == [] && acked == []
      modifies this, tracker
      ensures ok ==> tracker.Tracks(processed) && processed == Cursors(ms) && acked == Batches(processed)
      ensures !ok ==> stop < |ms| && Stops(ms[stop]) && processed <= Cursors(ms[..stop + 1]) <= Cursors(ms)
      ensures !ok ==> Owed(processed, acked)
    {
      stop := 0;
      var k := 0;
      while k < |ms|
        invariant 0 <= k <= |ms| && tracker.Tracks(processed)
        invariant processed == Cursors(ms[..k]) && acked == Batches(processed)
      {
        CursorsNext(ms, k);
        if ms[k].Failed? {
          BatchesOwed(processed);
          return false, k;
        }
        if ms[k].Event? {
          var done := Process(ms[k]);
          if !done {
            return false, k;
          }
        }
        k := k + 1;
      }
      assert ms[..k] == ms;
      ok := true;
    }

    /** A run of a new subscription to its end or its first error. What was acknowledged is always a
        prefix of what the processed events call for, so no unprocessed event is acknowledged; on a
        clean exit every delivered event was processed and acknowledged; on an error exit fewer than a
        batch of processed events is unacknowledged, or exactly one if a due acknowledgement failed. */
    method Run(ms: seq<Message>, flushOk: bool) returns (ok: bool, ghost stop: nat)
      requires tracker.Tracks([]) && processed == [] && acked == []
      modifies this, tracker
      ensures acked <= Flushed(processed) && processed <= Cursors(ms)
      ensures ok ==> processed == Cursors(ms) && acked == Flushed(processed)
      ensures !ok ==> Owed(processed, acked)
      ensures !ok && flushOk ==> stop < |ms| && processed <= Cursors(ms[..stop + 1]) && Stops(ms[stop])
      ensures (forall k :: 0 <= k < |ms| ==> !Stops(ms[k])) && flushOk ==> ok
    {
      ok, stop := Drain(ms);
      if !ok {
        return;
      }
      BatchesOwed(processed);
      var due := tracker.Flush(processed);
      if due.Some? {
        if !flushOk {
          return false, stop;
        }
        acked := acked + [due.value];
      }
    }
  }

  /** What was acknowledged when a run ends with an error: all batches that fell due, with fewer than
      a batch processed behind them; or all but the last of them, with exactly that batch behind. */
  predicate Owed(p: seq<nat>, acked: seq<nat>) {
    && acked <= Batches(p)
    && if acked == Batches(p) then Unacked(p, acked) < BATCH_SIZE else Unacked(p, acked) == BATCH_SIZE
  }

  lemma BatchesOwed(p: seq<nat>)
    ensures Owed(p, Batches(p))
  {}

  lemma OneOwed(p: seq<nat>, c: nat)
    ensures Batches(p + [c]) == Batches(p) + [c] ==> Owed(p + [c], Batches(p))
  {
    if Batches(p + [c]) == Batches(p) + [c] {
      assert |Batches(p + [c])| == |Batches(p)| + 1;
    }
  }

  lemma CursorsNext(ms: seq<Message>, k: nat)
    requires k < |ms|
    ensures Cursors(ms[..k + 1]) == Cursors(ms[..k]) + if ms[k].Event? then [ms[k].cursor] else []
    ensures Cursors(ms[..k]) <= Cursors(ms[..k + 1]) <= Cursors(ms)
  {
    assert ms[..k + 1][..k] == ms[..k];
    CursorsPrefix(ms, k + 1);
  }

  /** A message that can end the run with an error. */
  predicate Stops(m: Message) {
    m.Failed? || (m.Event? && !(m.handled && m.ackOk))
  }

  lemma {:induction false} CursorsPrefix(ms: seq<Message>, k: nat)
    requires k <= |ms|
    ensures Cursors(ms[..k]) <= Cursors(ms)
    decreases |ms| - k
  {
    if k == |ms| {
      assert ms[..k] == ms;
    } else {
      CursorsPrefix(ms, k + 1);
      assert ms[..k + 1][..k] == ms[..k];
    }
  }
}
