/** The Postgres side of a projection: committed tables, an open transaction, and what it
    means for the projected effects to cover a partition exactly. */
module ProjectionStore {
  /** Coordinates of one event: its partition and its 0-based sequence there. */
  datatype EventRef = EventRef(partition: nat, sequence: nat)

  /** Committed state: the effects of the handler in commit order, one checkpoint row per
      partition, and the dead-letter rows with their `attempts` counters. */
  datatype Database = Database(
    effects: seq<EventRef>, checkpoints: map<nat, nat>, deadLetters: map<EventRef, nat>)

  /** An open transaction: its uncommitted writes, and whether it can still execute
      statements (`broken` after a failed statement outside a savepoint). */
  datatype Transaction = Transaction(
    effects: seq<EventRef>, checkpoints: map<nat, nat>, deadLetters: map<EventRef, nat>, broken: bool)

  const FRESH := Transaction([], map[], map[], false)

  /** COMMIT. Committing a transaction in the failed state rolls it back without an error. */
  function Commit(db: Database, tx: Transaction): Database {
    if tx.broken then db
    else Database(db.effects + tx.effects, db.checkpoints + tx.checkpoints, db.deadLetters + tx.deadLetters)
  }

  /** `attempts` after INSERT .. ON CONFLICT DO UPDATE SET attempts = attempts + 1. */
  function Attempts(rows: map<EventRef, nat>, e: EventRef): nat {
    if e in rows then rows[e] + 1 else 1
  }

  /** First sequence not covered by a watermark map. */
  function Next(watermarks: map<nat, nat>, p: nat): nat {
    if p in watermarks then watermarks[p] + 1 else 0
  }

  /** The sequences of partition `p` among the effects, in order of application. */
  function AppliedTo(effects: seq<EventRef>, p: nat): seq<nat> {
    if effects == [] then []
    else
      var last := effects[|effects| - 1];
      AppliedTo(effects[..|effects| - 1], p) + (if last.partition == p then [last.sequence] else [])
  }

  /** The sequences below `n` of partition `p` that are not dead-lettered, in order. */
  function Survivors(dead: map<EventRef, nat>, p: nat, n: nat): seq<nat> {
    if n == 0 then []
    else Survivors(dead, p, n - 1) + (if EventRef(p, n - 1) in dead then [] else [n - 1])
  }

  /** The effects of `p` are exactly its events below `n` that are not dead-lettered, each
      once and in order, and every dead letter lies below `n`, seen once. */
  ghost predicate Exact(effects: seq<EventRef>, dead: map<EventRef, nat>, p: nat, n: nat) {
    && AppliedTo(effects, p) == Survivors(dead, p, n)
    && forall k: nat :: EventRef(p, k) in dead ==> k < n && dead[EventRef(p, k)] == 1
  }

  /** Every partition is projected exactly up to its committed checkpoint. */
  ghost predicate Projected(db: Database) {
    forall p: nat :: Exact(db.effects, db.deadLetters, p, Next(db.checkpoints, p))
  }

  /** An event is lost: below the committed checkpoint, neither applied nor dead-lettered. */
  ghost predicate Lost(db: Database, x: EventRef) {
    x.sequence < Next(db.checkpoints, x.partition) && x !in db.effects && x !in db.deadLetters
  }

  lemma {:induction false} AppliedConcat(a: seq<EventRef>, b: seq<EventRef>, p: nat)
    ensures AppliedTo(a + b, p) == AppliedTo(a, p) + AppliedTo(b, p)
  {
    if b == [] {
      assert a + b == a;
    } else {
      var front := b[..|b| - 1];
      assert (a + b)[..|a + b| - 1] == a + front;
      AppliedConcat(a, front, p);
    }
  }

  lemma {:induction false} AppliedMember(effects: seq<EventRef>, p: nat, k: nat)
    ensures k in AppliedTo(effects, p) <==> EventRef(p, k) in effects
  {
    if effects != [] {
      var front, last := effects[..|effects| - 1], effects[|effects| - 1];
      AppliedMember(front, p, k);
      assert effects == front + [last];
    }
  }

  /** Survivors are the non-dead sequences below `n`, strictly increasing: no repetition. */
  lemma {:induction false} SurvivorsMember(dead: map<EventRef, nat>, p: nat, n: nat, k: nat)
    ensures k in Survivors(dead, p, n) <==> k < n && EventRef(p, k) !in dead
  {
    if n > 0 {
      SurvivorsMember(dead, p, n - 1, k);
    }
  }

  lemma {:induction false} SurvivorsIncrease(dead: map<EventRef, nat>, p: nat, n: nat)
    ensures forall i, j :: 0 <= i < j < |Survivors(dead, p, n)| ==> Survivors(dead, p, n)[i] < Survivors(dead, p, n)[j]
    ensures forall i :: 0 <= i < |Survivors(dead, p, n)| ==> Survivors(dead, p, n)[i] < n
  {
    if n > 0 {
      SurvivorsIncrease(dead, p, n - 1);
    }
  }

  /** Survivors depend only on the dead letters of `p` below `n`. */
  lemma {:induction false} SurvivorsFrame(d0: map<EventRef, nat>, d1: map<EventRef, nat>, p: nat, n: nat)
    requires forall k: nat :: k < n ==> (EventRef(p, k) in d0 <==> EventRef(p, k) in d1)
    ensures Survivors(d0, p, n) == Survivors(d1, p, n)
  {
    if n > 0 {
      SurvivorsFrame(d0, d1, p, n - 1);
    }
  }

  /** Below an exact watermark every event is applied or dead-lettered, never both, never
      neither. Above it, it is neither. */
  lemma ExactCovers(effects: seq<EventRef>, dead: map<EventRef, nat>, p: nat, n: nat, k: nat)
    requires Exact(effects, dead, p, n)
    ensures k < n ==> (EventRef(p, k) in effects <==> EventRef(p, k) !in dead)
    ensures k >= n ==> EventRef(p, k) !in effects && EventRef(p, k) !in dead
  {
    AppliedMember(effects, p, k);
    SurvivorsMember(dead, p, n, k);
  }

  /** Applying the next event of `p` moves its exact watermark by one; other partitions keep theirs. */
  lemma ExactApply(effects: seq<EventRef>, dead: map<EventRef, nat>, e: EventRef, p: nat, n: nat)
    requires Exact(effects, dead, p, n)
    requires e.partition == p ==> e.sequence == n
    ensures Exact(effects + [e], dead, p, if e.partition == p then n + 1 else n)
  {
    assert (effects + [e])[..|effects + [e]| - 1] == effects;
    assert e.partition == p ==> EventRef(p, n) !in dead;
  }

  /** Dead-lettering the next event of `p` moves its exact watermark by one; other partitions keep theirs. */
  lemma ExactBury(effects: seq<EventRef>, dead: map<EventRef, nat>, e: EventRef, p: nat, n: nat)
    requires Exact(effects, dead, p, n)
    requires e.partition == p ==> e.sequence == n
    ensures Exact(effects, dead[e := 1], p, if e.partition == p then n + 1 else n)
  {
    SurvivorsFrame(dead, dead[e := 1], p, n);
  }
}
