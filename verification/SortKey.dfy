/** Lexical sort keys: order, validation, and the key inserted between two siblings. Keys are ASCII
    strings, given as their bytes. */
module SortKey {
  import opened Wrappers

  type Ascii = x: int | 0 <= x < 128
  type Key = seq<Ascii>

  const MIN_BYTE: Ascii := 33
  const MAX_BYTE: Ascii := 126
  const MAX_LEN := 64

  datatype Error = Empty | InvalidChar | TooLong(limit: nat) | NoRoom

  predicate InAlphabet(s: Key) {
    forall i :: 0 <= i < |s| ==> MIN_BYTE <= s[i] <= MAX_BYTE
  }

  predicate Valid(s: Key) {
    0 < |s| <= MAX_LEN && InAlphabet(s)
  }

  function New(s: Key): (r: Result<Key, Error>)
    ensures r.Ok? <==> Valid(s)
    ensures r.Ok? ==> r.value == s
    ensures r == Err(Empty) <==> s == []
    ensures r == Err(TooLong(64)) <==> |s| > 64
    ensures r == Err(InvalidChar) <==> 0 < |s| <= 64 && exists i :: 0 <= i < |s| && !(33 <= s[i] <= 126)
  {
    if s == [] then Err(Empty)
    else if |s| > MAX_LEN then Err(TooLong(MAX_LEN))
    else if !InAlphabet(s) then Err(InvalidChar)
    else Ok(s)
  }

  /** Byte order of strings, as in the read model's ORDER BY. */
  predicate Less(a: Key, b: Key) {
    b != [] && (a == [] || a[0] < b[0] || (a[0] == b[0] && Less(a[1..], b[1..])))
  }

  /** `i` is the length of the longest common prefix. */
  predicate Diverge(a: Key, b: Key, i: nat) {
    i <= |a| && i <= |b| && a[..i] == b[..i] && (i == |a| || i == |b| || a[i] != b[i])
  }

  /** The order is decided at the first difference. */
  lemma {:induction false} LessAt(a: Key, b: Key, i: nat)
    requires Diverge(a, b, i)
    ensures Less(a, b) <==> i < |b| && (i == |a| || a[i] < b[i])
    decreases i
  {
    if i > 0 {
      assert a[0] == a[..i][0] == b[..i][0] == b[0];
      assert a[1..][..i - 1] == a[..i][1..] == b[..i][1..] == b[1..][..i - 1];
      LessAt(a[1..], b[1..], i - 1);
    }
  }

  function Prefix(a: Key, b: Key): (i: nat)
    ensures Diverge(a, b, i)
  {
    if a == [] || b == [] || a[0] != b[0] then 0
    else
      var j := Prefix(a[1..], b[1..]);
      assert a[..j + 1] == [a[0]] + a[1..][..j] && b[..j + 1] == [b[0]] + b[1..][..j];
      j + 1
  }

  lemma PrefixAgrees(a: Key, b: Key, i: nat)
    requires i <= |a| && i <= |b| && a[..i] == b[..i]
    ensures forall k :: 0 <= k < i ==> a[k] == b[k]
  {
    assert forall k :: 0 <= k < i ==> a[k] == a[..i][k] && b[k] == b[..i][k];
  }

  lemma DivergeUnique(a: Key, b: Key, i: nat, j: nat)
    requires Diverge(a, b, i) && Diverge(a, b, j)
    ensures i == j
  {
    PrefixAgrees(a, b, i);
    PrefixAgrees(a, b, j);
  }

  predicate Apart(lo: int, hi: int) { hi > lo + 1 }

  /** At the first difference a whole byte fits strictly between the bounds. */
  predicate HasGap(a: Key, b: Key) {
    var i := Prefix(a, b);
    i < |a| && i < |b| && Apart(a[i], b[i])
  }

  function Middle(a: Key, b: Key): Key {
    if HasGap(a, b) then a[..Prefix(a, b)] + [a[Prefix(a, b)] + 1] else a + [MIN_BYTE]
  }

  function Midpoint(a: Key, b: Key): Result<Key, Error> {
    if a == [] || b == [] then Err(Empty)
    else if !Less(a, b) then Err(NoRoom)
    else New(Middle(a, b))
  }

  /** The loop over the common prefix computes the specified key. */
  method InsertBetween(a: Key, b: Key) returns (r: Result<Key, Error>)
    ensures r == Midpoint(a, b)
  {
    if a == [] || b == [] {
      return Err(Empty);
    }
    if !Less(a, b) {
      return Err(NoRoom);
    }
    var i := 0;
    while i < |a| && i < |b| && a[i] == b[i]
      invariant 0 <= i <= |a| && i <= |b| && a[..i] == b[..i]
      decreases |a| - i
    {
      i := i + 1;
    }
    DivergeUnique(a, b, i, Prefix(a, b));
    if i < |a| && i < |b| {
      var lo, hi := a[i], b[i];
      if Apart(lo, hi) {
        return New(a[..i] + [lo + 1]);
      }
      return New(a + [MIN_BYTE]);
    }
    return New(a + [MIN_BYTE]);
  }

  lemma ExtendBelow(a: Key, b: Key)
    requires InAlphabet(b) && Less(a, b) && !HasGap(a, b)
    ensures Less(a, a + [MIN_BYTE])
    ensures Less(a + [MIN_BYTE], b) <==> b != a + [MIN_BYTE]
  {
    var i, m := Prefix(a, b), a + [MIN_BYTE];
    LessAt(a, b, i);
    assert m[..|a|] == a;
    LessAt(a, m, |a|);
    if i < |a| {
      assert m[..i] == a[..i];
      LessAt(m, b, i);
    } else if b[|a|] > MIN_BYTE {
      LessAt(m, b, |a|);
    } else {
      assert m == b[..|a| + 1];
      assert m[..|a| + 1] == m;
      LessAt(m, b, |a| + 1);
    }
  }

  lemma StepInside(a: Key, b: Key)
    requires Less(a, b) && HasGap(a, b)
    ensures var m := Middle(a, b); Less(a, m) && Less(m, b) && !HasGap(a, m)
  {
    var i := Prefix(a, b);
    var m := a[..i] + [a[i] + 1];
    assert m[..i] == a[..i];
    LessAt(a, m, i);
    LessAt(m, b, i);
    DivergeUnique(a, m, i, Prefix(a, m));
  }

  /** The candidate lies above `a`, and below `b` in every case but one. */
  lemma MiddleBetween(a: Key, b: Key)
    requires InAlphabet(a) && InAlphabet(b) && Less(a, b)
    ensures var m := Middle(a, b); InAlphabet(m) && Less(a, m) && (Less(m, b) <==> b != a + [MIN_BYTE])
  {
    if HasGap(a, b) {
      StepInside(a, b);
      NoGapBehind(a);
    } else {
      ExtendBelow(a, b);
    }
  }

  /** A key between two valid bounds: valid, one longer than `a` at most, above `a`, and below `b`
      in every case but one, where the code hands back `b` itself. */
  lemma MidpointBetween(a: Key, b: Key)
    requires Valid(a) && Valid(b) && Midpoint(a, b).Ok?
    ensures var m := Midpoint(a, b).value;
            && Valid(m) && |m| <= |a| + 1 && Less(a, m)
            && (Less(m, b) <==> b != a + [MIN_BYTE]) && (b == a + [MIN_BYTE] ==> m == b)
  {
    MiddleBetween(a, b);
    NoGapBehind(a);
  }

  lemma MidpointEmpty(a: Key, b: Key)
    ensures Midpoint(a, b) == Err(Empty) <==> a == [] || b == []
  {}

  /** Exactly when and how insertion is refused. */
  lemma MidpointFails(a: Key, b: Key)
    requires Valid(a) && Valid(b)
    ensures Midpoint(a, b) == Err(NoRoom) <==> !Less(a, b)
    ensures Midpoint(a, b) == Err(TooLong(MAX_LEN)) <==> Less(a, b) && |a| == MAX_LEN && !HasGap(a, b)
    ensures Midpoint(a, b).Ok? <==> Less(a, b) && (|a| < MAX_LEN || HasGap(a, b))
  {
    if Less(a, b) {
      MiddleBetween(a, b);
    }
  }

  /** The one non-strict case is the one where no key of any length lies between the bounds. */
  lemma RoomIff(a: Key, b: Key)
    requires Valid(a) && Valid(b) && Less(a, b)
    ensures (exists k :: InAlphabet(k) && Less(a, k) && Less(k, b)) <==> b != a + [MIN_BYTE]
  {
    MiddleBetween(a, b);
    if b == a + [MIN_BYTE] {
      forall k | InAlphabet(k) && Less(a, k) ensures !Less(k, b) {
        NothingBetween(a, k);
      }
    }
  }

  lemma NothingBetween(a: Key, k: Key)
    requires InAlphabet(k) && Less(a, k)
    ensures !Less(k, a + [MIN_BYTE])
  {
    var i, b := Prefix(a, k), a + [MIN_BYTE];
    LessAt(a, k, i);
    assert b[..|a|] == a;
    if i < |a| {
      assert b[..i] == a[..i];
      LessAt(k, b, i);
    } else if k[|a|] > MIN_BYTE {
      LessAt(k, b, |a|);
    } else {
      assert k[..|a| + 1] == b == b[..|a| + 1];
      LessAt(k, b, |a| + 1);
    }
  }

  /** Inserting twice directly behind `a` uses up the room there: the second insertion succeeds
      exactly when `a` can grow, its key is `a!`, and the third returns that same key again. */
  lemma ThirdInsertCollides(a: Key, b: Key)
    requires Valid(a) && Valid(b) && Midpoint(a, b).Ok?
    ensures var m2 := Midpoint(a, Midpoint(a, b).value);
            && (m2.Ok? <==> |a| < MAX_LEN)
            && (m2.Ok? ==> m2.value == a + [MIN_BYTE] && Midpoint(a, m2.value) == m2)
  {
    MiddleTight(a, b);
    MidpointFails(a, Midpoint(a, b).value);
    if |a| < MAX_LEN {
      Extends(a, Midpoint(a, b).value);
      NoGapBehind(a);
      LessAt(a, a + [MIN_BYTE], |a|);
      Extends(a, a + [MIN_BYTE]);
    }
  }

  lemma MiddleTight(a: Key, b: Key)
    requires InAlphabet(a) && InAlphabet(b) && Less(a, b)
    ensures Less(a, Middle(a, b)) && !HasGap(a, Middle(a, b))
  {
    if HasGap(a, b) {
      StepInside(a, b);
    } else {
      NoGapBehind(a);
      MiddleBetween(a, b);
    }
  }

  lemma Extends(a: Key, b: Key)
    requires Valid(a) && |a| < MAX_LEN && Less(a, b) && !HasGap(a, b)
    ensures Midpoint(a, b) == Ok(a + [MIN_BYTE])
  {}

  lemma NoGapBehind(a: Key)
    ensures Diverge(a, a + [MIN_BYTE], |a|) && !HasGap(a, a + [MIN_BYTE])
  {
    assert (a + [MIN_BYTE])[..|a|] == a;
    DivergeUnique(a, a + [MIN_BYTE], |a|, Prefix(a, a + [MIN_BYTE]));
  }

  /** The bytes of `a` behind the first difference leave room to step up, or `b` goes on behind it. */
  predicate RoomBehind(a: Key, b: Key, i: nat) {
    |b| > i + 1 || exists j :: i < j < |a| && a[j] < MAX_BYTE
  }

  lemma StepUp(a: Key, b: Key, j: nat)
    requires Valid(a) && Less(a, b) && Prefix(a, b) < j < |a| && a[j] < MAX_BYTE
    ensures var k := a[..j] + [a[j] + 1]; Valid(k) && Less(a, k) && Less(k, b)
  {
    var i, k := Prefix(a, b), a[..j] + [a[j] + 1];
    LessAt(a, b, i);
    assert k[..j] == a[..j] && k[..i] == a[..i];
    LessAt(a, k, j);
    LessAt(k, b, i);
  }

  lemma CutBack(a: Key, b: Key)
    requires Valid(b) && Less(a, b) && Prefix(a, b) < |a| && |b| > Prefix(a, b) + 1
    ensures var k := b[..Prefix(a, b) + 1]; Valid(k) && Less(a, k) && Less(k, b)
  {
    var i := Prefix(a, b);
    var k := b[..i + 1];
    LessAt(a, b, i);
    assert k[..i] == b[..i] && k[..i + 1] == b[..i + 1];
    LessAt(a, k, i);
    LessAt(k, b, i + 1);
  }

  lemma NoRoomBehind(a: Key, b: Key, k: Key)
    requires Valid(a) && Less(a, b) && |a| == MAX_LEN && !HasGap(a, b) && !RoomBehind(a, b, Prefix(a, b))
    requires Prefix(a, b) < |a| && Valid(k) && Less(a, k)
    ensures !Less(k, b)
  {
    var i, m := Prefix(a, b), Prefix(a, k);
    LessAt(a, b, i);
    LessAt(a, k, m);
    PrefixAgrees(a, b, i);
    PrefixAgrees(a, k, m);
    assert forall j :: i < j < |a| ==> a[j] == MAX_BYTE;
    assert m <= i;
    if m == i && k[i] == b[i] {
      assert k[..i + 1] == b[..i + 1] == b;
      LessAt(k, b, i + 1);
    } else {
      assert k[..m] == b[..m];
      LessAt(k, b, m);
    }
  }

  /** A refusal for length is wrong, in that a valid key does lie between the bounds, exactly when
      `b` goes on behind the first difference or `a` can step up somewhere behind it. */
  lemma RefusedRoomIff(a: Key, b: Key)
    requires Valid(a) && Valid(b) && Midpoint(a, b) == Err(TooLong(MAX_LEN))
    ensures (exists k :: Valid(k) && Less(a, k) && Less(k, b)) <==> RoomBehind(a, b, Prefix(a, b))
  {
    MidpointFails(a, b);
    var i := Prefix(a, b);
    LessAt(a, b, i);
    if |b| > i + 1 {
      CutBack(a, b);
    } else if j: nat :| i < j < |a| && a[j] < MAX_BYTE {
      StepUp(a, b, j);
    } else {
      forall k | Valid(k) && Less(a, k) ensures !Less(k, b) {
        NoRoomBehind(a, b, k);
      }
    }
  }

  /** A full-length lower bound is refused although a key fits: "A" * 64 and "B" leave room for "AB". */
  lemma RefusedThoughRoom()
    ensures var a := seq(MAX_LEN, _ => 65 as Ascii);
            && Valid(a) && Midpoint(a, [66]) == Err(TooLong(MAX_LEN))
            && Valid([65, 66]) && Less(a, [65, 66]) && Less([65, 66], [66])
  {
    var a := seq(MAX_LEN, _ => 65 as Ascii);
    DivergeUnique(a, [66], 0, Prefix(a, [66]));
    assert a[..1] == [65, 66][..1];
    LessAt(a, [65, 66], 1);
    LessAt([65, 66], [66], 0);
    LessAt(a, [66], 0);
    MidpointFails(a, [66]);
  }
}
