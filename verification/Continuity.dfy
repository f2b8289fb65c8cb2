/** Outfit continuity: which figures of which scenes lack an outfit, the look they may continue, and
    how an answer of the Decision Model resolves a gap. Text normalisation is a parameter. */
module Continuity {
  import opened Wrappers

  datatype Text = Text(
    identity: string -> string, trim: string -> string, isMeta: string -> bool, rowName: nat -> string)

  datatype Outfit = Outfit(character: string, name: string)

  datatype Scene = Scene(
    draftRef: string, number: Option<nat>, summary: Option<string>, characters: seq<string>, outfits: seq<Outfit>)

  datatype Gap = Gap(scene: nat, draftRef: string, number: Option<nat>, identity: string, name: string)

  predicate PlausibleAction(t: Text, s: Scene) {
    s.summary.Some? && t.trim(s.summary.value) != "" && !t.isMeta(t.trim(s.summary.value))
  }

  predicate Dressed(t: Text, s: Scene, id: string) {
    exists k :: 0 <= k < |s.outfits| && t.identity(s.outfits[k].character) == id
  }

  function RowRef(t: Text, s: Scene, index: nat): string { if s.draftRef == "" then t.rowName(index) else s.draftRef }

  // ---- Gaps ----

  /** The scene's `c`-th character is the first mention of a named, undressed figure. */
  predicate Opens(t: Text, s: Scene, c: nat) {
    && c < |s.characters|
    && t.identity(s.characters[c]) != "" && !Dressed(t, s, t.identity(s.characters[c]))
    && forall d :: 0 <= d < c ==> t.identity(s.characters[d]) != t.identity(s.characters[c])
  }

  function GapAt(t: Text, s: Scene, index: nat, c: nat): Gap
    requires c < |s.characters|
  {
    Gap(index, RowRef(t, s, index), s.number, t.identity(s.characters[c]), s.characters[c])
  }

  /** The gaps among the first `n` characters, in order. */
  function SceneGaps(t: Text, s: Scene, index: nat, n: nat): seq<Gap>
    requires n <= |s.characters|
  {
    if n == 0 then []
    else SceneGaps(t, s, index, n - 1) + if Opens(t, s, n - 1) then [GapAt(t, s, index, n - 1)] else []
  }

  function AllGaps(t: Text, scenes: seq<Scene>): seq<Gap> {
    if scenes == [] then []
    else
      var n := |scenes| - 1;
      AllGaps(t, scenes[..n])
      + if PlausibleAction(t, scenes[n]) then SceneGaps(t, scenes[n], n, |scenes[n].characters|) else []
  }

  method DressedIdentities(t: Text, s: Scene) returns (dressed: seq<string>)
    ensures forall id :: id in dressed <==> Dressed(t, s, id)
  {
    dressed := [];
    for k := 0 to |s.outfits|
      invariant |dressed| == k && forall j :: 0 <= j < k ==> dressed[j] == t.identity(s.outfits[j].character)
    {
      dressed := dressed + [t.identity(s.outfits[k].character)];
    }
    assert forall j :: 0 <= j < |dressed| ==> dressed[j] in dressed;
  }

  /** `seen` holds exactly the open figures among the first `c` mentions. */
  predicate Records(t: Text, s: Scene, seen: seq<string>, c: nat)
    requires c <= |s.characters|
  {
    && (forall id :: id in seen ==> exists d :: 0 <= d < c && t.identity(s.characters[d]) == id)
    && forall d :: 0 <= d < c ==> SeenOrClosed(t, s, seen, d)
  }

  predicate SeenOrClosed(t: Text, s: Scene, seen: seq<string>, d: nat)
    requires d < |s.characters|
  {
    var id := t.identity(s.characters[d]);
    id == "" || Dressed(t, s, id) || id in seen
  }

  lemma OpensUnseen(t: Text, s: Scene, seen: seq<string>, c: nat)
    requires c < |s.characters| && Records(t, s, seen, c)
    ensures var id := t.identity(s.characters[c]); Opens(t, s, c) <==> id != "" && !Dressed(t, s, id) && id !in seen
  {
    var id := t.identity(s.characters[c]);
    if id != "" && !Dressed(t, s, id) && id !in seen {
      forall d | 0 <= d < c ensures t.identity(s.characters[d]) != id {
        assert SeenOrClosed(t, s, seen, d);
      }
    }
  }

  lemma RecordsNext(t: Text, s: Scene, seen: seq<string>, c: nat, now: seq<string>)
    requires c < |s.characters| && Records(t, s, seen, c)
    requires forall id :: id in seen ==> id in now
    requires forall id :: id in now ==> id in seen || id == t.identity(s.characters[c])
    requires SeenOrClosed(t, s, now, c)
    ensures Records(t, s, now, c + 1)
  {
    forall d | 0 <= d < c + 1 ensures SeenOrClosed(t, s, now, d) {
      assert d < c ==> SeenOrClosed(t, s, seen, d);
    }
  }

  /** One scene: the lists of dressed and seen identities select exactly the first open mentions. */
  method GapsOfScene(t: Text, s: Scene, index: nat) returns (gaps: seq<Gap>)
    ensures gaps == SceneGaps(t, s, index, |s.characters|)
  {
    var dressed := DressedIdentities(t, s);
    var seen: seq<string> := [];
    gaps := [];
    for c := 0 to |s.characters|
      invariant gaps == SceneGaps(t, s, index, c) && Records(t, s, seen, c)
    {
      OpensUnseen(t, s, seen, c);
      var id := t.identity(s.characters[c]);
      if id == "" || id in dressed || id in seen {
        RecordsNext(t, s, seen, c, seen);
        continue;
      }
      RecordsNext(t, s, seen, c, seen + [id]);
      seen := seen + [id];
      gaps := gaps + [GapAt(t, s, index, c)];
    }
  }

  method OutfitGaps(t: Text, scenes: seq<Scene>) returns (gaps: seq<Gap>)
    ensures gaps == AllGaps(t, scenes)
  {
    gaps := [];
    for i := 0 to |scenes|
      invariant gaps == AllGaps(t, scenes[..i])
    {
      assert scenes[..i + 1][..i] == scenes[..i];
      if !PlausibleAction(t, scenes[i]) {
        continue;
      }
      var more := GapsOfScene(t, scenes[i], i);
      gaps := gaps + more;
    }
    assert scenes[..|scenes|] == scenes;
  }

  /** Scene `s` names the figure `id`, has action, and shows no outfit for it. */
  predicate IsGap(t: Text, scenes: seq<Scene>, s: nat, id: string) {
    && s < |scenes| && scenes[s].summary.Some? && id != ""
    && t.trim(scenes[s].summary.value) != "" && !t.isMeta(t.trim(scenes[s].summary.value))
    && (forall k :: 0 <= k < |scenes[s].outfits| ==> t.identity(scenes[s].outfits[k].character) != id)
    && exists c :: 0 <= c < |scenes[s].characters| && t.identity(scenes[s].characters[c]) == id
  }

  /** The character position a gap stands for: its figure's first mention. */
  predicate Stands(t: Text, s: Scene, index: nat, g: Gap, c: nat) {
    Opens(t, s, c) && g == GapAt(t, s, index, c)
  }

  lemma {:induction false} SceneGapsSound(t: Text, s: Scene, index: nat, n: nat, k: nat) returns (c: nat)
    requires n <= |s.characters| && k < |SceneGaps(t, s, index, n)|
    ensures c < n && Stands(t, s, index, SceneGaps(t, s, index, n)[k], c)
    decreases n
  {
    if k < |SceneGaps(t, s, index, n - 1)| {
      c := SceneGapsSound(t, s, index, n - 1, k);
    } else {
      c := n - 1;
    }
  }

  lemma {:induction false} SceneGapsComplete(t: Text, s: Scene, index: nat, n: nat, c: nat) returns (k: nat)
    requires c < n <= |s.characters| && Opens(t, s, c)
    ensures k < |SceneGaps(t, s, index, n)| && SceneGaps(t, s, index, n)[k] == GapAt(t, s, index, c)
    decreases n
  {
    if c == n - 1 {
      k := |SceneGaps(t, s, index, n - 1)|;
    } else {
      k := SceneGapsComplete(t, s, index, n - 1, c);
    }
  }

  /** Within a scene the gaps follow the order of first mention. */
  lemma {:induction false} SceneGapsOrdered(t: Text, s: Scene, index: nat, n: nat, i: nat, j: nat, c: nat, d: nat)
    requires n <= |s.characters| && i < j < |SceneGaps(t, s, index, n)|
    requires Stands(t, s, index, SceneGaps(t, s, index, n)[i], c)
    requires Stands(t, s, index, SceneGaps(t, s, index, n)[j], d)
    ensures c < d
    decreases n
  {
    var front := SceneGaps(t, s, index, n - 1);
    if j < |front| {
      SceneGapsOrdered(t, s, index, n - 1, i, j, c, d);
    } else {
      var e := SceneGapsSound(t, s, index, n - 1, i);
      SameMention(t, s, c, e);
      SameMention(t, s, d, n - 1);
    }
  }

  lemma SameMention(t: Text, s: Scene, c: nat, d: nat)
    requires Opens(t, s, c) && Opens(t, s, d) && t.identity(s.characters[c]) == t.identity(s.characters[d])
    ensures c == d
  {
  }

  lemma {:induction false} FirstMention(t: Text, s: Scene, id: string, c: nat) returns (d: nat)
    requires c < |s.characters| && t.identity(s.characters[c]) == id && id != "" && !Dressed(t, s, id)
    ensures d <= c && Opens(t, s, d) && t.identity(s.characters[d]) == id
    decreases c
  {
    if e: nat :| e < c && t.identity(s.characters[e]) == id {
      d := FirstMention(t, s, id, e);
    } else {
      d := c;
    }
  }

  /** Every gap reported is a gap of the document, at the first mention of its figure. */
  lemma {:induction false} GapsSound(t: Text, scenes: seq<Scene>, k: nat) returns (c: nat)
    requires k < |AllGaps(t, scenes)|
    ensures var g := AllGaps(t, scenes)[k];
            && IsGap(t, scenes, g.scene, g.identity) && Stands(t, scenes[g.scene], g.scene, g, c)
            && g.name == scenes[g.scene].characters[c] && g.identity == t.identity(g.name)
            && g.number == scenes[g.scene].number
            && g.draftRef == (if scenes[g.scene].draftRef == "" then t.rowName(g.scene) else scenes[g.scene].draftRef)
  {
    var n := |scenes| - 1;
    var front := scenes[..n];
    if k < |AllGaps(t, front)| {
      c := GapsSound(t, front, k);
    } else {
      c := SceneGapsSound(t, scenes[n], n, |scenes[n].characters|, k - |AllGaps(t, front)|);
    }
  }

  /** Every gap of the document is reported. */
  lemma {:induction false} GapsComplete(t: Text, scenes: seq<Scene>, s: nat, id: string) returns (k: nat)
    requires IsGap(t, scenes, s, id)
    ensures k < |AllGaps(t, scenes)| && AllGaps(t, scenes)[k].scene == s && AllGaps(t, scenes)[k].identity == id
  {
    var n := |scenes| - 1;
    var front := scenes[..n];
    if s == n {
      var c: nat :| c < |scenes[s].characters| && t.identity(scenes[s].characters[c]) == id;
      var d := FirstMention(t, scenes[s], id, c);
      var m := SceneGapsComplete(t, scenes[s], s, |scenes[s].characters|, d);
      k := |AllGaps(t, front)| + m;
    } else {
      k := GapsComplete(t, front, s, id);
    }
  }

  /** Document order: by scene, then by first mention. So no pair of scene and figure comes twice. */
  lemma {:induction false} GapsOrdered(t: Text, scenes: seq<Scene>, i: nat, j: nat)
    requires i < j < |AllGaps(t, scenes)|
    ensures var g, h := AllGaps(t, scenes)[i], AllGaps(t, scenes)[j];
            && (g.scene < h.scene || (g.scene == h.scene && g.identity != h.identity))
            && (g.scene == h.scene < |scenes| ==> forall c, d ::
                  Stands(t, scenes[g.scene], g.scene, g, c) && Stands(t, scenes[h.scene], h.scene, h, d) ==> c < d)
  {
    var n := |scenes| - 1;
    var front, all := scenes[..n], AllGaps(t, scenes);
    var m := |AllGaps(t, front)|;
    if j < m {
      GapsOrdered(t, front, i, j);
      var c := GapsSound(t, front, i);
    } else if i < m {
      var c := GapsSound(t, front, i);
      var d := SceneGapsSound(t, scenes[n], n, |scenes[n].characters|, j - m);
    } else {
      LastSceneOrdered(t, scenes[n], n, i - m, j - m);
    }
  }

  lemma LastSceneOrdered(t: Text, s: Scene, n: nat, i: nat, j: nat)
    requires i < j < |SceneGaps(t, s, n, |s.characters|)|
    ensures var g, h := SceneGaps(t, s, n, |s.characters|)[i], SceneGaps(t, s, n, |s.characters|)[j];
            && g.scene == h.scene == n && g.identity != h.identity
            && forall c, d :: Stands(t, s, n, g, c) && Stands(t, s, n, h, d) ==> c < d
  {
    var gaps := SceneGaps(t, s, n, |s.characters|);
    forall c, d | Stands(t, s, n, gaps[i], c) && Stands(t, s, n, gaps[j], d) ensures c < d {
      SceneGapsOrdered(t, s, n, |s.characters|, i, j, c, d);
    }
    var c := SceneGapsSound(t, s, n, |s.characters|, i);
    var d := SceneGapsSound(t, s, n, |s.characters|, j);
  }

  // ---- The look to continue ----

  function FirstOutfit(t: Text, s: Scene, id: string, from: nat): (r: Option<nat>)
    requires from <= |s.outfits|
    ensures r.Some? ==> from <= r.value < |s.outfits| && t.identity(s.outfits[r.value].character) == id
    ensures forall k :: from <= k < (if r.Some? then r.value else |s.outfits|) ==>
              t.identity(s.outfits[k].character) != id
    decreases |s.outfits| - from
  {
    if from == |s.outfits| then None
    else if t.identity(s.outfits[from].character) == id then Some(from)
    else FirstOutfit(t, s, id, from + 1)
  }

  /** The latest earlier scene that dresses the figure, with the figure's first outfit there. */
  function PriorOutfit(t: Text, scenes: seq<Scene>, before: nat, id: string): (r: Option<(nat, nat)>)
    ensures r.Some? ==>
              && r.value.0 < before && r.value.0 < |scenes| && r.value.1 < |scenes[r.value.0].outfits|
              && t.identity(scenes[r.value.0].outfits[r.value.1].character) == id
              && (forall k :: 0 <= k < r.value.1 ==> t.identity(scenes[r.value.0].outfits[k].character) != id)
              && (forall s :: r.value.0 < s < before && s < |scenes| ==> !Dressed(t, scenes[s], id))
    ensures r.None? <==> forall s :: 0 <= s < before && s < |scenes| ==> !Dressed(t, scenes[s], id)
  {
    if before == 0 then None
    else if before > |scenes| then PriorOutfit(t, scenes, before - 1, id)
    else
      var o := FirstOutfit(t, scenes[before - 1], id, 0);
      if o.Some? then
        assert Dressed(t, scenes[before - 1], id);
        Some((before - 1, o.value))
      else PriorOutfit(t, scenes, before - 1, id)
  }

  // ---- Resolving an answer ----

  const MIN_CONFIDENCE := 0.6
  const CONTINUE_PREVIOUS := "continue_previous"
  const INFER_NEW_OUTFIT := "infer_new_outfit"
  const REPORT_GAP := "report_conflict_or_gap"

  /** A model's probability; NaN and infinities are not finite. */
  datatype Probability = NotFinite | Finite(value: real)

  datatype Outcome = Continue(prior: (nat, nat), confidence: real) | Infer(confidence: real) | Report(confidence: real)

  /** The usable mass of an option: an absent, non-finite or negative value counts as none. */
  function Mass(choice: map<string, Probability>, key: string): (r: real)
    ensures r >= 0.0
    ensures key in choice && choice[key] != NotFinite && choice[key].value > 0.0 <==> r > 0.0
    ensures r > 0.0 ==> choice[key] == Finite(r)
  {
    if key in choice && choice[key].Finite? && choice[key].value >= 0.0 then choice[key].value else 0.0
  }

  /** The winner is the first option of largest mass. A look is continued only from a prior outfit
      and inferred or continued only at or above the floor; every other answer reports the gap. */
  method ResolveOutcome(answer: Option<map<string, Probability>>,
      prior: Option<(nat, nat)>) returns (r: Option<Outcome>)
    ensures r.None? <==> answer.None?
    ensures answer.Some? ==>
              var p := if prior.Some? then Mass(answer.value, CONTINUE_PREVIOUS) else 0.0;
              var q, g := Mass(answer.value, INFER_NEW_OUTFIT), Mass(answer.value, REPORT_GAP);
              && (r.value.Continue? <==> prior.Some? && p >= MIN_CONFIDENCE && p >= q && p >= g)
              && (r.value.Continue? ==> r.value.prior == prior.value)
              && (r.value.Infer? <==> q >= MIN_CONFIDENCE && q > p && q >= g)
              && r.value.confidence >= p && r.value.confidence >= q && r.value.confidence >= g
              && r.value.confidence in {p, q, g}
  {
    if answer.None? {
      return None;
    }
    var choice := answer.value;
    var options := [
      (CONTINUE_PREVIOUS, if prior.Some? then Mass(choice, CONTINUE_PREVIOUS) else 0.0),
      (INFER_NEW_OUTFIT, Mass(choice, INFER_NEW_OUTFIT)),
      (REPORT_GAP, Mass(choice, REPORT_GAP))];
    var best: Option<nat> := None;
    for i := 0 to 3
      invariant best.Some? <==> i > 0
      invariant best.Some? ==>
          && best.value < i
          && (forall k :: 0 <= k < i ==> options[k].1 <= options[best.value].1)
          && (forall k :: 0 <= k < best.value ==> options[k].1 < options[best.value].1)
    {
      if best.None? || options[i].1 > options[best.value].1 {
        best := Some(i);
      }
    }
    var (winner, confidence) := options[best.value];
    assert options[0].1 <= confidence && options[1].1 <= confidence && options[2].1 <= confidence;
    assert best.value == 0 || options[0].1 < confidence;
    assert best.value <= 1 || options[1].1 < confidence;
    if best.value == 0 && confidence >= MIN_CONFIDENCE {
      return Some(if prior.Some? then Continue(prior.value, confidence) else Report(confidence));
    }
    if best.value == 1 && confidence >= MIN_CONFIDENCE {
      return Some(Infer(confidence));
    }
    return Some(Report(confidence));
  }
}
