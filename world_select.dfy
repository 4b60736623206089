/**
 * Choosing the world the API binds to (s_FindWorldContext).
 *
 * The engine's world contexts are scanned in order; each PIE, GamePreview or
 * Editor context overwrites the slot of its type with its world (which may be
 * null), every other type is ignored. The PIE slot is preferred, then
 * GamePreview, then Editor.
 */
module WorldSelect {
  import opened StageTypes

  /** EWorldType. */
  datatype WorldType = NoWorld | Game | Editor | PIE | EditorPreview | GamePreview | GameRPC | Inactive

  /** FWorldContext: its type tag and its world, None standing for a null world. */
  datatype WorldContext<W> = WorldContext(worldType: WorldType, world: Option<W>)

  /** The three types the scan records. */
  predicate Ranked(t: WorldType) {
    t == PIE || t == GamePreview || t == Editor
  }

  /** Index of the last context of type `t`, if there is one. */
  function LastOfType<W>(cs: seq<WorldContext<W>>, t: WorldType): (r: Option<nat>)
    ensures r.Some? ==> r.value < |cs| && cs[r.value].worldType == t
    ensures r.Some? ==> forall j :: r.value < j < |cs| ==> cs[j].worldType != t
    ensures r.None? <==> forall j :: 0 <= j < |cs| ==> cs[j].worldType != t
  {
    if cs == [] then None
    else if cs[|cs| - 1].worldType == t then Some(|cs| - 1)
    else LastOfType(cs[..|cs| - 1], t)
  }

  /** The content of the slot of type `t` after the scan: the last such context's world. */
  function Slot<W>(cs: seq<WorldContext<W>>, t: WorldType): Option<W> {
    match LastOfType(cs, t)
    case None => None
    case Some(i) => cs[i].world
  }

  /** The world s_FindWorldContext returns (None for a null result). */
  function PreferredWorld<W>(cs: seq<WorldContext<W>>): Option<W> {
    if Slot(cs, PIE).Some? then Slot(cs, PIE)
    else if Slot(cs, GamePreview).Some? then Slot(cs, GamePreview)
    else Slot(cs, Editor)
  }

  /** The scan itself, with the three local accumulators of the source. */
  method FindWorldContext<W>(cs: seq<WorldContext<W>>) returns (r: Option<W>)
    ensures r == PreferredWorld(cs)
  {
    var pie: Option<W> := None;
    var gamePreview: Option<W> := None;
    var worldInEditor: Option<W> := None;
    for i := 0 to |cs|
      invariant pie == Slot(cs[..i], PIE)
      invariant gamePreview == Slot(cs[..i], GamePreview)
      invariant worldInEditor == Slot(cs[..i], Editor)
    {
      assert cs[..i + 1][..i] == cs[..i];
      match cs[i].worldType {
        case PIE => pie := cs[i].world;
        case GamePreview => gamePreview := cs[i].world;
        case Editor => worldInEditor := cs[i].world;
        case _ =>
      }
    }
    assert cs[..|cs|] == cs;
    if pie.Some? {
      r := pie;
    } else if gamePreview.Some? {
      r := gamePreview;
    } else if worldInEditor.Some? {
      r := worldInEditor;
    } else {
      r := None;
    }
  }

  /**
   * A returned world belongs to a PIE, GamePreview or Editor context that is
   * the last of its type, and no context of a preferred type supplied a world.
   */
  lemma PreferredWorldSound<W>(cs: seq<WorldContext<W>>)
    ensures var r := PreferredWorld(cs);
      r.Some? ==> exists i :: 0 <= i < |cs| && cs[i].world == r && Ranked(cs[i].worldType)
                            && forall j :: i < j < |cs| ==> cs[j].worldType != cs[i].worldType
    ensures var r := PreferredWorld(cs);
      r.Some? && r != Slot(cs, PIE) ==> Slot(cs, PIE).None?
    ensures var r := PreferredWorld(cs);
      r.Some? && r != Slot(cs, PIE) && r != Slot(cs, GamePreview) ==> Slot(cs, GamePreview).None?
  {
    var r := PreferredWorld(cs);
    if r.Some? {
      var t := if Slot(cs, PIE).Some? then PIE else if Slot(cs, GamePreview).Some? then GamePreview else Editor;
      var i := LastOfType(cs, t).value;
      assert cs[i].world == r && Ranked(cs[i].worldType);
    }
  }

  /**
   * PIE wins: when there is a PIE context whose world is set and no later PIE
   * context, its world is the result, whatever the other contexts are.
   */
  lemma PieWins<W>(cs: seq<WorldContext<W>>, i: nat)
    requires i < |cs| && cs[i].worldType == PIE && cs[i].world.Some?
    requires forall j :: i < j < |cs| ==> cs[j].worldType != PIE
    ensures PreferredWorld(cs) == cs[i].world
  {
    var k := LastOfType(cs, PIE);
    assert k.Some?;
    assert k.value == i;
  }

  /**
   * GamePreview is the fallback: when the PIE slot is empty (no PIE context,
   * or the last one without a world), the last GamePreview context's world is
   * returned when it is set.
   */
  lemma GamePreviewFallback<W>(cs: seq<WorldContext<W>>, i: nat)
    requires Slot(cs, PIE).None?
    requires i < |cs| && cs[i].worldType == GamePreview && cs[i].world.Some?
    requires forall j :: i < j < |cs| ==> cs[j].worldType != GamePreview
    ensures PreferredWorld(cs) == cs[i].world
  {
    var k := LastOfType(cs, GamePreview);
    assert k.Some?;
    assert k.value == i;
  }

  /**
   * The result is null exactly when, for each of the three types, there is no
   * context of that type or the last one has a null world.
   */
  lemma PreferredWorldNone<W>(cs: seq<WorldContext<W>>)
    ensures PreferredWorld(cs).None? <==>
      forall i :: 0 <= i < |cs| && Ranked(cs[i].worldType)
               && (forall j :: i < j < |cs| ==> cs[j].worldType != cs[i].worldType)
               ==> cs[i].world.None?
  {
    if PreferredWorld(cs).None? {
      forall i | 0 <= i < |cs| && Ranked(cs[i].worldType)
                 && (forall j :: i < j < |cs| ==> cs[j].worldType != cs[i].worldType)
        ensures cs[i].world.None?
      {
        var k := LastOfType(cs, cs[i].worldType);
        assert k.Some?;
        assert k.value == i;
      }
    } else {
      PreferredWorldSound(cs);
    }
  }

  /**
   * A later PIE context with a null world hides an earlier PIE world: the
   * slot is overwritten, not merged.
   */
  lemma NullPieWorldHidesEarlierPie<W>(w: W)
    ensures var cs := [WorldContext(PIE, Some(w)), WorldContext(PIE, None)];
      PreferredWorld(cs) == None
  {
    var cs := [WorldContext(PIE, Some(w)), WorldContext(PIE, None)];
    assert cs[..1] == [WorldContext(PIE, Some(w))];
    assert LastOfType(cs, GamePreview) == None;
    assert LastOfType(cs, Editor) == None;
  }
}
