/**
 * The selection kept by the wizard: the ids of the chosen items and, in the
 * same order, their full records. This module gives the value-level meaning
 * of the toggle and reset operations and the invariants they keep.
 */
module SelectionModel {
  import opened Types
  import opened JsArray

  /** The two parallel arrays `selectedUuids` and `selectedData`. */
  datatype Selection = Selection(ids: seq<string>, records: seq<PermutationData>)

  /** The state a session starts in, and the one reset returns to. */
  function Empty(): (s: Selection)
    ensures |s.ids| == 0 && |s.records| == 0
  {
    Selection([], [])
  }

  /** The two arrays have the same length and position i of one is the id of position i of the other. */
  ghost predicate Aligned(s: Selection)
  {
    |s.ids| == |s.records| && forall i :: 0 <= i < |s.ids| ==> s.ids[i] == s.records[i].id
  }

  /** No id occurs twice among the selected ids. */
  ghost predicate NoDuplicates(ids: seq<string>)
  {
    forall i, j :: 0 <= i < j < |ids| ==> ids[i] != ids[j]
  }

  /** The invariant the selection is meant to keep. */
  ghost predicate Valid(s: Selection)
  {
    Aligned(s) && NoDuplicates(s.ids)
  }

  /** Whether an id is shown as selected: `selectedUuids.includes(id)`. */
  function IsSelected(s: Selection, id: string): (b: bool)
    ensures b <==> exists i :: 0 <= i < |s.ids| && s.ids[i] == id
  {
    Includes(s.ids, id)
  }

  /**
   * The state handleSelect leaves behind: when the id is present, the index
   * indexOf finds in the ids is spliced out of both arrays; otherwise the id and
   * the record are pushed onto the ends.
   */
  function Toggle(s: Selection, item: PermutationData): (r: Selection)
    ensures item.id !in s.ids ==> |r.ids| == |s.ids| + 1 && |r.records| == |s.records| + 1
    ensures item.id in s.ids ==> |r.ids| == |s.ids| - 1
    ensures item.id in s.ids && |s.records| == |s.ids| ==> |r.records| == |s.records| - 1
  {
    if Includes(s.ids, item.id) then
      var idx := IndexOf(s.ids, item.id);
      Selection(SpliceOne(s.ids, idx), SpliceOne(s.records, idx))
    else
      Selection(s.ids + [item.id], s.records + [item])
  }

  /** An absent item is appended to the end of both arrays; nothing before it moves. */
  lemma ToggleAppendsWhenAbsent(s: Selection, item: PermutationData)
    requires item.id !in s.ids
    ensures var r := Toggle(s, item);
      && r.ids[..|s.ids|] == s.ids && r.ids[|s.ids|] == item.id
      && r.records[..|s.records|] == s.records && r.records[|s.records|] == item
  {
  }

  /**
   * A present item is removed at its first occurrence k from both arrays; every
   * other element keeps its relative order.
   */
  lemma ToggleRemovesFirstOccurrence(s: Selection, item: PermutationData, k: nat)
    requires k < |s.ids| && s.ids[k] == item.id
    requires forall j :: 0 <= j < k ==> s.ids[j] != item.id
    ensures Toggle(s, item).ids == s.ids[..k] + s.ids[k + 1..]
    ensures k < |s.records| ==> Toggle(s, item).records == s.records[..k] + s.records[k + 1..]
  {
  }

  /** Removing one element keeps the other elements distinct. */
  lemma RemoveKeepsNoDuplicates(ids: seq<string>, k: nat)
    requires k < |ids| && NoDuplicates(ids)
    ensures NoDuplicates(ids[..k] + ids[k + 1..])
  {
  }

  /** A toggle keeps the two arrays aligned. */
  lemma ToggleKeepsAligned(s: Selection, item: PermutationData)
    requires Aligned(s)
    ensures Aligned(Toggle(s, item))
  {
  }

  /** A toggle never introduces a duplicate id, because push only happens when the id is absent. */
  lemma ToggleKeepsNoDuplicates(s: Selection, item: PermutationData)
    requires NoDuplicates(s.ids)
    ensures NoDuplicates(Toggle(s, item).ids)
  {
  }

  /** A toggle keeps the whole invariant. */
  lemma ToggleKeepsValid(s: Selection, item: PermutationData)
    requires Valid(s)
    ensures Valid(Toggle(s, item))
  {
  }

  /**
   * After toggling an item its id is selected exactly when it was not before,
   * and every other id keeps its membership.
   */
  lemma ToggleFlipsMembership(s: Selection, item: PermutationData)
    requires NoDuplicates(s.ids)
    ensures IsSelected(Toggle(s, item), item.id) <==> !IsSelected(s, item.id)
    ensures forall y :: y != item.id ==> (IsSelected(Toggle(s, item), y) <==> IsSelected(s, y))
  {
  }

  /** Toggling an unselected item twice restores both arrays exactly. */
  lemma ToggleTwiceFromUnselected(s: Selection, item: PermutationData)
    requires |s.ids| == |s.records|
    requires item.id !in s.ids
    ensures Toggle(Toggle(s, item), item) == s
  {
  }

  /**
   * Toggling a selected item twice restores membership but moves the item
   * (with the record passed in) to the end of both arrays.
   */
  lemma ToggleTwiceFromSelected(s: Selection, item: PermutationData, k: nat)
    requires Valid(s)
    requires k < |s.ids| && s.ids[k] == item.id
    ensures var r := Toggle(Toggle(s, item), item);
      && r.ids == s.ids[..k] + s.ids[k + 1..] + [item.id]
      && r.records == s.records[..k] + s.records[k + 1..] + [item]
      && forall y :: IsSelected(r, y) <==> IsSelected(s, y)
  {
  }

  /** The double toggle is not the identity: a selected item that is not last moves to the end. */
  lemma ToggleTwiceMovesToEnd()
    ensures var a := PermutationData("a", "", [], "", (Blue, ScanHere));
      var b := PermutationData("b", "", [], "", (Green, PointAimShoot));
      var s := Selection(["a", "b"], [a, b]);
      Valid(s) && Toggle(Toggle(s, a), a) == Selection(["b", "a"], [b, a])
  {
  }

  /** A user action that changes the selection. */
  datatype Action = Select(item: PermutationData) | Reset

  /** The selection after a series of clicks. */
  function Run(s: Selection, actions: seq<Action>): (r: Selection)
    decreases |actions|
  {
    if |actions| == 0 then s
    else
      var next := match actions[0]
        case Select(item) => Toggle(s, item)
        case Reset => Empty();
      Run(next, actions[1..])
  }

  /** Starting from the empty selection, no series of toggles and resets breaks the invariant. */
  lemma {:induction false} RunKeepsValid(s: Selection, actions: seq<Action>)
    requires Valid(s)
    ensures Valid(Run(s, actions))
    decreases |actions|
  {
    if |actions| > 0 {
      match actions[0]
      case Select(item) =>
        ToggleKeepsValid(s, item);
        RunKeepsValid(Toggle(s, item), actions[1..]);
      case Reset =>
        RunKeepsValid(Empty(), actions[1..]);
    }
  }
}
