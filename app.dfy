/**
 * The wizard's top-level component: the catalog and the selection as state
 * that the click handlers replace.
 */
module Wizard {
  import opened Types
  import opened JsArray
  import opened SelectionModel

  class App {
    /** The catalog, empty until the load completes. */
    var data: seq<PermutationData>
    /** The ids of the selected items. */
    var selectedUuids: seq<string>
    /** The records of the selected items, in the order of selectedUuids. */
    var selectedData: seq<PermutationData>

    /** The selection held by the two arrays. */
    function State(): Selection
      reads this
    {
      Selection(selectedUuids, selectedData)
    }

    ghost predicate Valid()
      reads this
    {
      SelectionModel.Valid(State())
    }

    /** A session starts with an empty catalog and an empty selection. */
    constructor ()
      ensures data == [] && selectedUuids == [] && selectedData == []
      ensures Valid()
    {
      data := [];
      selectedUuids := [];
      selectedData := [];
    }

    /** The catalog load completing with a decoded list: the catalog is replaced and the selection kept. */
    method SetData(result: seq<PermutationData>)
      modifies this
      ensures data == result
      ensures selectedUuids == old(selectedUuids) && selectedData == old(selectedData)
    {
      data := result;
    }

    /**
     * A click on a catalog card: both arrays are copied, the item is removed at
     * indexOf of its id when present and pushed otherwise, and the copies become
     * the new state. The catalog is not touched and the invariant is kept.
     */
    method HandleSelect(item: PermutationData)
      modifies this
      ensures State() == Toggle(old(State()), item)
      ensures data == old(data)
      ensures old(Valid()) ==> Valid()
      ensures old(Valid()) ==> (item.id in selectedUuids <==> item.id !in old(selectedUuids))
    {
      ghost var before := State();
      var newSelectedUuids := selectedUuids;
      var newSelectedData := selectedData;
      if Includes(newSelectedUuids, item.id) {
        var idx := IndexOf(newSelectedUuids, item.id);
        newSelectedUuids := SpliceOne(newSelectedUuids, idx);
        newSelectedData := SpliceOne(newSelectedData, idx);
      } else {
        newSelectedUuids := newSelectedUuids + [item.id];
        newSelectedData := newSelectedData + [item];
      }
      selectedUuids := newSelectedUuids;
      selectedData := newSelectedData;
      if SelectionModel.Valid(before) {
        ToggleKeepsValid(before, item);
        ToggleFlipsMembership(before, item);
      }
    }

    /** The Reset button: both arrays become empty whatever they held; the catalog is kept. */
    method HandleReset()
      modifies this
      ensures selectedUuids == [] && selectedData == []
      ensures data == old(data)
      ensures Valid()
    {
      selectedUuids := [];
      selectedData := [];
    }
  }
}
