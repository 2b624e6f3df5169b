/**
 * The two screens of the wizard as values: the catalog, which lists every
 * item with its selected flag, and the confirmation screen, which lists the
 * selected records. Styling is not modelled; a card keeps what it displays.
 */
module Views {
  import opened Types
  import opened JsArray
  import opened SelectionModel

  /** A catalog card: its key, the brand and call-to-action text it shows, its colour and whether it is highlighted. */
  datatype PermutationCard = PermutationCard(
    key: string, brand: seq<string>, cta: string, color: QRColor, isSelected: bool)

  /** A confirmation card: its key and the brand, call-to-action text and colour it shows. */
  datatype SelectedCard = SelectedCard(key: string, brand: seq<string>, cta: string, color: QRColor)

  datatype CatalogView = NoneFound | Permutations(cards: seq<PermutationCard>)

  datatype ConfirmationView = NoneSelected | SelectedPermutations(cards: seq<SelectedCard>)

  /** The card of one catalog item; the flag is `selectedUuids.includes(id)`. */
  function CatalogCard(p: PermutationData, selectedUuids: seq<string>): PermutationCard
  {
    PermutationCard(p.id, p.brand, CallToActionText(p.variables.1), p.variables.0, Includes(selectedUuids, p.id))
  }

  /** `data.map(...)` over the catalog. */
  function CatalogCards(data: seq<PermutationData>, selectedUuids: seq<string>): (cards: seq<PermutationCard>)
    ensures |cards| == |data|
    ensures forall i :: 0 <= i < |data| ==>
      cards[i].key == data[i].id && cards[i].brand == data[i].brand &&
      cards[i].cta == CallToActionText(data[i].variables.1) && cards[i].color == data[i].variables.0 &&
      (cards[i].isSelected <==> data[i].id in selectedUuids)
  {
    if |data| == 0 then []
    else [CatalogCard(data[0], selectedUuids)] + CatalogCards(data[1..], selectedUuids)
  }

  /** The catalog: "None found." exactly when there are no items, otherwise one card per item in catalog order. */
  function RenderPermutations(data: seq<PermutationData>, selectedUuids: seq<string>): (v: CatalogView)
    ensures v.NoneFound? <==> |data| == 0
    ensures v.Permutations? ==> |v.cards| == |data| && forall i :: 0 <= i < |data| ==>
      v.cards[i].key == data[i].id && v.cards[i].brand == data[i].brand &&
      v.cards[i].cta == CallToActionText(data[i].variables.1) && v.cards[i].color == data[i].variables.0 &&
      (v.cards[i].isSelected <==> data[i].id in selectedUuids)
  {
    if |data| == 0 then NoneFound else Permutations(CatalogCards(data, selectedUuids))
  }

  /** The card of one selected record. */
  function ConfirmationCard(p: PermutationData): SelectedCard
  {
    SelectedCard(p.id, p.brand, CallToActionText(p.variables.1), p.variables.0)
  }

  /** `selectedData.map(...)` on the confirmation screen. */
  function SelectedCards(selectedData: seq<PermutationData>): (cards: seq<SelectedCard>)
    ensures |cards| == |selectedData|
    ensures forall i :: 0 <= i < |selectedData| ==>
      cards[i].key == selectedData[i].id && cards[i].brand == selectedData[i].brand &&
      cards[i].cta == CallToActionText(selectedData[i].variables.1) && cards[i].color == selectedData[i].variables.0
  {
    if |selectedData| == 0 then []
    else [ConfirmationCard(selectedData[0])] + SelectedCards(selectedData[1..])
  }

  /** The confirmation screen: "None selected." exactly when nothing is selected, otherwise the records in selection order. */
  function RenderSelected(selectedData: seq<PermutationData>): (v: ConfirmationView)
    ensures v.NoneSelected? <==> |selectedData| == 0
    ensures v.SelectedPermutations? ==> |v.cards| == |selectedData| && forall i :: 0 <= i < |selectedData| ==>
      v.cards[i].key == selectedData[i].id && v.cards[i].brand == selectedData[i].brand &&
      v.cards[i].cta == CallToActionText(selectedData[i].variables.1) && v.cards[i].color == selectedData[i].variables.0
  {
    if |selectedData| == 0 then NoneSelected else SelectedPermutations(SelectedCards(selectedData))
  }

  /**
   * On an aligned selection the confirmation screen shows exactly the selected
   * ids, in selection order, and "None selected." exactly when no id is selected.
   */
  lemma ConfirmationShowsSelectedIds(s: Selection)
    requires Aligned(s)
    ensures RenderSelected(s.records).NoneSelected? <==> |s.ids| == 0
    ensures RenderSelected(s.records).SelectedPermutations? ==>
      seq(|s.ids|, i requires 0 <= i < |s.ids| => RenderSelected(s.records).cards[i].key) == s.ids
  {
  }

  /** After a toggle, the catalog card of the toggled item flips its highlight and every other card keeps it. */
  lemma ToggleFlipsOnlyThatHighlight(data: seq<PermutationData>, s: Selection, item: PermutationData, i: nat)
    requires NoDuplicates(s.ids)
    requires i < |data|
    ensures var before := CatalogCards(data, s.ids)[i];
      var after := CatalogCards(data, Toggle(s, item).ids)[i];
      if data[i].id == item.id then after.isSelected == !before.isSelected
      else after.isSelected == before.isSelected
  {
    var t := Toggle(s, item);
    assert CatalogCards(data, s.ids)[i].isSelected <==> data[i].id in s.ids;
    assert CatalogCards(data, t.ids)[i].isSelected <==> data[i].id in t.ids;
    ToggleFlipsMembership(s, item);
    assert IsSelected(s, data[i].id) <==> data[i].id in s.ids;
    assert IsSelected(t, data[i].id) <==> data[i].id in t.ids;
  }

  /** Selecting 1 and then 3 from the empty selection. */
  lemma SelectOneThenThree(p1: PermutationData, p3: PermutationData)
    requires p1.id == "1" && p3.id == "3"
    ensures Run(Empty(), [Select(p1), Select(p3)]) == Selection(["1", "3"], [p1, p3])
  {
    var s1 := Toggle(Empty(), p1);
    assert s1 == Selection(["1"], [p1]);
    var s2 := Toggle(s1, p3);
    assert s2 == Selection(["1", "3"], [p1, p3]);
    assert Run(s2, []) == s2;
    assert Run(s1, [Select(p3)]) == s2 by {
      assert [Select(p3)][1..] == [];
    }
    assert [Select(p1), Select(p3)][1..] == [Select(p3)];
  }

  /** Selecting 1 and 3 and then deselecting 1 from the empty selection. */
  lemma SelectOneThenThreeThenOne(p1: PermutationData, p3: PermutationData)
    requires p1.id == "1" && p3.id == "3"
    ensures Run(Empty(), [Select(p1), Select(p3), Select(p1)]) == Selection(["3"], [p3])
  {
    var s1 := Toggle(Empty(), p1);
    assert s1 == Selection(["1"], [p1]);
    var s2 := Toggle(s1, p3);
    assert s2 == Selection(["1", "3"], [p1, p3]);
    ToggleRemovesFirstOccurrence(s2, p1, 0);
    var s3 := Toggle(s2, p1);
    assert s3 == Selection(["3"], [p3]);
    assert Run(s3, []) == s3;
    assert Run(s2, [Select(p1)]) == s3 by {
      assert [Select(p1)][1..] == [];
    }
    assert Run(s1, [Select(p3), Select(p1)]) == s3 by {
      assert [Select(p3), Select(p1)][1..] == [Select(p1)];
    }
    assert [Select(p1), Select(p3), Select(p1)][1..] == [Select(p3), Select(p1)];
  }

  /**
   * A session over the catalog 1, 2, 3: selecting 1 and 3 highlights exactly
   * those two catalog cards and shows 1 then 3 on the confirmation screen;
   * deselecting 1 afterwards highlights only 3 and shows 3 alone.
   */
  lemma ConfirmationScenario(p1: PermutationData, p2: PermutationData, p3: PermutationData)
    requires p1.id == "1" && p2.id == "2" && p3.id == "3"
    ensures var s := Run(Empty(), [Select(p1), Select(p3)]);
      var v := RenderPermutations([p1, p2, p3], s.ids);
      && v.Permutations? && v.cards[0].isSelected && !v.cards[1].isSelected && v.cards[2].isSelected
      && RenderSelected(s.records) == SelectedPermutations([ConfirmationCard(p1), ConfirmationCard(p3)])
    ensures var s := Run(Empty(), [Select(p1), Select(p3), Select(p1)]);
      var v := RenderPermutations([p1, p2, p3], s.ids);
      && v.Permutations? && !v.cards[0].isSelected && !v.cards[1].isSelected && v.cards[2].isSelected
      && RenderSelected(s.records) == SelectedPermutations([ConfirmationCard(p3)])
  {
    SelectOneThenThree(p1, p3);
    SelectOneThenThreeThenOne(p1, p3);
    var catalog := [p1, p2, p3];
    assert catalog[0].id == "1" && catalog[1].id == "2" && catalog[2].id == "3";
    assert "1" in ["1", "3"] && "2" !in ["1", "3"] && "3" in ["1", "3"];
    assert "1" !in ["3"] && "2" !in ["3"] && "3" in ["3"];
    assert [p1, p3][1..] == [p3] && [p3][1..] == [];
  }
}
