/**
 * The icon slot editor of the older analysis page: a list of slots, each
 * empty or holding a symbol id, which the user fills one at a time from
 * the symbol picker, extends with an empty slot, or shortens. Every change
 * of the list reports the ids of the filled slots, in order, to the page.
 */
module IconSlots {
  import opened Wrappers

  type Slots = seq<Option<string>>

  /** The ids of the filled slots, in order: `filter((id) => id !== undefined)`. */
  function Defined(slots: Slots): (ids: seq<string>)
    ensures |ids| <= |slots|
    ensures forall k :: 0 <= k < |ids| ==> Some(ids[k]) in slots
  {
    if slots == [] then []
    else
      var rest := Defined(slots[1..]);
      if slots[0].Some? then [slots[0].value] + rest else rest
  }

  /** The slots filled with `ids`, in order. */
  function Filled(ids: seq<string>): (slots: Slots)
    ensures |slots| == |ids|
    ensures forall k :: 0 <= k < |ids| ==> slots[k] == Some(ids[k])
  {
    seq(|ids|, k requires 0 <= k < |ids| => Some(ids[k]))
  }

  lemma {:induction false} DefinedAppend(a: Slots, b: Slots)
    ensures Defined(a + b) == Defined(a) + Defined(b)
  {
    if a == [] {
      assert a + b == b;
    } else {
      assert (a + b)[0] == a[0];
      assert (a + b)[1..] == a[1..] + b;
      DefinedAppend(a[1..], b);
    }
  }

  /** Reading back filled slots gives the ids that filled them. */
  lemma {:induction false} DefinedFilled(ids: seq<string>)
    ensures Defined(Filled(ids)) == ids
  {
    if ids != [] {
      assert Filled(ids)[1..] == Filled(ids[1..]);
      DefinedFilled(ids[1..]);
    }
  }

  /** Gives the number of filled slots. */
  function CountFilled(slots: Slots): nat {
    if slots == [] then 0 else (if slots[0].Some? then 1 else 0) + CountFilled(slots[1..])
  }

  /** One reported id per filled slot. */
  lemma {:induction false} DefinedLength(slots: Slots)
    ensures |Defined(slots)| == CountFilled(slots)
  {
    if slots != [] {
      DefinedLength(slots[1..]);
    }
  }

  /**
   * `copy[index] = id` on a JavaScript array: inside the list only that
   * slot changes; past its end the list grows, the skipped positions
   * becoming empty slots.
   */
  function SetSlot(slots: Slots, index: nat, id: string): (r: Slots)
    ensures |r| == if index < |slots| then |slots| else index + 1
    ensures r[index] == Some(id)
    ensures forall k :: 0 <= k < |slots| && k != index ==> r[k] == slots[k]
    ensures forall k :: |slots| <= k < index ==> r[k] == None
  {
    if index < |slots| then slots[index := Some(id)]
    else slots + seq(index - |slots|, _ => None) + [Some(id)]
  }

  /** `filter((_, i) => i !== index)`: the slot at `index` goes, the others keep their order; an index outside the list removes nothing. */
  function RemoveSlot(slots: Slots, index: int): (r: Slots)
    ensures 0 <= index < |slots| ==> |r| == |slots| - 1
    ensures 0 <= index < |slots| ==> forall k :: 0 <= k < index ==> r[k] == slots[k]
    ensures 0 <= index < |slots| ==> forall k :: index <= k < |r| ==> r[k] == slots[k + 1]
    ensures !(0 <= index < |slots|) ==> r == slots
  {
    if 0 <= index < |slots| then slots[..index] + slots[index + 1..] else slots
  }

  /** After removing a slot, the reported ids are those before it followed by those after it. */
  lemma RemoveSlotDefined(slots: Slots, index: nat)
    requires index < |slots|
    ensures Defined(RemoveSlot(slots, index)) == Defined(slots[..index]) + Defined(slots[index + 1..])
  {
    DefinedAppend(slots[..index], slots[index + 1..]);
  }

  /** Filling a slot inside the list reports the chosen id in that slot's place among the filled ones. */
  lemma SetSlotDefined(slots: Slots, index: nat, id: string)
    requires index < |slots|
    ensures Defined(SetSlot(slots, index, id)) == Defined(slots[..index]) + [id] + Defined(slots[index + 1..])
  {
    var r := SetSlot(slots, index, id);
    assert r == slots[..index] + [Some(id)] + slots[index + 1..];
    DefinedAppend(slots[..index] + [Some(id)], slots[index + 1..]);
    DefinedAppend(slots[..index], [Some(id)]);
  }

  /** An appended empty slot reports nothing new. */
  lemma AddedSlotReportsNothing(slots: Slots)
    ensures Defined(slots + [None]) == Defined(slots)
  {
    DefinedAppend(slots, [None]);
  }

  /** The editor's state. */
  class IconEditor {
    var symbolIds: Slots
    var currentEditingIndex: nat
    var isSelectingIcon: bool

    /** The list of slots is never empty. */
    predicate Valid()
      reads this
    {
      |symbolIds| > 0
    }

    /** Opens on the current icons, or on one empty slot when there are none, showing the composer. */
    constructor(currentIcons: seq<string>)
      ensures Valid()
      ensures symbolIds == if |currentIcons| > 0 then Filled(currentIcons) else [None]
      ensures Defined(symbolIds) == currentIcons
      ensures currentEditingIndex == 0 && !isSelectingIcon
    {
      isSelectingIcon := false;
      currentEditingIndex := 0;
      symbolIds := if |currentIcons| > 0 then Filled(currentIcons) else [None];
      DefinedFilled(currentIcons);
    }

    /** `handleIconClick`: the slot being edited takes the picked id, the filled ids are reported, and the picker closes. */
    method HandleIconClick(iconId: string) returns (reported: seq<string>)
      requires Valid()
      modifies this
      ensures Valid()
      ensures symbolIds == SetSlot(old(symbolIds), old(currentEditingIndex), iconId)
      ensures reported == Defined(symbolIds) && iconId in reported
      ensures currentEditingIndex == old(currentEditingIndex) && !isSelectingIcon
    {
      var newSymbolIds := SetSlot(symbolIds, currentEditingIndex, iconId);
      symbolIds := newSymbolIds;
      reported := Defined(newSymbolIds);
      DefinedHas(newSymbolIds, currentEditingIndex);
      isSelectingIcon := false;
    }

    /** `handleAddSymbol`: one empty slot more at the end. */
    method HandleAddSymbol()
      requires Valid()
      modifies this
      ensures Valid()
      ensures symbolIds == old(symbolIds) + [None]
      ensures Defined(symbolIds) == Defined(old(symbolIds))
      ensures currentEditingIndex == old(currentEditingIndex) && isSelectingIcon == old(isSelectingIcon)
    {
      AddedSlotReportsNothing(symbolIds);
      symbolIds := symbolIds + [None];
    }

    /**
     * `handleRemoveSymbol`: the slot at `index` goes and the filled ids
     * are reported; removing the only slot leaves one empty slot and
     * reports no ids.
     */
    method HandleRemoveSymbol(index: int) returns (reported: seq<string>)
      requires Valid()
      modifies this
      ensures Valid()
      ensures var kept := RemoveSlot(old(symbolIds), index);
        && (kept == [] ==> symbolIds == [None] && reported == [])
        && (kept != [] ==> symbolIds == kept && reported == Defined(kept))
      ensures reported == Defined(symbolIds)
      ensures currentEditingIndex == old(currentEditingIndex) && isSelectingIcon == old(isSelectingIcon)
    {
      var newSymbolIds := RemoveSlot(symbolIds, index);
      if |newSymbolIds| == 0 {
        symbolIds := [None];
        reported := [];
      } else {
        symbolIds := newSymbolIds;
        reported := Defined(newSymbolIds);
      }
    }

    /** The composer's request to fill slot `index`: it becomes the slot being edited and the picker opens. */
    method RequestSelection(index: nat)
      modifies this
      ensures currentEditingIndex == index && isSelectingIcon
      ensures symbolIds == old(symbolIds)
    {
      currentEditingIndex := index;
      isSelectingIcon := true;
    }

    /** `handleClose`: back to the composer; the slots stay as they are. */
    method HandleClose()
      modifies this
      ensures !isSelectingIcon
      ensures symbolIds == old(symbolIds) && currentEditingIndex == old(currentEditingIndex)
    {
      isSelectingIcon := false;
    }
  }

  /** A filled slot's id is among the reported ids. */
  lemma {:induction false} DefinedHas(slots: Slots, k: nat)
    requires k < |slots| && slots[k].Some?
    ensures slots[k].value in Defined(slots)
  {
    if k > 0 {
      assert slots[1..][k - 1] == slots[k];
      DefinedHas(slots[1..], k - 1);
    }
  }
}
