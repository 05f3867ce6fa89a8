/** The packing-list updaters of the two travel apps. 03-travel-check/src/App.js and
    03-travel-list/src/App.js hold the same four updaters over the `items` state; they are
    modelled once here, with the React state as the class `TravelApp`. */
module PackingItems {
  import opened Seqs

  datatype Item = Item(id: int, description: string, quantity: int, packed: bool)

  /** `[...items, newItem]`. */
  function AddItem(items: seq<Item>, newItem: Item): (r: seq<Item>)
    ensures |r| == |items| + 1
    ensures r[..|items|] == items && r[|items|] == newItem
  {
    items + [newItem]
  }

  /** `items.filter((item) => item.id !== id)`. */
  function DeleteItem(items: seq<Item>, id: int): (r: seq<Item>)
    ensures forall x :: x in r <==> x in items && x.id != id
    ensures forall x :: multiset(r)[x] == if x.id != id then multiset(items)[x] else 0
    ensures SubsequenceOf(r, items)
    ensures (forall i :: 0 <= i < |items| ==> items[i].id != id) ==> r == items
  {
    Filter(items, (x: Item) => x.id != id)
  }

  /** `{ ...item, packed: !item.packed }` for the item whose id matches. */
  function Toggle(item: Item, id: int): Item {
    if item.id == id then item.(packed := !item.packed) else item
  }

  /** `items.map((item) => item.id === id ? { ...item, packed: !item.packed } : item)`. */
  function CheckItem(items: seq<Item>, id: int): (r: seq<Item>)
    ensures |r| == |items|
    ensures forall i :: 0 <= i < |items| ==>
      && r[i].id == items[i].id && r[i].description == items[i].description
      && r[i].quantity == items[i].quantity
      && (r[i].packed <==> (items[i].packed != (items[i].id == id)))
  {
    if items == [] then [] else [Toggle(items[0], id)] + CheckItem(items[1..], id)
  }

  /** `if (isConfirmed) setItems([])`: the confirmation dialog's answer is the parameter. */
  function ClearList(items: seq<Item>, isConfirmed: bool): (r: seq<Item>)
    ensures isConfirmed ==> r == []
    ensures !isConfirmed ==> r == items
  {
    if isConfirmed then [] else items
  }

  /** Checking the same id twice restores the list. */
  lemma {:induction false} CheckTwiceRestores(items: seq<Item>, id: int)
    ensures CheckItem(CheckItem(items, id), id) == items
  {
    var once := CheckItem(items, id);
    var twice := CheckItem(once, id);
    assert forall i :: 0 <= i < |items| ==> twice[i] == items[i];
  }

  /** After a delete no item with that id remains, and the list is no longer than before. */
  lemma DeleteRemovesAll(items: seq<Item>, id: int)
    ensures forall i :: 0 <= i < |DeleteItem(items, id)| ==> DeleteItem(items, id)[i].id != id
    ensures |DeleteItem(items, id)| <= |items|
  {
    var r := DeleteItem(items, id);
    assert forall i :: 0 <= i < |r| ==> r[i] in r;
  }

  /** The `items` state of either travel app and the handlers that replace it. */
  class TravelApp {
    var items: seq<Item>

    constructor (initialItems: seq<Item>)
      ensures items == initialItems
    {
      items := initialItems;
    }

    /** `handleAddItem` / `handleAddItems`. */
    method HandleAddItem(newItem: Item)
      modifies this
      ensures items == AddItem(old(items), newItem)
    {
      items := AddItem(items, newItem);
    }

    /** `handleDeleteItem`. */
    method HandleDeleteItem(id: int)
      modifies this
      ensures items == DeleteItem(old(items), id)
    {
      items := DeleteItem(items, id);
    }

    /** `handleCheckItem`. */
    method HandleCheckItem(id: int)
      modifies this
      ensures items == CheckItem(old(items), id)
    {
      items := CheckItem(items, id);
    }

    /** `handleClearList`, given what `window.confirm` answered. */
    method HandleClearList(isConfirmed: bool)
      modifies this
      ensures items == ClearList(old(items), isConfirmed)
    {
      if isConfirmed {
        items := [];
      }
    }
  }
}
