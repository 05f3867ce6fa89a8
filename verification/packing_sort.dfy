/** 03-travel-check/src/components/PackingList.js: the order in which the packing list is
    shown. Every mode but "input" sorts a `slice()` copy with `Array.prototype.sort`, which
    is stable; the model sorts by stable insertion. `localeCompare` is an arbitrary total
    preorder on descriptions, the parameter `descLe`. */
module PackingSort {
  import opened PackingItems

  datatype SortBy = Input | Description | Quantity | Packed

  /** `le` is total and transitive: what a consistent sort comparator provides. */
  ghost predicate TotalPreorder<T(!new)>(le: (T, T) -> bool) {
    && (forall a, b :: le(a, b) || le(b, a))
    && (forall a, b, c :: le(a, b) && le(b, c) ==> le(a, c))
  }

  ghost predicate SortedBy(s: seq<Item>, le: (Item, Item) -> bool) {
    forall i, j :: 0 <= i < j < |s| ==> le(s[i], s[j])
  }

  /** Places `x` before the first element it is not after. */
  function Insert(x: Item, s: seq<Item>, le: (Item, Item) -> bool): seq<Item> {
    if s == [] then [x]
    else if le(x, s[0]) then [x] + s
    else [s[0]] + Insert(x, s[1..], le)
  }

  function InsertionSort(s: seq<Item>, le: (Item, Item) -> bool): seq<Item> {
    if s == [] then [] else Insert(s[0], InsertionSort(s[1..], le), le)
  }

  /** Insertion adds exactly `x`. */
  lemma {:induction false} InsertPermutes(x: Item, s: seq<Item>, le: (Item, Item) -> bool)
    ensures multiset(Insert(x, s, le)) == multiset(s) + multiset{x}
  {
    if s != [] && !le(x, s[0]) {
      InsertPermutes(x, s[1..], le);
      assert s == [s[0]] + s[1..];
    }
  }

  /** A sorted list whose head comes after `y` is all after `y`. */
  lemma HeadBoundsAll(y: Item, s: seq<Item>, le: (Item, Item) -> bool)
    requires TotalPreorder(le) && SortedBy(s, le) && s != [] && le(y, s[0])
    ensures forall j :: 0 <= j < |s| ==> le(y, s[j])
  {
  }

  /** Whatever comes after `y` stays after `y` once `x`, also after `y`, is inserted. */
  lemma InsertStaysAfter(y: Item, x: Item, s: seq<Item>, le: (Item, Item) -> bool)
    requires le(y, x) && forall j :: 0 <= j < |s| ==> le(y, s[j])
    ensures forall j :: 0 <= j < |Insert(x, s, le)| ==> le(y, Insert(x, s, le)[j])
  {
    var t := Insert(x, s, le);
    InsertPermutes(x, s, le);
    forall j | 0 <= j < |t|
      ensures le(y, t[j])
    {
      assert t[j] in multiset(t);
      if t[j] != x {
        assert t[j] in multiset(s);
        var k :| 0 <= k < |s| && s[k] == t[j];
      }
    }
  }

  lemma {:induction false} InsertKeepsSorted(x: Item, s: seq<Item>, le: (Item, Item) -> bool)
    requires TotalPreorder(le) && SortedBy(s, le)
    ensures SortedBy(Insert(x, s, le), le)
  {
    if s == [] {
    } else if le(x, s[0]) {
      HeadBoundsAll(x, s, le);
    } else {
      var t := Insert(x, s[1..], le);
      InsertKeepsSorted(x, s[1..], le);
      InsertStaysAfter(s[0], x, s[1..], le);
      var r := [s[0]] + t;
      assert r == Insert(x, s, le);
      forall i, j | 0 <= i < j < |r|
        ensures le(r[i], r[j])
      {
        if i > 0 {
          assert r[i] == t[i - 1] && r[j] == t[j - 1];
        }
      }
    }
  }

  /** The insertion sort returns a sorted permutation of its input. */
  lemma {:induction false} InsertionSortCorrect(s: seq<Item>, le: (Item, Item) -> bool)
    requires TotalPreorder(le)
    ensures multiset(InsertionSort(s, le)) == multiset(s)
    ensures SortedBy(InsertionSort(s, le), le)
  {
    if s != [] {
      InsertionSortCorrect(s[1..], le);
      InsertPermutes(s[0], InsertionSort(s[1..], le), le);
      InsertKeepsSorted(s[0], InsertionSort(s[1..], le), le);
      assert s == [s[0]] + s[1..];
    }
  }

  /** `(a, b) => a.description.localeCompare(b.description)`, as "not after". */
  function ByDescription(descLe: (string, string) -> bool): (Item, Item) -> bool {
    (a: Item, b: Item) => descLe(a.description, b.description)
  }

  /** Comparing items by description inherits the order of descriptions. */
  lemma DescriptionOrder(descLe: (string, string) -> bool)
    requires TotalPreorder(descLe)
    ensures TotalPreorder(ByDescription(descLe))
  {
    var le := ByDescription(descLe);
    forall a: Item, b: Item ensures le(a, b) || le(b, a) {
      assert descLe(a.description, b.description) || descLe(b.description, a.description);
    }
    forall a: Item, b: Item, c: Item | le(a, b) && le(b, c) ensures le(a, c) {
      assert descLe(a.description, b.description) && descLe(b.description, c.description);
    }
  }

  /** `(a, b) => a.quantity - b.quantity`, as "not after". */
  function ByQuantity(): (Item, Item) -> bool {
    (a: Item, b: Item) => a.quantity <= b.quantity
  }

  /** `(a, b) => a.packed - b.packed`, as "not after": false counts 0, true counts 1. */
  function ByPacked(): (Item, Item) -> bool {
    (a: Item, b: Item) => !a.packed || b.packed
  }

  /** `sortItems`, computed from `items` according to `sortBy`. */
  function SortItems(items: seq<Item>, sortBy: SortBy, descLe: (string, string) -> bool): (r: seq<Item>)
    requires sortBy == Description ==> TotalPreorder(descLe)
    ensures multiset(r) == multiset(items)
    ensures sortBy == Input ==> r == items
    ensures sortBy == Description ==>
      forall i, j :: 0 <= i < j < |r| ==> descLe(r[i].description, r[j].description)
    ensures sortBy == Quantity ==> forall i, j :: 0 <= i < j < |r| ==> r[i].quantity <= r[j].quantity
    ensures sortBy == Packed ==> forall i, j :: 0 <= i < j < |r| && r[i].packed ==> r[j].packed
  {
    match sortBy
    case Input => items
    case Description =>
      DescriptionOrder(descLe);
      InsertionSortCorrect(items, ByDescription(descLe));
      InsertionSort(items, ByDescription(descLe))
    case Quantity =>
      assert TotalPreorder(ByQuantity());
      InsertionSortCorrect(items, ByQuantity());
      InsertionSort(items, ByQuantity())
    case Packed =>
      assert TotalPreorder(ByPacked());
      InsertionSortCorrect(items, ByPacked());
      InsertionSort(items, ByPacked())
  }

  /** In "packed" order every unpacked item comes before every packed one. */
  lemma UnpackedFirst(items: seq<Item>, descLe: (string, string) -> bool)
    ensures var r := SortItems(items, Packed, descLe);
      forall i, j :: 0 <= i < |r| && 0 <= j < |r| && !r[i].packed && r[j].packed ==> i < j
  {
  }
}
