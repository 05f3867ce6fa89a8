/** 03-travel-check/src/components/Stats.js: the counts, the rounded percentage and the
    footer message of the packing list. */
module PackingStats {
  import opened Seqs
  import opened PackingItems

  /** The test Stats.js filters by. */
  predicate IsPacked(item: Item)
  {
    item.packed
  }

  /** `items.filter((item) => item.packed).length`. */
  function NumPacked(items: seq<Item>): (n: nat)
    ensures n == |Filter(items, IsPacked)|
    ensures n <= |items|
    ensures n == |items| <==> forall i :: 0 <= i < |items| ==> items[i].packed
    ensures n == 0 <==> forall i :: 0 <= i < |items| ==> !items[i].packed
  {
    Count(items, IsPacked)
  }

  /** `Math.round((numPacked / numItems) * 100)` in exact arithmetic: the nearest integer to
      100 * numPacked / numItems, halves rounded up. */
  function PercentPacked(numPacked: nat, numItems: nat): (pct: int)
    requires 0 < numItems && numPacked <= numItems
    ensures 0 <= pct <= 100
    ensures 2 * numItems * pct <= 200 * numPacked + numItems < 2 * numItems * (pct + 1)
    ensures numPacked == numItems ==> pct == 100
  {
    RoundedQuotient(numPacked, numItems);
    (200 * numPacked + numItems) / (2 * numItems)
  }

  lemma RoundedQuotient(p: nat, m: nat)
    requires 0 < m && p <= m
    ensures var q := (200 * p + m) / (2 * m);
      && 0 <= q <= 100
      && 2 * m * q <= 200 * p + m < 2 * m * (q + 1)
      && (p == m ==> q == 100)
  {
    var x, n := 200 * p + m, 2 * m;
    var q := x / n;
    DivisionBounds(x, n);
    if q > 100 {
      MulMonotone(n, 101, q);
    }
    if p == m && q < 100 {
      MulMonotone(n, q + 1, 100);
    }
  }

  lemma DivisionBounds(x: int, n: int)
    requires n > 0
    ensures n * (x / n) <= x < n * (x / n) + n
  {
  }

  lemma MulMonotone(a: nat, b: int, c: int)
    requires b <= c
    ensures a * b <= a * c
  {
  }

  datatype StatsMessage =
    | StartAdding                                              // "Start adding some items ..."
    | ReadyToGo                                                // "You got everything, ready to go!"
    | Progress(numItems: nat, numPacked: nat, percent: int)    // "You have N items ... packed P (X%)"

  /** The footer as Stats.js chooses it: empty list first, then a percentage of 100. */
  function Message(items: seq<Item>): (m: StatsMessage)
    ensures m == StartAdding <==> |items| == 0
    ensures |items| > 0 && NumPacked(items) == |items| ==> m == ReadyToGo
    ensures m == ReadyToGo ==> |items| > 0 && 200 * (|items| - NumPacked(items)) <= |items|
    ensures |items| > 0 ==> (m == ReadyToGo <==> PercentPacked(NumPacked(items), |items|) == 100)
    ensures m.Progress? ==> m.numItems == |items| && m.numPacked == NumPacked(items) && 0 <= m.percent < 100
    ensures m.Progress? ==> |items| > 0 && m.percent == PercentPacked(NumPacked(items), |items|)
  {
    if |items| == 0 then StartAdding
    else
      var n, p := |items|, NumPacked(items);
      var pct := PercentPacked(p, n);
      if pct == 100 then FullPercentMeansNearlyAll(p, n); ReadyToGo else Progress(n, p, pct)
  }

  /** A rounded percentage of 100 leaves at most one item in 200 unpacked. */
  lemma FullPercentMeansNearlyAll(p: nat, n: nat)
    requires 0 < n && p <= n && PercentPacked(p, n) == 100
    ensures 200 * (n - p) <= n
  {
  }

  /** The footer with "ready to go" reserved for a list whose every item is packed. */
  function IntendedMessage(items: seq<Item>): (m: StatsMessage)
    ensures m == StartAdding <==> |items| == 0
    ensures m == ReadyToGo <==> |items| > 0 && forall i :: 0 <= i < |items| ==> items[i].packed
    ensures m.Progress? ==> m.numItems == |items| && m.numPacked == NumPacked(items) && m.numPacked < m.numItems
  {
    if |items| == 0 then StartAdding
    else if NumPacked(items) == |items| then ReadyToGo
    else Progress(|items|, NumPacked(items), PercentPacked(NumPacked(items), |items|))
  }

  /** One unpacked item followed by 399 packed ones: 99.75% rounds to 100, so Stats.js says
      "ready to go" with an item still unpacked. */
  lemma ReadyWithItemUnpacked(unpacked: Item, rest: seq<Item>)
    requires !unpacked.packed
    requires |rest| == 399 && forall i :: 0 <= i < |rest| ==> rest[i].packed
    ensures NumPacked([unpacked] + rest) == 399 < |[unpacked] + rest|
    ensures Message([unpacked] + rest) == ReadyToGo
    ensures IntendedMessage([unpacked] + rest).Progress?
  {
    var items := [unpacked] + rest;
    assert NumPacked(rest) == 399;
    assert items[1..] == rest;
    assert NumPacked(items) == 399;
    ReadyAt399Of400(items);
  }

  /** Any 400-item list with 399 packed items gets the "ready to go" footer. */
  lemma ReadyAt399Of400(items: seq<Item>)
    requires |items| == 400 && NumPacked(items) == 399
    ensures Message(items) == ReadyToGo
  {
    var pct := PercentPacked(399, 400);
    assert 800 * pct <= 80200 < 800 * pct + 800;
  }
}
