/** What a run of largest differencing delivers: a heap of states keeps its items, its total and
    its filled sets through every merge, and the last state left reads off as a balanced partition. */
module BalancedPartitions {
  import opened KarmarkarKarp

  // ----- partitions of 0 .. n-1

  function Range(n: nat): seq<nat> {
    seq(n, i => i)
  }

  function Flatten(parts: seq<seq<nat>>): seq<nat> {
    if parts == [] then [] else parts[0] + Flatten(parts[1..])
  }

  function Sum(lengths: seq<nat>): nat {
    if lengths == [] then 0 else lengths[0] + Sum(lengths[1..])
  }

  function PartLength(lengths: seq<nat>, part: seq<nat>): nat {
    if part == [] then 0
    else (if part[0] < |lengths| then lengths[part[0]] else 0) + PartLength(lengths, part[1..])
  }

  function NonEmptyParts(parts: seq<seq<nat>>): nat {
    if parts == [] then 0 else (if parts[0] != [] then 1 else 0) + NonEmptyParts(parts[1..])
  }

  function MaxLength(items: seq<Item>): nat {
    if items == [] then 0
    else var m := MaxLength(items[1..]); if items[0].length > m then items[0].length else m
  }

  /** The largest difference of lengths within a block of k neighbours, from `offset` on. */
  function MaxBlockGap(sorted: seq<Item>, k: nat, offset: nat): int
    requires k > 0
    decreases |sorted| - offset
  {
    if offset + k > |sorted| then 0
    else
      var gap := sorted[offset + k - 1].length - sorted[offset].length;
      var rest := MaxBlockGap(sorted, k, offset + k);
      if gap > rest then gap else rest
  }

  function Items(lengths: seq<nat>): seq<Item> {
    seq(|lengths|, i requires 0 <= i < |lengths| => Item(i, lengths[i]))
  }

  predicate Ascending(a: Item, b: Item) {
    a.length < b.length || (a.length == b.length && a.index < b.index)
  }

  function InsertAscending(x: Item, items: seq<Item>): seq<Item> {
    if items == [] || Ascending(x, items[0]) then [x] + items
    else [items[0]] + InsertAscending(x, items[1..])
  }

  function SortAscending(items: seq<Item>): seq<Item> {
    if items == [] then [] else InsertAscending(items[0], SortAscending(items[1..]))
  }

  function SpreadBound(lengths: seq<nat>, k: nat, equalSize: bool): int
    requires k > 0
  {
    if equalSize then MaxBlockGap(SortAscending(Items(lengths)), k, 0) else MaxLength(Items(lengths))
  }

  /** The indices 0 .. n-1 in k parts, each once; the lengths of any two parts within the bound; as
      many parts filled as possible; and, when asked for, all parts of the same size. */
  ghost predicate BalancedPartition(lengths: seq<nat>, k: nat, equalSize: bool, parts: seq<seq<nat>>)
    requires k > 0
  {
    var bound, n := SpreadBound(lengths, k, equalSize), |lengths|;
    && |parts| == k
    && multiset(Flatten(parts)) == multiset(Range(n))
    && (forall p, q | p in parts && q in parts :: PartLength(lengths, p) - PartLength(lengths, q) <= bound)
    && (forall p | p in parts :: k * PartLength(lengths, p) <= Sum(lengths) + (k - 1) * bound)
    && NonEmptyParts(parts) == AtMost(k, n, 0)
    && (equalSize ==> forall p | p in parts :: |p| * k == n)
  }

  // ----- sorting the items by length

  predicate LengthsAscend(items: seq<Item>) {
    items == [] || ((forall x | x in items[1..] :: items[0].length <= x.length) && LengthsAscend(items[1..]))
  }

  lemma {:induction false} InsertAscendingKeeps(x: Item, items: seq<Item>)
    ensures var r := InsertAscending(x, items);
            && |r| == |items| + 1
            && multiset(Indices(r)) == multiset{x.index} + multiset(Indices(items))
            && Total(r) == x.length + Total(items)
            && (forall y :: y in r <==> y == x || y in items)
  {
    var r := InsertAscending(x, items);
    if items == [] || Ascending(x, items[0]) {
      assert r[1..] == items;
    } else {
      InsertAscendingKeeps(x, items[1..]);
      assert r[1..] == InsertAscending(x, items[1..]);
      assert items == [items[0]] + items[1..];
    }
  }

  lemma {:induction false} InsertAscends(x: Item, items: seq<Item>)
    requires LengthsAscend(items)
    ensures LengthsAscend(InsertAscending(x, items))
  {
    var r := InsertAscending(x, items);
    if items == [] || Ascending(x, items[0]) {
      assert r[1..] == items;
      assert items != [] ==> items == [items[0]] + items[1..];
    } else {
      InsertAscends(x, items[1..]);
      InsertAscendingKeeps(x, items[1..]);
      assert r[1..] == InsertAscending(x, items[1..]);
    }
  }

  lemma {:induction false} SortAscendingKeeps(items: seq<Item>)
    ensures var r := SortAscending(items);
            && |r| == |items|
            && multiset(Indices(r)) == multiset(Indices(items)) && Total(r) == Total(items)
            && (forall y :: y in r <==> y in items)
  {
    if items == [] {
    } else {
      SortAscendingKeeps(items[1..]);
      InsertAscendingKeeps(items[0], SortAscending(items[1..]));
      assert items == [items[0]] + items[1..];
    }
  }

  lemma {:induction false} SortAscends(items: seq<Item>)
    ensures LengthsAscend(SortAscending(items))
  {
    if items == [] {
    } else {
      SortAscends(items[1..]);
      InsertAscends(items[0], SortAscending(items[1..]));
    }
  }

  lemma {:induction false} AscendAt(items: seq<Item>, i: nat, j: nat)
    requires LengthsAscend(items) && i <= j < |items|
    ensures items[i].length <= items[j].length
  {
    if i > 0 {
      AscendAt(items[1..], i - 1, j - 1);
    } else if j > 0 {
      assert items[j] == items[1..][j - 1];
    }
  }

  lemma {:induction false} LongestItem(items: seq<Item>, x: Item)
    requires x in items
    ensures x.length <= MaxLength(items)
  {
    if x != items[0] {
      assert items == [items[0]] + items[1..];
      LongestItem(items[1..], x);
    }
  }

  /** The items of `lengths` are the indices 0 .. n-1, with the lengths' sum. */
  lemma {:induction false} ItemsIndices(lengths: seq<nat>, from: nat)
    requires from <= |lengths|
    ensures Indices(Items(lengths)[from..]) == Range(|lengths|)[from..]
    ensures Total(Items(lengths)[from..]) == Sum(lengths[from..])
    decreases |lengths| - from
  {
    if from < |lengths| {
      ItemsIndices(lengths, from + 1);
      assert Items(lengths)[from..][1..] == Items(lengths)[from + 1..];
      assert lengths[from..][1..] == lengths[from + 1..];
    }
  }

  // ----- heaps of states

  type Heap = seq<Bins>

  function HeapBag(h: Heap): multiset<nat> {
    if h == [] then multiset{} else Bag(h[0]) + HeapBag(h[1..])
  }

  function HeapWeight(h: Heap): int {
    if h == [] then 0 else Weight(h[0]) + HeapWeight(h[1..])
  }

  function HeapFilled(h: Heap): nat {
    if h == [] then 0 else Filled(h[0]) + HeapFilled(h[1..])
  }

  predicate StateValid(st: Bins, lengths: seq<nat>, k: nat, equalSize: bool, bound: int) {
    && |st| == k > 0
    && Decreasing(st) && AllBalanced(st) && AllItemsOf(st, lengths)
    && Spread(st) <= bound
    && (equalSize ==> EachHas(st, |st[0].items|))
  }

  predicate HeapValid(h: Heap, lengths: seq<nat>, k: nat, equalSize: bool, bound: int) {
    forall st | st in h :: StateValid(st, lengths, k, equalSize, bound)
  }

  lemma {:induction false} HeapConcat(a: Heap, b: Heap)
    ensures HeapBag(a + b) == HeapBag(a) + HeapBag(b)
    ensures HeapWeight(a + b) == HeapWeight(a) + HeapWeight(b)
    ensures HeapFilled(a + b) == HeapFilled(a) + HeapFilled(b)
  {
    if a == [] {
      assert a + b == b;
    } else {
      assert (a + b)[1..] == a[1..] + b;
      HeapConcat(a[1..], b);
    }
  }

  lemma HeapSingle(st: Bins)
    ensures HeapBag([st]) == Bag(st) && HeapWeight([st]) == Weight(st) && HeapFilled([st]) == Filled(st)
  {
  }

  lemma HeapRemove(h: Heap, i: nat)
    requires i < |h|
    ensures var rest := h[..i] + h[i + 1..];
            && HeapBag(h) == Bag(h[i]) + HeapBag(rest)
            && HeapWeight(h) == Weight(h[i]) + HeapWeight(rest)
            && HeapFilled(h) == Filled(h[i]) + HeapFilled(rest)
  {
    var one := [h[i]];
    assert h == h[..i] + (one + h[i + 1..]);
    HeapConcat(h[..i], one + h[i + 1..]);
    HeapConcat(one, h[i + 1..]);
    HeapConcat(h[..i], h[i + 1..]);
    HeapSingle(h[i]);
  }

  lemma MergeValid(a: Bins, b: Bins, lengths: seq<nat>, k: nat, equalSize: bool, bound: int)
    requires StateValid(a, lengths, k, equalSize, bound) && StateValid(b, lengths, k, equalSize, bound)
    ensures StateValid(Merge(a, b), lengths, k, equalSize, bound)
  {
    MergeConserves(a, b);
    MergeItemsOf(a, b, lengths);
    MergeSpread(a, b);
    if equalSize {
      MergeSizes(a, b, |a[0].items|, |b[0].items|);
      assert Merge(a, b)[0] in Merge(a, b);
    }
  }

  lemma HeapPush(rest: Heap, st: Bins)
    ensures HeapBag(rest + [st]) == HeapBag(rest) + Bag(st)
    ensures HeapWeight(rest + [st]) == HeapWeight(rest) + Weight(st)
    ensures HeapFilled(rest + [st]) == HeapFilled(rest) + Filled(st)
  {
    HeapConcat(rest, [st]);
    HeapSingle(st);
  }

  lemma Reorder(x: multiset<nat>, y: multiset<nat>, z: multiset<nat>)
    ensures z + (x + y) == x + (y + z)
  {
  }

  /** One turn of the merging loop: states a and b become m beside the rest of the heap. The indices
      and the total stay, and a filled set is lost only when more than k were filled. */
  lemma MergeStep(a: Bins, b: Bins, m: Bins, rest: Heap)
    requires |a| == |b| && AllBalanced(a) && AllBalanced(b) && Decreasing(a) && Decreasing(b)
    requires m == Merge(a, b)
    ensures HeapBag(rest + [m]) == Bag(a) + (Bag(b) + HeapBag(rest))
    ensures HeapWeight(rest + [m]) == Weight(a) + (Weight(b) + HeapWeight(rest))
    ensures HeapFilled(rest + [m]) == HeapFilled(rest) + AtMost(|a|, Filled(a), Filled(b))
  {
    MergeConserves(a, b);
    MergeFills(a, b);
    HeapPush(rest, m);
    Reorder(Bag(a), Bag(b), HeapBag(rest));
  }

  lemma FreshValid(items: seq<Item>, lengths: seq<nat>, k: nat, equalSize: bool, bound: int, low: nat, high: nat)
    requires |items| <= k && 0 < k && low <= high && high - low <= bound
    requires ItemsOf(items, lengths) && forall x | x in items :: low <= x.length <= high
    requires if equalSize then |items| == k else low == 0
    ensures StateValid(Fresh(items, k), lengths, k, equalSize, bound)
  {
    FreshKeeps(items, k);
    FreshItemsOf(items, k, lengths);
    FreshSpread(items, k, low, high);
    assert Fresh(items, k)[0] in Fresh(items, k);
  }

  /** A heap that holds all indices 0 .. n-1 in valid states, filled as far as k allows. */
  ghost predicate HeapReady(h: Heap, lengths: seq<nat>, k: nat, equalSize: bool, bound: int) {
    var n := |lengths|;
    && HeapValid(h, lengths, k, equalSize, bound)
    && HeapBag(h) == multiset(Range(n)) && HeapWeight(h) == Sum(lengths)
    && (if n <= k then HeapFilled(h) == n else HeapFilled(h) >= k)
  }

  lemma MergeTwoCounts(h: Heap, i: nat, rest1: Heap, j: nat, rest2: Heap, m: Bins)
    requires i < |h| && rest1 == h[..i] + h[i + 1..]
    requires j < |rest1| && rest2 == rest1[..j] + rest1[j + 1..]
    requires |h[i]| == |rest1[j]| && AllBalanced(h[i]) && AllBalanced(rest1[j])
    requires Decreasing(h[i]) && Decreasing(rest1[j]) && m == Merge(h[i], rest1[j])
    ensures HeapBag(rest2 + [m]) == HeapBag(h) && HeapWeight(rest2 + [m]) == HeapWeight(h)
    ensures HeapFilled(h) == Filled(h[i]) + Filled(rest1[j]) + HeapFilled(rest2)
    ensures HeapFilled(rest2 + [m]) == HeapFilled(rest2) + AtMost(|h[i]|, Filled(h[i]), Filled(rest1[j]))
  {
    HeapRemove(h, i);
    HeapRemove(rest1, j);
    MergeStep(h[i], rest1[j], m, rest2);
  }

  lemma FilledEnough(n: nat, k: nat, x: nat, y: nat, others: nat)
    requires if n <= k then x + y + others == n else x + y + others >= k
    ensures if n <= k then others + AtMost(k, x, y) == n else others + AtMost(k, x, y) >= k
  {
  }

  /** Taking any two states out and putting their merge back keeps the heap ready. */
  lemma MergeTwo(h: Heap, i: nat, rest1: Heap, j: nat, rest2: Heap,
                 lengths: seq<nat>, k: nat, equalSize: bool, bound: int)
    requires HeapReady(h, lengths, k, equalSize, bound)
    requires i < |h| && rest1 == h[..i] + h[i + 1..]
    requires j < |rest1| && rest2 == rest1[..j] + rest1[j + 1..]
    ensures |h[i]| == |rest1[j]| && HeapReady(rest2 + [Merge(h[i], rest1[j])], lengths, k, equalSize, bound)
  {
    var a, b := h[i], rest1[j];
    assert a in h && b in h && forall st | st in rest2 :: st in h by {
      assert b in rest1 && (forall st | st in rest1 :: st in h) && (forall st | st in rest2 :: st in rest1);
    }
    MergeValid(a, b, lengths, k, equalSize, bound);
    MergeTwoCounts(h, i, rest1, j, rest2, Merge(a, b));
    FilledEnough(|lengths|, k, Filled(a), Filled(b), HeapFilled(rest2));
  }

  // ----- reading off the last state

  function PartsOf(bins: Bins): seq<seq<nat>> {
    if bins == [] then [] else [Indices(bins[0].items)] + PartsOf(bins[1..])
  }

  lemma {:induction false} IndicesSize(items: seq<Item>)
    ensures |Indices(items)| == |items|
  {
    if items == [] {
    } else {
      IndicesSize(items[1..]);
    }
  }

  lemma {:induction false} PartsOfCounts(bins: Bins)
    ensures |PartsOf(bins)| == |bins|
    ensures multiset(Flatten(PartsOf(bins))) == Bag(bins)
    ensures NonEmptyParts(PartsOf(bins)) == Filled(bins)
  {
    if bins == [] {
    } else {
      PartsOfCounts(bins[1..]);
      assert PartsOf(bins)[1..] == PartsOf(bins[1..]);
      IndicesSize(bins[0].items);
    }
  }

  lemma OneMore(n: nat, c: nat)
    ensures (n + 1) * c == c + n * c
  {
  }

  lemma {:induction false} EqualSizesCount(bins: Bins, c: nat)
    requires EachHas(bins, c)
    ensures |Bag(bins)| == |bins| * c
  {
    if bins == [] {
    } else {
      assert |bins[0].items| == c && EachHas(bins[1..], c) by {
        assert bins[0] in bins && forall b | b in bins[1..] :: b in bins;
      }
      EqualSizesCount(bins[1..], c);
      IndicesSize(bins[0].items);
      OneMore(|bins| - 1, c);
    }
  }

  lemma {:induction false} PartFrom(bins: Bins, p: seq<nat>) returns (b: Bin)
    requires p in PartsOf(bins)
    ensures b in bins && p == Indices(b.items)
  {
    assert PartsOf(bins) == [Indices(bins[0].items)] + PartsOf(bins[1..]);
    if p == Indices(bins[0].items) {
      b := bins[0];
    } else {
      b := PartFrom(bins[1..], p);
    }
  }

  lemma {:induction false} PartLengthIsTotal(lengths: seq<nat>, items: seq<Item>)
    requires ItemsOf(items, lengths)
    ensures PartLength(lengths, Indices(items)) == Total(items)
  {
    if items == [] {
    } else {
      assert items[0] in items && forall x | x in items[1..] :: x in items;
      PartLengthIsTotal(lengths, items[1..]);
      assert Indices(items)[1..] == Indices(items[1..]);
    }
  }

  /** A set of a valid state, read off as a part: its length is its sum, within the spread of the
      others, and k times it is bounded by the total. */
  lemma PartBounds(st: Bins, lengths: seq<nat>, k: nat, equalSize: bool, bound: int, p: seq<nat>, q: seq<nat>)
    requires StateValid(st, lengths, k, equalSize, bound)
    requires p in PartsOf(st) && q in PartsOf(st)
    ensures PartLength(lengths, p) - PartLength(lengths, q) <= bound
    ensures k * PartLength(lengths, p) <= Weight(st) + (k - 1) * bound
    ensures equalSize ==> |p| == |st[0].items|
  {
    var b := PartFrom(st, p);
    var c := PartFrom(st, q);
    PartLengthIsTotal(lengths, b.items);
    PartLengthIsTotal(lengths, c.items);
    IndicesSize(b.items);
    var i :| 0 <= i < |st| && st[i] == b;
    forall x | x in st ensures b.sum - x.sum <= bound {
      var j :| 0 <= j < |st| && st[j] == x;
      SumsWithinSpread(st, i, j);
    }
    LargestSum(st, bound, i);
  }

  lemma LastStateIsPartition(st: Bins, lengths: seq<nat>, k: nat, equalSize: bool)
    requires k > 0 && StateValid(st, lengths, k, equalSize, SpreadBound(lengths, k, equalSize))
    requires Bag(st) == multiset(Range(|lengths|)) && Weight(st) == Sum(lengths)
    requires Filled(st) == AtMost(k, |lengths|, 0)
    ensures BalancedPartition(lengths, k, equalSize, PartsOf(st))
  {
    var bound := SpreadBound(lengths, k, equalSize);
    PartsOfCounts(st);
    forall p, q | p in PartsOf(st) && q in PartsOf(st)
      ensures PartLength(lengths, p) - PartLength(lengths, q) <= bound
      ensures k * PartLength(lengths, p) <= Sum(lengths) + (k - 1) * bound
      ensures equalSize ==> |p| == |st[0].items|
    {
      PartBounds(st, lengths, k, equalSize, bound, p, q);
    }
    if equalSize {
      EqualSizesCount(st, |st[0].items|);
      assert |multiset(Range(|lengths|))| == |lengths|;
      assert k * |st[0].items| == |st[0].items| * k;
    }
  }

  lemma {:induction false} SingleStateLeft(h: Heap, lengths: seq<nat>, k: nat, equalSize: bool)
    requires k > 0 && |h| == 1 && HeapReady(h, lengths, k, equalSize, SpreadBound(lengths, k, equalSize))
    ensures BalancedPartition(lengths, k, equalSize, PartsOf(h[0]))
  {
    var st := h[0];
    assert st in h && h == [st];
    HeapSingle(st);
    FilledFirst(st, 0);
    LastStateIsPartition(st, lengths, k, equalSize);
  }

  // ----- the initial heap

  /** A heap into which exactly the items of `seen` have been put. */
  ghost predicate HeapSoFar(h: Heap, seen: seq<Item>, lengths: seq<nat>, k: nat, equalSize: bool)
    requires k > 0
  {
    && HeapValid(h, lengths, k, equalSize, SpreadBound(lengths, k, equalSize))
    && HeapBag(h) == multiset(Indices(seen)) && HeapWeight(h) == Total(seen) && HeapFilled(h) == |seen|
  }

  lemma PushBlock(h: Heap, seen: seq<Item>, items: seq<Item>, lengths: seq<nat>, k: nat, equalSize: bool)
    requires k > 0 && HeapSoFar(h, seen, lengths, k, equalSize) && |items| <= k
    requires StateValid(Fresh(items, k), lengths, k, equalSize, SpreadBound(lengths, k, equalSize))
    ensures HeapSoFar(h + [Fresh(items, k)], seen + items, lengths, k, equalSize)
  {
    HeapPush(h, Fresh(items, k));
    FreshKeeps(items, k);
    IndicesConcat(seen, items);
    TotalConcat(seen, items);
  }

  lemma SortedItemsOf(lengths: seq<nat>)
    ensures var sorted := SortAscending(Items(lengths));
            |sorted| == |lengths| && ItemsOf(sorted, lengths) && LengthsAscend(sorted)
  {
    SortAscendingKeeps(Items(lengths));
    SortAscends(Items(lengths));
  }

  /** A state of a single item never spreads more than the longest item. */
  lemma SingleItemValid(lengths: seq<nat>, k: nat, x: Item)
    requires k > 0 && x in SortAscending(Items(lengths))
    ensures StateValid(Fresh([x], k), lengths, k, false, SpreadBound(lengths, k, false))
  {
    SortAscendingKeeps(Items(lengths));
    LongestItem(Items(lengths), x);
    FreshValid([x], lengths, k, false, MaxLength(Items(lengths)), 0, MaxLength(Items(lengths)));
  }

  lemma BlockSpan(sorted: seq<Item>, offset: nat, k: nat)
    requires LengthsAscend(sorted) && k > 0 && offset + k <= |sorted|
    ensures sorted[offset].length <= sorted[offset + k - 1].length
    ensures forall x | x in sorted[offset..offset + k] ::
              sorted[offset].length <= x.length <= sorted[offset + k - 1].length
  {
    AscendAt(sorted, offset, offset + k - 1);
    forall x | x in sorted[offset..offset + k]
      ensures sorted[offset].length <= x.length <= sorted[offset + k - 1].length
    {
      var i :| offset <= i < offset + k && sorted[i] == x;
      AscendAt(sorted, offset, i);
      AscendAt(sorted, i, offset + k - 1);
    }
  }

  /** A state of one block of k neighbours spreads by the difference of the block's ends. */
  lemma BlockValid(lengths: seq<nat>, k: nat, sorted: seq<Item>, offset: nat)
    requires k > 0 && sorted == SortAscending(Items(lengths)) && offset + k <= |sorted|
    requires MaxBlockGap(sorted, k, offset) <= SpreadBound(lengths, k, true)
    ensures StateValid(Fresh(sorted[offset..offset + k], k), lengths, k, true, SpreadBound(lengths, k, true))
  {
    SortedItemsOf(lengths);
    var items := sorted[offset..offset + k];
    assert ItemsOf(items, lengths) by {
      assert forall x | x in items :: x in sorted;
    }
    BlockSpan(sorted, offset, k);
    FreshValid(items, lengths, k, true, SpreadBound(lengths, k, true), sorted[offset].length,
               sorted[offset + k - 1].length);
  }

  lemma AllItemsReady(h: Heap, lengths: seq<nat>, k: nat, equalSize: bool)
    requires k > 0 && HeapSoFar(h, SortAscending(Items(lengths)), lengths, k, equalSize)
    ensures HeapReady(h, lengths, k, equalSize, SpreadBound(lengths, k, equalSize))
  {
    SortAscendingKeeps(Items(lengths));
    ItemsIndices(lengths, 0);
    assert Items(lengths)[0..] == Items(lengths) && Range(|lengths|)[0..] == Range(|lengths|)
           && lengths[0..] == lengths;
  }

  lemma NotEmptyHeap(h: Heap, lengths: seq<nat>, k: nat, equalSize: bool)
    requires k > 0 && lengths != [] && HeapReady(h, lengths, k, equalSize, SpreadBound(lengths, k, equalSize))
    ensures h != []
  {
  }
}
