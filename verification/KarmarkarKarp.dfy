/** Largest differencing on values: what it does to a state (k sets of items, in decreasing order)
    to be created and to be merged with another, and what every merge keeps. */
module KarmarkarKarp {
  datatype Item = Item(index: nat, length: nat)

  /** One of the k sets of a state: the items put into it so far and their total length. */
  datatype Bin = Bin(items: seq<Item>, sum: int)

  const EMPTY_BIN := Bin([], 0)

  type Bins = seq<Bin>

  function Total(items: seq<Item>): nat {
    if items == [] then 0 else items[0].length + Total(items[1..])
  }

  predicate Balanced(b: Bin) {
    b.sum == Total(b.items)
  }

  predicate AllBalanced(bins: Bins) {
    forall b | b in bins :: Balanced(b)
  }

  function Indices(items: seq<Item>): seq<nat> {
    if items == [] then [] else [items[0].index] + Indices(items[1..])
  }

  lemma {:induction false} IndicesConcat(a: seq<Item>, b: seq<Item>)
    ensures Indices(a + b) == Indices(a) + Indices(b)
  {
    if a == [] {
      assert a + b == b;
    } else {
      assert (a + b)[1..] == a[1..] + b;
      IndicesConcat(a[1..], b);
    }
  }

  /** The items of a set are indices into `lengths` with their lengths. */
  predicate ItemsOf(items: seq<Item>, lengths: seq<nat>) {
    forall x | x in items :: x.index < |lengths| && x.length == lengths[x.index]
  }

  predicate AllItemsOf(bins: Bins, lengths: seq<nat>) {
    forall b | b in bins :: ItemsOf(b.items, lengths)
  }

  lemma {:induction false} TotalConcat(a: seq<Item>, b: seq<Item>)
    ensures Total(a + b) == Total(a) + Total(b)
  {
    if a == [] {
      assert a + b == b;
    } else {
      assert (a + b)[1..] == a[1..] + b;
      TotalConcat(a[1..], b);
    }
  }

  /** min(k, x + y) */
  function AtMost(k: nat, x: nat, y: nat): nat {
    if x + y < k then x + y else k
  }

  // ----- the order on sets and on states

  predicate ItemBefore(a: Item, b: Item) {
    a.index < b.index || (a.index == b.index && a.length < b.length)
  }

  /** Lexicographic comparison of two lists of items. */
  predicate ItemsBefore(a: seq<Item>, b: seq<Item>) {
    if b == [] then false
    else if a == [] then true
    else if a[0] == b[0] then ItemsBefore(a[1..], b[1..])
    else ItemBefore(a[0], b[0])
  }

  /** The order on sets: by sum, then by number of items, then by the items themselves. */
  predicate Less(a: Bin, b: Bin) {
    if a.sum != b.sum then a.sum < b.sum
    else if |a.items| != |b.items| then |a.items| < |b.items|
    else ItemsBefore(a.items, b.items)
  }

  /** The first two levels of the order, on which all bounds rest. */
  predicate NoSmaller(a: Bin, b: Bin) {
    a.sum > b.sum || (a.sum == b.sum && |a.items| >= |b.items|)
  }

  predicate Decreasing(bins: Bins) {
    bins == [] || ((forall b | b in bins[1..] :: NoSmaller(bins[0], b)) && Decreasing(bins[1..]))
  }

  lemma {:induction false} DecreasingAt(bins: Bins, i: nat, j: nat)
    requires Decreasing(bins) && i <= j < |bins|
    ensures NoSmaller(bins[i], bins[j])
  {
    if i > 0 {
      DecreasingAt(bins[1..], i - 1, j - 1);
    } else if j > 0 {
      assert bins[j] == bins[1..][j - 1];
    }
  }

  function Spread(bins: Bins): int
    requires bins != []
  {
    bins[0].sum - bins[|bins| - 1].sum
  }

  /** The heap order: the state with the largest spread first, then the one with the largest set. */
  predicate StateLess(a: Bins, b: Bins)
    requires a != [] && b != []
  {
    if Spread(a) != Spread(b) then Spread(a) > Spread(b) else Less(b[0], a[0])
  }

  // ----- sorting a state

  function Insert(b: Bin, bins: Bins): Bins {
    if bins == [] then [b]
    else if Less(bins[0], b) then [b] + bins
    else [bins[0]] + Insert(b, bins[1..])
  }

  function SortDecreasing(bins: Bins): Bins {
    if bins == [] then [] else Insert(bins[0], SortDecreasing(bins[1..]))
  }

  /** The indices held by a state, its total length and its number of non-empty sets. */
  function Bag(bins: Bins): multiset<nat> {
    if bins == [] then multiset{} else multiset(Indices(bins[0].items)) + Bag(bins[1..])
  }

  function Weight(bins: Bins): int {
    if bins == [] then 0 else bins[0].sum + Weight(bins[1..])
  }

  function Filled(bins: Bins): nat {
    if bins == [] then 0 else (if bins[0].items != [] then 1 else 0) + Filled(bins[1..])
  }

  lemma {:induction false} InsertOrders(b: Bin, bins: Bins)
    requires Decreasing(bins)
    ensures Decreasing(Insert(b, bins))
    ensures forall x :: x in Insert(b, bins) <==> x == b || x in bins
  {
    if bins == [] {
    } else {
      assert bins == [bins[0]] + bins[1..];
      if Less(bins[0], b) {
        assert ([b] + bins)[1..] == bins;
      } else {
        InsertOrders(b, bins[1..]);
        assert Insert(b, bins)[1..] == Insert(b, bins[1..]);
      }
    }
  }

  lemma {:induction false} InsertCounts(b: Bin, bins: Bins)
    ensures var r := Insert(b, bins);
            && |r| == |bins| + 1
            && Bag(r) == multiset(Indices(b.items)) + Bag(bins)
            && Weight(r) == b.sum + Weight(bins)
            && Filled(r) == (if b.items != [] then 1 else 0) + Filled(bins)
  {
    if bins == [] {
    } else {
      if Less(bins[0], b) {
        assert ([b] + bins)[1..] == bins;
      } else {
        InsertCounts(b, bins[1..]);
        assert Insert(b, bins)[1..] == Insert(b, bins[1..]);
      }
    }
  }

  lemma {:induction false} SortOrders(bins: Bins)
    ensures Decreasing(SortDecreasing(bins))
    ensures forall x :: x in SortDecreasing(bins) <==> x in bins
  {
    if bins == [] {
    } else {
      SortOrders(bins[1..]);
      InsertOrders(bins[0], SortDecreasing(bins[1..]));
      assert bins == [bins[0]] + bins[1..];
    }
  }

  lemma {:induction false} SortCounts(bins: Bins)
    ensures var r := SortDecreasing(bins);
            |r| == |bins| && Bag(r) == Bag(bins) && Weight(r) == Weight(bins) && Filled(r) == Filled(bins)
  {
    if bins == [] {
    } else {
      SortCounts(bins[1..]);
      InsertCounts(bins[0], SortDecreasing(bins[1..]));
    }
  }

  // ----- merging two states

  function Join(a: Bin, b: Bin): Bin {
    Bin(a.items + b.items, a.sum + Total(b.items))
  }

  /** Joins the i-th set of `a` with the i-th of `b` counted from the end. */
  function JoinOpposite(a: Bins, b: Bins): Bins
    requires |a| == |b|
  {
    if a == [] then [] else [Join(a[0], b[|b| - 1])] + JoinOpposite(a[1..], b[..|b| - 1])
  }

  function Merge(a: Bins, b: Bins): Bins
    requires |a| == |b|
  {
    SortDecreasing(JoinOpposite(a, b))
  }

  lemma {:induction false} CountsConcat(a: Bins, b: Bins)
    ensures Bag(a + b) == Bag(a) + Bag(b)
    ensures Weight(a + b) == Weight(a) + Weight(b)
  {
    if a == [] {
      assert a + b == b;
    } else {
      assert (a + b)[1..] == a[1..] + b;
      CountsConcat(a[1..], b);
    }
  }

  lemma LastOut(b: Bins)
    requires b != []
    ensures Bag(b) == Bag(b[..|b| - 1]) + multiset(Indices(b[|b| - 1].items))
    ensures Weight(b) == Weight(b[..|b| - 1]) + b[|b| - 1].sum
  {
    var front, last := b[..|b| - 1], [b[|b| - 1]];
    assert b == front + last;
    assert last[1..] == [];
    CountsConcat(front, last);
  }

  lemma {:induction false} JoinAt(a: Bins, b: Bins)
    requires |a| == |b|
    ensures |JoinOpposite(a, b)| == |a|
    ensures forall i | 0 <= i < |a| :: JoinOpposite(a, b)[i] == Join(a[i], b[|b| - 1 - i])
  {
    if a == [] {
    } else {
      JoinAt(a[1..], b[..|b| - 1]);
    }
  }

  lemma {:induction false} JoinBag(a: Bins, b: Bins)
    requires |a| == |b|
    ensures Bag(JoinOpposite(a, b)) == Bag(a) + Bag(b)
  {
    if a == [] {
    } else {
      var last, rest := b[|b| - 1], b[..|b| - 1];
      JoinBag(a[1..], rest);
      LastOut(b);
      IndicesConcat(a[0].items, last.items);
      assert JoinOpposite(a, b)[1..] == JoinOpposite(a[1..], rest);
    }
  }

  lemma {:induction false} JoinWeight(a: Bins, b: Bins)
    requires |a| == |b| && AllBalanced(b)
    ensures Weight(JoinOpposite(a, b)) == Weight(a) + Weight(b)
  {
    if a == [] {
    } else {
      var last, rest := b[|b| - 1], b[..|b| - 1];
      assert last in b && forall x | x in rest :: x in b;
      JoinWeight(a[1..], rest);
      LastOut(b);
      assert JoinOpposite(a, b)[1..] == JoinOpposite(a[1..], rest);
    }
  }

  /** Every set of a merged state is the join of two opposite sets. */
  lemma MergedFrom(a: Bins, b: Bins, x: Bin) returns (i: nat)
    requires |a| == |b| && x in Merge(a, b)
    ensures i < |a| && x == Join(a[i], b[|b| - 1 - i])
  {
    SortOrders(JoinOpposite(a, b));
    JoinAt(a, b);
    i :| 0 <= i < |a| && x == JoinOpposite(a, b)[i];
  }

  lemma MergeBalanced(a: Bins, b: Bins)
    requires |a| == |b| && AllBalanced(a) && AllBalanced(b)
    ensures AllBalanced(Merge(a, b))
  {
    forall x | x in Merge(a, b) ensures Balanced(x) {
      var i := MergedFrom(a, b, x);
      TotalConcat(a[i].items, b[|b| - 1 - i].items);
      assert a[i] in a && b[|b| - 1 - i] in b;
    }
  }

  /** Merging keeps the indices and the total, and returns the sets in decreasing order. */
  lemma MergeConserves(a: Bins, b: Bins)
    requires |a| == |b| && AllBalanced(a) && AllBalanced(b)
    ensures var r := Merge(a, b);
            && |r| == |a| && Decreasing(r) && AllBalanced(r)
            && Bag(r) == Bag(a) + Bag(b) && Weight(r) == Weight(a) + Weight(b)
  {
    MergeBalanced(a, b);
    JoinAt(a, b);
    JoinBag(a, b);
    JoinWeight(a, b);
    SortOrders(JoinOpposite(a, b));
    SortCounts(JoinOpposite(a, b));
  }

  lemma MergeItemsOf(a: Bins, b: Bins, lengths: seq<nat>)
    requires |a| == |b| && AllItemsOf(a, lengths) && AllItemsOf(b, lengths)
    ensures AllItemsOf(Merge(a, b), lengths)
  {
    forall x | x in Merge(a, b) ensures ItemsOf(x.items, lengths) {
      var i := MergedFrom(a, b, x);
      assert a[i] in a && b[|b| - 1 - i] in b;
    }
  }

  /** Two sums of a state differ by at most its spread, and its sums decrease. */
  lemma SumsWithinSpread(a: Bins, i: nat, j: nat)
    requires Decreasing(a) && i < |a| && j < |a|
    ensures i <= j ==> 0 <= a[i].sum - a[j].sum <= Spread(a)
    ensures j <= i ==> -Spread(a) <= a[i].sum - a[j].sum <= 0
  {
    DecreasingAt(a, 0, i);
    DecreasingAt(a, 0, j);
    DecreasingAt(a, i, |a| - 1);
    DecreasingAt(a, j, |a| - 1);
    if i <= j {
      DecreasingAt(a, i, j);
    } else {
      DecreasingAt(a, j, i);
    }
  }

  /** Any two sets of a merged state are as close as the larger spread of the two merged states. */
  lemma MergedSumsClose(a: Bins, b: Bins, x: Bin, y: Bin)
    requires |a| == |b| > 0 && AllBalanced(b) && Decreasing(a) && Decreasing(b)
    requires x in Merge(a, b) && y in Merge(a, b)
    ensures x.sum - y.sum <= Spread(a) || x.sum - y.sum <= Spread(b)
  {
    var i := MergedFrom(a, b, x);
    var j := MergedFrom(a, b, y);
    var i', j' := |b| - 1 - i, |b| - 1 - j;
    assert Balanced(b[i']) && Balanced(b[j']) by {
      assert b[i'] in b && b[j'] in b;
    }
    assert x.sum - y.sum == (a[i].sum - a[j].sum) + (b[i'].sum - b[j'].sum);
    SumsWithinSpread(a, i, j);
    SumsWithinSpread(b, i', j');
  }

  /** Merging never raises the spread above the larger of the two. */
  lemma MergeSpread(a: Bins, b: Bins)
    requires |a| == |b| > 0 && AllBalanced(b) && Decreasing(a) && Decreasing(b)
    ensures Merge(a, b) != []
    ensures Spread(Merge(a, b)) <= Spread(a) || Spread(Merge(a, b)) <= Spread(b)
  {
    var r := Merge(a, b);
    assert |r| == |a| by {
      JoinAt(a, b);
      SortCounts(JoinOpposite(a, b));
    }
    MergedSumsClose(a, b, r[0], r[|r| - 1]);
  }

  // ----- non-empty sets

  lemma {:induction false} NoneFilled(bins: Bins)
    requires Decreasing(bins) && AllBalanced(bins) && bins != [] && bins[0].items == []
    ensures Filled(bins) == 0
  {
    var tail := bins[1..];
    assert bins[0] in bins && forall b | b in tail :: b in bins;
    if tail != [] {
      assert tail[0] in tail;
      NoneFilled(tail);
    }
  }

  /** In decreasing order the non-empty sets come first: an empty set has sum zero, and among equal
      sums the order puts fewer items last. */
  lemma {:induction false} FilledFirst(bins: Bins, i: nat)
    requires Decreasing(bins) && AllBalanced(bins) && i < |bins|
    ensures bins[i].items != [] <==> i < Filled(bins)
    ensures Filled(bins) <= |bins|
  {
    var tail := bins[1..];
    assert bins[0] in bins && forall b | b in tail :: b in bins;
    if bins[0].items == [] {
      NoneFilled(bins);
      assert bins[i] in bins;
      DecreasingAt(bins, 0, i);
    } else if |bins| > 1 {
      FilledFirst(tail, if i > 0 then i - 1 else 0);
    }
  }

  /** A row of sets that is filled at its first p and its last q places. */
  lemma {:induction false} FilledAtBothEnds(bins: Bins, p: nat, q: nat)
    requires p <= |bins| && q <= |bins|
    requires forall i | 0 <= i < |bins| :: bins[i].items != [] <==> i < p || i >= |bins| - q
    ensures Filled(bins) == AtMost(|bins|, p, q)
  {
    if bins == [] {
    } else {
      var tail := bins[1..];
      assert forall i | 0 <= i < |tail| :: tail[i] == bins[i + 1];
      FilledAtBothEnds(tail, if p > 0 then p - 1 else 0, if q < |bins| then q else q - 1);
      assert bins[0].items != [] <==> 0 < p || q == |bins|;
    }
  }

  lemma JoinFilledAt(a: Bins, b: Bins, i: nat)
    requires i < |a| == |b| && AllBalanced(a) && AllBalanced(b) && Decreasing(a) && Decreasing(b)
    ensures Join(a[i], b[|b| - 1 - i]).items != [] <==> i < Filled(a) || i >= |b| - Filled(b)
  {
    FilledFirst(a, i);
    FilledFirst(b, |b| - 1 - i);
  }

  lemma JoinFills(a: Bins, b: Bins)
    requires |a| == |b| && AllBalanced(a) && AllBalanced(b) && Decreasing(a) && Decreasing(b)
    ensures Filled(JoinOpposite(a, b)) == AtMost(|a|, Filled(a), Filled(b))
  {
    var r, k := JoinOpposite(a, b), |a|;
    JoinAt(a, b);
    if k > 0 {
      FilledFirst(a, 0);
      FilledFirst(b, 0);
      forall i | 0 <= i < k ensures r[i].items != [] <==> i < Filled(a) || i >= k - Filled(b) {
        JoinFilledAt(a, b, i);
      }
      FilledAtBothEnds(r, Filled(a), Filled(b));
    }
  }

  /** Merging a state with p and one with q non-empty sets leaves min(k, p + q) of them non-empty. */
  lemma MergeFills(a: Bins, b: Bins)
    requires |a| == |b| && AllBalanced(a) && AllBalanced(b) && Decreasing(a) && Decreasing(b)
    ensures Filled(Merge(a, b)) == AtMost(|a|, Filled(a), Filled(b))
  {
    var r := JoinOpposite(a, b);
    SortCounts(r);
    JoinFills(a, b);
  }

  // ----- states of equal-sized sets

  predicate EachHas(bins: Bins, count: nat) {
    forall b | b in bins :: |b.items| == count
  }

  lemma MergeSizes(a: Bins, b: Bins, m: nat, n: nat)
    requires |a| == |b| && EachHas(a, m) && EachHas(b, n)
    ensures EachHas(Merge(a, b), m + n)
  {
    forall x | x in Merge(a, b) ensures |x.items| == m + n {
      var i := MergedFrom(a, b, x);
      assert a[i] in a && b[|b| - 1 - i] in b;
    }
  }

  // ----- new states

  /** k sets of which the first hold one given item each and the others are empty. */
  function Load(items: seq<Item>, k: nat): Bins
    requires |items| <= k
  {
    if k == 0 then []
    else if items == [] then [EMPTY_BIN] + Load([], k - 1)
    else [Bin([items[0]], items[0].length)] + Load(items[1..], k - 1)
  }

  function Fresh(items: seq<Item>, k: nat): Bins
    requires |items| <= k
  {
    SortDecreasing(Load(items, k))
  }

  lemma {:induction false} LoadCounts(items: seq<Item>, k: nat)
    requires |items| <= k
    ensures |Load(items, k)| == k && Weight(Load(items, k)) == Total(items) && Filled(Load(items, k)) == |items|
  {
    if k == 0 {
    } else {
      var rest := if items == [] then [] else items[1..];
      LoadCounts(rest, k - 1);
      assert Load(items, k)[1..] == Load(rest, k - 1);
    }
  }

  lemma OneIndex(x: Item)
    ensures Indices([x]) == [x.index]
  {
    assert [x][1..] == [];
  }

  lemma {:induction false} LoadBag(items: seq<Item>, k: nat)
    requires |items| <= k
    ensures Bag(Load(items, k)) == multiset(Indices(items))
  {
    if k == 0 {
    } else {
      var rest := if items == [] then [] else items[1..];
      LoadBag(rest, k - 1);
      assert Load(items, k)[1..] == Load(rest, k - 1);
      if items != [] {
        OneIndex(items[0]);
        assert Indices(items) == [items[0].index] + Indices(rest);
      }
    }
  }

  /** A loaded set is empty, and some set is left over, or it holds one of the items. */
  lemma {:induction false} LoadedWith(items: seq<Item>, k: nat, x: Bin)
    requires |items| <= k && x in Load(items, k)
    ensures (x == EMPTY_BIN && |items| < k)
            || (|x.items| == 1 && x.items[0] in items && x.sum == x.items[0].length)
  {
    if items != [] {
      var first := Bin([items[0]], items[0].length);
      assert Load(items, k) == [first] + Load(items[1..], k - 1);
      if x != first {
        LoadedWith(items[1..], k - 1, x);
      }
    } else {
      assert Load(items, k) == [EMPTY_BIN] + Load([], k - 1);
      if x != EMPTY_BIN {
        LoadedWith([], k - 1, x);
      }
    }
  }

  lemma FreshKeeps(items: seq<Item>, k: nat)
    requires |items| <= k
    ensures var r := Fresh(items, k);
            && |r| == k && Decreasing(r) && AllBalanced(r)
            && Bag(r) == multiset(Indices(items)) && Weight(r) == Total(items) && Filled(r) == |items|
            && (|items| == k ==> EachHas(r, 1))
  {
    LoadCounts(items, k);
    LoadBag(items, k);
    SortOrders(Load(items, k));
    SortCounts(Load(items, k));
    forall x | x in Fresh(items, k) ensures Balanced(x) && (|items| == k ==> |x.items| == 1) {
      LoadedWith(items, k, x);
    }
  }

  lemma FreshItemsOf(items: seq<Item>, k: nat, lengths: seq<nat>)
    requires |items| <= k && ItemsOf(items, lengths)
    ensures AllItemsOf(Fresh(items, k), lengths)
  {
    SortOrders(Load(items, k));
    forall x | x in Fresh(items, k) ensures ItemsOf(x.items, lengths) {
      assert x in Load(items, k);
      LoadedWith(items, k, x);
    }
  }

  /** The spread of a new state: within the span of its items' lengths, when zero belongs to the
      span of a state that has empty sets. */
  lemma FreshSpread(items: seq<Item>, k: nat, low: nat, high: nat)
    requires |items| <= k && 0 < k && low <= high
    requires forall x | x in items :: low <= x.length <= high
    requires |items| == k || low == 0
    ensures Fresh(items, k) != [] && Spread(Fresh(items, k)) <= high - low
  {
    FreshKeeps(items, k);
    SortOrders(Load(items, k));
    var r := Fresh(items, k);
    LoadedWith(items, k, r[0]);
    LoadedWith(items, k, r[k - 1]);
  }

  // ----- from a small spread to a small largest sum

  lemma Distribute(n: int, x: int, y: int)
    ensures n * (x - y) == n * x - n * y && (n + 1) * x == n * x + x
  {
  }

  lemma {:induction false} WeightAtLeast(bins: Bins, low: int)
    requires forall b | b in bins :: b.sum >= low
    ensures Weight(bins) >= |bins| * low
  {
    if bins == [] {
    } else {
      assert bins[0] in bins && forall b | b in bins[1..] :: b in bins;
      WeightAtLeast(bins[1..], low);
      Distribute(|bins| - 1, low, 0);
    }
  }

  lemma {:induction false} WithoutOne(bins: Bins, i: nat)
    requires i < |bins|
    ensures var rest := bins[..i] + bins[i + 1..];
            |rest| == |bins| - 1 && Weight(bins) == bins[i].sum + Weight(rest)
            && forall b | b in rest :: b in bins
    decreases i
  {
    var rest := bins[..i] + bins[i + 1..];
    if i > 0 {
      WithoutOne(bins[1..], i - 1);
      assert rest[1..] == bins[1..][..i - 1] + bins[1..][i..];
    } else {
      assert rest == bins[1..];
    }
  }

  /** When no sum is more than `spread` below the i-th, k times the i-th is at most the total and
      (k - 1) times the spread. */
  lemma LargestSum(bins: Bins, spread: int, i: nat)
    requires i < |bins| && forall b | b in bins :: bins[i].sum - b.sum <= spread
    ensures |bins| * bins[i].sum <= Weight(bins) + (|bins| - 1) * spread
  {
    var largest, n := bins[i].sum, |bins| - 1;
    var rest := bins[..i] + bins[i + 1..];
    WithoutOne(bins, i);
    WeightAtLeast(rest, largest - spread);
    Distribute(n, largest, spread);
  }
}
