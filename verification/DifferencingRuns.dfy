/** Which states a run of largest differencing merges: the orders on sets and on states spelled out, what a
    merge and a new state are, and the sequence of heaps from the first to the last. */
module DifferencingRuns {
  import opened KarmarkarKarp
  import opened BalancedPartitions

  // ----- the order on lists of items

  /** The lists agree up to n, where the first one ends or has the smaller item. */
  predicate DecidesAt(a: seq<Item>, b: seq<Item>, n: nat) {
    && n <= |a| && n < |b| && a[..n] == b[..n]
    && (n == |a| || a[n].index < b[n].index || (a[n].index == b[n].index && a[n].length < b[n].length))
  }

  lemma DecidesLater(a: seq<Item>, b: seq<Item>, n: nat)
    requires a != [] && b != [] && a[0] == b[0]
    ensures DecidesAt(a[1..], b[1..], n) <==> DecidesAt(a, b, n + 1)
  {
    if n + 1 <= |a| && n + 1 <= |b| {
      assert a[..n + 1] == [a[0]] + a[1..][..n] && b[..n + 1] == [b[0]] + b[1..][..n];
    }
  }

  /** One list is before another when their first difference decides so. */
  lemma {:induction false} ItemsBeforeExactly(a: seq<Item>, b: seq<Item>)
    ensures ItemsBefore(a, b) <==> exists n: nat :: DecidesAt(a, b, n)
  {
    if b == [] {
    } else if a == [] {
      assert DecidesAt(a, b, 0);
    } else if a[0] == b[0] {
      ItemsBeforeExactly(a[1..], b[1..]);
      if ItemsBefore(a[1..], b[1..]) {
        var n: nat :| DecidesAt(a[1..], b[1..], n);
        DecidesLater(a, b, n);
      }
      if n: nat :| DecidesAt(a, b, n) {
        assert n > 0;
        DecidesLater(a, b, n - 1);
      }
    } else {
      if ItemBefore(a[0], b[0]) {
        assert DecidesAt(a, b, 0);
      }
      if n: nat :| DecidesAt(a, b, n) {
        assert n > 0 ==> a[..n][0] == b[..n][0];
      }
    }
  }

  lemma {:induction false} BeforeTransitive(a: seq<Item>, b: seq<Item>, c: seq<Item>)
    requires ItemsBefore(a, b) && ItemsBefore(b, c)
    ensures ItemsBefore(a, c)
  {
    if a == [] {
    } else if a[0] == b[0] && b[0] == c[0] {
      BeforeTransitive(a[1..], b[1..], c[1..]);
    }
  }

  lemma LessTransitive(a: Bin, b: Bin, c: Bin)
    requires Less(a, b) && Less(b, c)
    ensures Less(a, c)
  {
    if ItemsBefore(a.items, b.items) && ItemsBefore(b.items, c.items) {
      BeforeTransitive(a.items, b.items, c.items);
    }
  }

  // ----- the order on states

  /** The first state is taken off the heap no later than the second: its spread is larger; or as large,
      and its first set has the larger sum, or as large a sum and more items, or as many and not before in
      the order on lists. */
  ghost predicate TakenFirst(x: Bins, y: Bins)
    requires x != [] && y != []
  {
    var spread, other := x[0].sum - x[|x| - 1].sum, y[0].sum - y[|y| - 1].sum;
    var a, b := x[0], y[0];
    spread > other
    || (spread == other
        && (a.sum > b.sum
            || (a.sum == b.sum
                && (|a.items| > |b.items|
                    || (|a.items| == |b.items| && !exists n: nat :: DecidesAt(a.items, b.items, n))))))
  }

  lemma NotLessIsFirst(x: Bins, y: Bins)
    requires x != [] && y != []
    ensures TakenFirst(x, y) <==> !StateLess(y, x)
  {
    ItemsBeforeExactly(x[0].items, y[0].items);
  }

  lemma StateLessTransitive(x: Bins, y: Bins, z: Bins)
    requires x != [] && y != [] && z != [] && StateLess(x, y) && StateLess(y, z)
    ensures StateLess(x, z)
  {
    if Less(z[0], y[0]) && Less(y[0], x[0]) {
      LessTransitive(z[0], y[0], x[0]);
    }
  }

  lemma {:induction false} NeverBeforeItself(a: seq<Item>)
    ensures !ItemsBefore(a, a)
  {
    if a == [] {
    } else {
      NeverBeforeItself(a[1..]);
    }
  }

  // ----- sorting

  /** No set is less than a later one. */
  predicate Descending(bins: Bins) {
    forall i, j | 0 <= i < j < |bins| :: !Less(bins[i], bins[j])
  }

  lemma {:induction false} InsertDescends(b: Bin, bins: Bins)
    requires Descending(bins)
    ensures Descending(Insert(b, bins)) && multiset(Insert(b, bins)) == multiset{b} + multiset(bins)
  {
    var out := Insert(b, bins);
    if bins == [] {
    } else if Less(bins[0], b) {
      forall j | 0 <= j < |bins| ensures !Less(b, bins[j]) {
        if Less(b, bins[j]) {
          LessTransitive(bins[0], b, bins[j]);
          NeverBeforeItself(bins[0].items);
        }
      }
      assert out == [b] + bins;
    } else {
      assert bins == [bins[0]] + bins[1..];
      InsertDescends(b, bins[1..]);
      forall x | x in Insert(b, bins[1..]) ensures !Less(bins[0], x) {
        assert x in multiset(Insert(b, bins[1..]));
      }
      assert out == [bins[0]] + Insert(b, bins[1..]);
    }
  }

  /** Sorting keeps the sets and puts the greatest first. */
  lemma {:induction false} SortDescends(bins: Bins)
    ensures Descending(SortDecreasing(bins)) && multiset(SortDecreasing(bins)) == multiset(bins)
  {
    if bins == [] {
    } else {
      assert bins == [bins[0]] + bins[1..];
      SortDescends(bins[1..]);
      InsertDescends(bins[0], SortDecreasing(bins[1..]));
    }
  }

  /** The i-th set of one state with the i-th from the end of the other. */
  function Opposite(a: Bins, b: Bins): Bins
    requires |a| == |b|
  {
    seq(|a|, i requires 0 <= i < |a| =>
      var other := b[|b| - 1 - i]; Bin(a[i].items + other.items, a[i].sum + other.sum))
  }

  /** A merged state: opposite sets joined, in decreasing order. */
  lemma MergeExactly(a: Bins, b: Bins)
    requires |a| == |b| && AllBalanced(b)
    ensures multiset(Merge(a, b)) == multiset(Opposite(a, b)) && Descending(Merge(a, b))
  {
    JoinAt(a, b);
    forall i | 0 <= i < |a| ensures JoinOpposite(a, b)[i] == Opposite(a, b)[i] {
      assert b[|b| - 1 - i] in b;
    }
    assert JoinOpposite(a, b) == Opposite(a, b);
    SortDescends(JoinOpposite(a, b));
  }

  lemma {:induction false} LoadAt(items: seq<Item>, k: nat)
    requires |items| <= k
    ensures |Load(items, k)| == k
    ensures forall j | 0 <= j < k ::
              Load(items, k)[j] == if j < |items| then Bin([items[j]], items[j].length) else EMPTY_BIN
  {
    if k == 0 {
    } else {
      LoadAt(if items == [] then [] else items[1..], k - 1);
    }
  }

  /** One set for every item, and empty ones up to k. */
  function OneEach(items: seq<Item>, k: nat): Bins {
    seq(k, j requires 0 <= j => if j < |items| then Bin([items[j]], items[j].length) else Bin([], 0))
  }

  /** A new state: its items in sets of their own, in decreasing order. */
  lemma FreshExactly(items: seq<Item>, k: nat)
    requires |items| <= k
    ensures multiset(Fresh(items, k)) == multiset(OneEach(items, k)) && Descending(Fresh(items, k))
  {
    LoadAt(items, k);
    assert Load(items, k) == OneEach(items, k);
    SortDescends(Load(items, k));
  }

  /** The first item is the shorter one, or as long and of no larger index. */
  predicate InOrder(a: Item, b: Item) {
    a.length < b.length || (a.length == b.length && a.index <= b.index)
  }

  predicate FullyAscending(items: seq<Item>) {
    forall i, j | 0 <= i < j < |items| :: InOrder(items[i], items[j])
  }

  lemma InsertedFirst(x: Item, items: seq<Item>)
    requires FullyAscending(items) && (items == [] || Ascending(x, items[0]))
    ensures FullyAscending([x] + items)
  {
    forall j | 0 <= j < |items| ensures InOrder(x, items[j]) {
      assert j > 0 ==> InOrder(items[0], items[j]);
    }
  }

  lemma {:induction false} InsertFullyAscends(x: Item, items: seq<Item>)
    requires FullyAscending(items)
    ensures FullyAscending(InsertAscending(x, items))
    ensures multiset(InsertAscending(x, items)) == multiset{x} + multiset(items)
  {
    if items == [] || Ascending(x, items[0]) {
      InsertedFirst(x, items);
    } else {
      var rest := InsertAscending(x, items[1..]);
      assert items == [items[0]] + items[1..];
      InsertFullyAscends(x, items[1..]);
      forall j | 0 <= j < |rest| ensures InOrder(items[0], rest[j]) {
        assert rest[j] in multiset(rest);
        assert rest[j] == x || rest[j] in items[1..];
      }
      assert InsertAscending(x, items) == [items[0]] + rest;
    }
  }

  lemma {:induction false} SortFullyAscends(items: seq<Item>)
    ensures FullyAscending(SortAscending(items)) && multiset(SortAscending(items)) == multiset(items)
  {
    if items == [] {
    } else {
      assert items == [items[0]] + items[1..];
      SortFullyAscends(items[1..]);
      InsertFullyAscends(items[0], SortAscending(items[1..]));
    }
  }

  // ----- runs

  /** State i is taken off the heap first. */
  ghost predicate FirstOf(h: Heap, i: nat) {
    && i < |h| && (forall j | 0 <= j < |h| :: h[j] != [])
    && forall j | 0 <= j < |h| :: TakenFirst(h[i], h[j])
  }

  function Removed(h: Heap, i: nat): Heap
    requires i < |h|
  {
    h[..i] + h[i + 1..]
  }

  /** State i and then, of the rest, state j are taken off the heap, and their merge is put back. */
  ghost predicate MergesAt(h: Heap, i: nat, j: nat, next: Heap) {
    && FirstOf(h, i) && FirstOf(Removed(h, i), j) && |h[i]| == |Removed(h, i)[j]|
    && next == Removed(Removed(h, i), j) + [Merge(h[i], Removed(h, i)[j])]
  }

  ghost predicate Merges(h: Heap, next: Heap) {
    exists i: nat, j: nat :: MergesAt(h, i, j, next)
  }

  /** Every heap comes from the one before by merging its first two states. */
  ghost predicate MergingRun(run: seq<Heap>) {
    run != [] && forall t | 0 < t < |run| :: Merges(run[t - 1], run[t])
  }

  /** One new state for every `size` of the first n sorted items. */
  function StatesOf(sorted: seq<Item>, k: nat, size: nat, n: nat): Heap
    requires 0 < size <= k && n <= |sorted|
  {
    if n < size then [] else StatesOf(sorted, k, size, n - size) + [Fresh(sorted[n - size..n], k)]
  }

  /** The parts are the indices of the sets of a state, in order. */
  ghost predicate ReadOff(st: Bins, parts: seq<seq<nat>>) {
    && |parts| == |st|
    && forall i | 0 <= i < |st| ::
         |parts[i]| == |st[i].items| && forall j | 0 <= j < |parts[i]| :: parts[i][j] == st[i].items[j].index
  }

  lemma {:induction false} IndicesAt(items: seq<Item>)
    ensures |Indices(items)| == |items| && forall j | 0 <= j < |items| :: Indices(items)[j] == items[j].index
  {
    if items == [] {
    } else {
      IndicesAt(items[1..]);
    }
  }

  lemma {:induction false} PartsAreReadOff(bins: Bins)
    ensures ReadOff(bins, PartsOf(bins))
  {
    if bins == [] {
    } else {
      PartsAreReadOff(bins[1..]);
      IndicesAt(bins[0].items);
    }
  }

  /** The heaps of largest differencing: from one new state per item, or per block of k neighbours in
      equal-size mode, to a single state, from which the parts are read off. */
  ghost predicate DifferencingRun(lengths: seq<nat>, k: nat, equalSize: bool, run: seq<Heap>, parts: seq<seq<nat>>)
    requires k > 0
  {
    var sorted := SortAscending(Items(lengths));
    && |sorted| == |lengths| && MergingRun(run)
    && run[0] == StatesOf(sorted, k, if equalSize then k else 1, |lengths|)
    && |run[|run| - 1]| == 1 && ReadOff(run[|run| - 1][0], parts)
  }
}
