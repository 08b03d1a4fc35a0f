/** Sequence-length balancing as the trainer runs it: the state object that is merged in place, the
    heap loop of largest differencing, the partition checker, and the greedy alternative. */
module SeqlenBalancing {
  import opened Outcomes
  import opened KarmarkarKarp
  import opened BalancedPartitions
  import opened DifferencingRuns

  /** Appends the items of `other` to a set, adding up their lengths one by one. */
  method MergeSets(self: Bin, other: Bin) returns (r: Bin)
    ensures r == Join(self, other)
  {
    r := self;
    for i := 0 to |other.items|
      invariant r == Bin(self.items + other.items[..i], self.sum + Total(other.items[..i]))
    {
      var item := other.items[i];
      assert other.items[..i + 1] == other.items[..i] + [item];
      TotalConcat(other.items[..i], [item]);
      r := Bin(r.items + [item], r.sum + item.length);
    }
    assert other.items[..|other.items|] == other.items;
  }

  lemma {:induction false} PartsOfAppend(bins: Bins, b: Bin)
    ensures PartsOf(bins + [b]) == PartsOf(bins) + [Indices(b.items)]
  {
    if bins == [] {
    } else {
      assert (bins + [b])[1..] == bins[1..] + [b];
      PartsOfAppend(bins[1..], b);
    }
  }

  /** A state of the differencing method: k sets, kept in decreasing order. */
  class PartitionState {
    var sets: Bins

    constructor (items: seq<Item>, k: nat)
      requires |items| == 1 <= k || |items| == k
      ensures sets == Fresh(items, k)
    {
      var loaded := seq(k, _ => EMPTY_BIN);
      for i := 0 to |items|
        invariant |loaded| == k
        invariant forall j | 0 <= j < k ::
                    loaded[j] == if j < i then Bin([items[j]], items[j].length) else EMPTY_BIN
      {
        loaded := loaded[i := Bin(loaded[i].items + [items[i]], loaded[i].sum + items[i].length)];
      }
      LoadAt(items, k);
      assert loaded == Load(items, k);
      sets := SortDecreasing(loaded);
    }

    method Merge(other: PartitionState)
      requires other != this && |sets| == |other.sets|
      modifies this
      ensures sets == KarmarkarKarp.Merge(old(sets), other.sets)
    {
      var k := |sets|;
      for i := 0 to k
        invariant |sets| == k == |other.sets|
        invariant forall j | 0 <= j < k ::
                    sets[j] == if j < i then Join(old(sets)[j], other.sets[k - 1 - j]) else old(sets)[j]
      {
        var joined := MergeSets(sets[i], other.sets[k - 1 - i]);
        sets := sets[i := joined];
      }
      JoinAt(old(sets), other.sets);
      assert sets == JoinOpposite(old(sets), other.sets);
      sets := SortDecreasing(sets);
    }

    method GetPartitions() returns (partitions: seq<seq<nat>>)
      ensures partitions == PartsOf(sets)
    {
      partitions := [];
      for i := 0 to |sets|
        invariant partitions == PartsOf(sets[..i])
      {
        var part: seq<nat> := [];
        var items := sets[i].items;
        for j := 0 to |items|
          invariant part == Indices(items[..j])
        {
          assert items[..j + 1] == items[..j] + [items[j]];
          IndicesConcat(items[..j], [items[j]]);
          part := part + [items[j].index];
        }
        assert items[..|items|] == items;
        assert sets[..i + 1] == sets[..i] + [sets[i]];
        PartsOfAppend(sets[..i], sets[i]);
        partitions := partitions + [part];
      }
      assert sets[..|sets|] == sets;
    }
  }

  // ----- the heap loop

  ghost function Values(pq: seq<PartitionState>): Heap
    reads pq
  {
    seq(|pq|, i requires 0 <= i < |pq| reads pq => pq[i].sets)
  }

  lemma StillFirst(x: Bins, least: Bins, other: Bins)
    requires x != [] && least != [] && other != [] && StateLess(x, least) && TakenFirst(least, other)
    ensures TakenFirst(x, other)
  {
    NotLessIsFirst(least, other);
    NotLessIsFirst(x, other);
    if StateLess(other, x) {
      StateLessTransitive(other, x, least);
    }
  }

  lemma FirstOfTwo(x: Bins, least: Bins)
    requires x != [] && least != []
    ensures if StateLess(x, least) then TakenFirst(x, least) else TakenFirst(least, x)
    ensures TakenFirst(x, x)
  {
    NotLessIsFirst(least, x);
    NotLessIsFirst(x, least);
    NotLessIsFirst(x, x);
    NeverBeforeItself(x[0].items);
    if StateLess(x, least) && StateLess(least, x) {
      StateLessTransitive(x, least, x);
    }
  }

  /** The position of a state that is taken off the heap first. */
  method LeastIndex(pq: seq<PartitionState>) returns (least: nat)
    requires pq != [] && forall st | st in pq :: st.sets != []
    ensures least < |pq| && forall j | 0 <= j < |pq| :: TakenFirst(pq[least].sets, pq[j].sets)
  {
    least := 0;
    FirstOfTwo(pq[0].sets, pq[0].sets);
    for i := 1 to |pq|
      invariant least < i && forall j | 0 <= j < i :: TakenFirst(pq[least].sets, pq[j].sets)
    {
      FirstOfTwo(pq[i].sets, pq[least].sets);
      if StateLess(pq[i].sets, pq[least].sets) {
        forall j | 0 <= j < i ensures TakenFirst(pq[i].sets, pq[j].sets) {
          StillFirst(pq[i].sets, pq[least].sets, pq[j].sets);
        }
        least := i;
      }
    }
  }

  predicate DistinctStates(pq: seq<PartitionState>) {
    forall i, j | 0 <= i < j < |pq| :: pq[i] != pq[j]
  }

  /** The value of a heap from which two states were taken, with their merge put back. */
  lemma TakeTwo(pq: seq<PartitionState>, i: nat, rest1: seq<PartitionState>, j: nat, rest2: seq<PartitionState>,
                lengths: seq<nat>, k: nat, equalSize: bool, bound: int)
    requires HeapReady(Values(pq), lengths, k, equalSize, bound)
    requires i < |pq| && rest1 == pq[..i] + pq[i + 1..]
    requires j < |rest1| && rest2 == rest1[..j] + rest1[j + 1..]
    ensures |pq[i].sets| == |rest1[j].sets|
    ensures HeapReady(Values(rest2) + [KarmarkarKarp.Merge(pq[i].sets, rest1[j].sets)], lengths, k, equalSize, bound)
  {
    var h, h1, h2 := Values(pq), Values(rest1), Values(rest2);
    assert h1 == h[..i] + h[i + 1..] && h2 == h1[..j] + h1[j + 1..];
    MergeTwo(h, i, h1, j, h2, lengths, k, equalSize, bound);
  }

  lemma WithoutStays(pq: seq<PartitionState>, i: nat)
    requires i < |pq| && DistinctStates(pq)
    ensures var rest := pq[..i] + pq[i + 1..];
            DistinctStates(rest) && pq[i] !in rest && forall st | st in rest :: st in pq
  {
  }

  lemma AppendState(rest: seq<PartitionState>, st: PartitionState)
    requires DistinctStates(rest) && st !in rest
    ensures DistinctStates(rest + [st]) && Values(rest + [st]) == Values(rest) + [st.sets]
  {
  }

  lemma AllReady(pq: seq<PartitionState>, lengths: seq<nat>, k: nat, equalSize: bool, bound: int)
    requires HeapValid(Values(pq), lengths, k, equalSize, bound)
    ensures forall st | st in pq :: st.sets != [] && |st.sets| == k
  {
    forall st | st in pq ensures st.sets != [] && |st.sets| == k {
      var i :| 0 <= i < |pq| && pq[i] == st;
      assert Values(pq)[i] in Values(pq);
    }
  }

  lemma TakenTwice(pq: seq<PartitionState>, i: nat, rest1: seq<PartitionState>, j: nat)
    requires i < |pq| && rest1 == pq[..i] + pq[i + 1..] && j < |rest1| && forall st | st in pq :: st.sets != []
    requires forall x | 0 <= x < |pq| :: TakenFirst(pq[i].sets, pq[x].sets)
    requires forall x | 0 <= x < |rest1| :: rest1[x].sets != [] && TakenFirst(rest1[j].sets, rest1[x].sets)
    ensures Values(rest1) == Removed(Values(pq), i) && Values(rest1[..j] + rest1[j + 1..]) == Removed(Values(rest1), j)
    ensures FirstOf(Values(pq), i) && FirstOf(Values(rest1), j)
  {
  }

  /** Takes the two least states off the heap, merges them and puts the result back. */
  method MergeLeastTwo(pq: seq<PartitionState>, ghost lengths: seq<nat>, ghost k: nat, ghost equalSize: bool,
                       ghost bound: int, ghost states: set<PartitionState>)
    returns (next: seq<PartitionState>)
    requires |pq| > 1 && DistinctStates(pq) && forall st | st in pq :: st in states
    requires HeapReady(Values(pq), lengths, k, equalSize, bound)
    modifies states
    ensures |next| == |pq| - 1 && DistinctStates(next) && forall st | st in next :: st in states
    ensures HeapReady(Values(next), lengths, k, equalSize, bound)
    ensures Merges(old(Values(pq)), Values(next))
  {
    AllReady(pq, lengths, k, equalSize, bound);
    ghost var h := Values(pq);
    var i := LeastIndex(pq);
    var state0, rest1 := pq[i], pq[..i] + pq[i + 1..];
    WithoutStays(pq, i);
    var j := LeastIndex(rest1);
    var state1, rest2 := rest1[j], rest1[..j] + rest1[j + 1..];
    WithoutStays(rest1, j);
    assert state0 !in rest2 && state1 != state0;
    TakeTwo(pq, i, rest1, j, rest2, lengths, k, equalSize, bound);
    TakenTwice(pq, i, rest1, j);
    ghost var h2, merged := Values(rest2), KarmarkarKarp.Merge(state0.sets, state1.sets);
    state0.Merge(state1);
    next := rest2 + [state0];
    assert Values(rest2) == h2;
    AppendState(rest2, state0);
    assert MergesAt(h, i, j, Values(next));
  }

  /** Merges the two least states until a single one is left. */
  method MergeAll(start: seq<PartitionState>, ghost lengths: seq<nat>, ghost k: nat, ghost equalSize: bool,
                  ghost bound: int, ghost states: set<PartitionState>)
    returns (last: PartitionState, ghost run: seq<Heap>)
    requires start != [] && DistinctStates(start) && forall st | st in start :: st in states
    requires HeapReady(Values(start), lengths, k, equalSize, bound)
    modifies states
    ensures HeapReady([last.sets], lengths, k, equalSize, bound)
    ensures MergingRun(run) && run[0] == old(Values(start)) && run[|run| - 1] == [last.sets]
  {
    var pq := start;
    run := [Values(start)];
    while |pq| > 1
      invariant pq != [] && DistinctStates(pq) && forall st | st in pq :: st in states
      invariant HeapReady(Values(pq), lengths, k, equalSize, bound)
      invariant MergingRun(run) && run[0] == old(Values(start)) && run[|run| - 1] == Values(pq)
      decreases |pq|
    {
      pq := MergeLeastTwo(pq, lengths, k, equalSize, bound, states);
      run := run + [Values(pq)];
    }
    last := pq[0];
    assert Values(pq) == [last.sets];
  }

  /** Adds the state of the next items to a heap. */
  method PushState(pq: seq<PartitionState>, items: seq<Item>, ghost seen: seq<Item>,
                   lengths: seq<nat>, k: nat, equalSize: bool) returns (next: seq<PartitionState>)
    requires k > 0 && DistinctStates(pq) && (|items| == 1 || |items| == k)
    requires HeapSoFar(Values(pq), seen, lengths, k, equalSize)
    requires StateValid(Fresh(items, k), lengths, k, equalSize, SpreadBound(lengths, k, equalSize))
    ensures forall st | st in next :: st in pq || fresh(st)
    ensures DistinctStates(next) && HeapSoFar(Values(next), seen + items, lengths, k, equalSize)
    ensures Values(next) == Values(pq) + [Fresh(items, k)]
  {
    var state := new PartitionState(items, k);
    assert state !in pq;
    AppendState(pq, state);
    PushBlock(Values(pq), seen, items, lengths, k, equalSize);
    next := pq + [state];
  }

  lemma LaterBlocks(sorted: seq<Item>, k: nat, offset: nat, bound: int)
    requires k > 0 && offset + k <= |sorted| && MaxBlockGap(sorted, k, offset) <= bound
    ensures MaxBlockGap(sorted, k, offset + k) <= bound
  {
  }

  method NextBlock(lengths: seq<nat>, k: nat, sorted: seq<Item>, offset: nat, end: nat) returns (items: seq<Item>)
    requires k > 0 && sorted == SortAscending(Items(lengths)) && end == offset + k <= |sorted|
    requires MaxBlockGap(sorted, k, offset) <= SpreadBound(lengths, k, true)
    ensures |items| == k && sorted[..offset] + items == sorted[..end] && items == sorted[offset..end]
    ensures StateValid(Fresh(items, k), lengths, k, true, SpreadBound(lengths, k, true))
    ensures MaxBlockGap(sorted, k, end) <= SpreadBound(lengths, k, true)
  {
    BlockValid(lengths, k, sorted, offset);
    LaterBlocks(sorted, k, offset, SpreadBound(lengths, k, true));
    return sorted[offset..end];
  }

  lemma NextStates(sorted: seq<Item>, k: nat, size: nat, offset: nat, end: nat)
    requires 0 < size <= k && end == offset + size <= |sorted|
    ensures StatesOf(sorted, k, size, end) == StatesOf(sorted, k, size, offset) + [Fresh(sorted[offset..end], k)]
  {
  }

  method PushBlockState(pq: seq<PartitionState>, lengths: seq<nat>, k: nat, sorted: seq<Item>, offset: nat, end: nat)
    returns (next: seq<PartitionState>)
    requires k > 0 && DistinctStates(pq) && sorted == SortAscending(Items(lengths)) && end == offset + k <= |sorted|
    requires MaxBlockGap(sorted, k, offset) <= SpreadBound(lengths, k, true)
    requires HeapSoFar(Values(pq), sorted[..offset], lengths, k, true)
    requires Values(pq) == StatesOf(sorted, k, k, offset)
    ensures forall st | st in next :: st in pq || fresh(st)
    ensures DistinctStates(next) && HeapSoFar(Values(next), sorted[..end], lengths, k, true)
    ensures Values(next) == StatesOf(sorted, k, k, end)
    ensures MaxBlockGap(sorted, k, end) <= SpreadBound(lengths, k, true)
  {
    var items := NextBlock(lengths, k, sorted, offset, end);
    NextStates(sorted, k, k, offset, end);
    next := PushState(pq, items, sorted[..offset], lengths, k, true);
  }

  /** A length that is made up of whole blocks of k. */
  ghost predicate InBlocks(left: int, k: nat)
    requires k > 0
    decreases left
  {
    left == 0 || (left >= k && InBlocks(left - k, k))
  }

  lemma NextBlockLeft(left: int, k: nat, rest: int)
    requires k > 0 && left > 0 && InBlocks(left, k) && rest == left - k
    ensures left >= k && InBlocks(rest, k)
  {
  }

  /** The initial heap in equal-size mode: one state per block of k neighbours of the sorted items. */
  method BuildBlockStates(lengths: seq<nat>, k: nat) returns (pq: seq<PartitionState>)
    requires k > 0 && InBlocks(|lengths|, k)
    ensures DistinctStates(pq) && forall st | st in pq :: fresh(st)
    ensures HeapSoFar(Values(pq), SortAscending(Items(lengths)), lengths, k, true)
    ensures var sorted := SortAscending(Items(lengths));
            |sorted| == |lengths| && Values(pq) == StatesOf(sorted, k, k, |lengths|)
  {
    SortedItemsOf(lengths);
    var sorted := SortAscending(Items(lengths));
    pq := [];
    var offset := 0;
    ghost var left := |sorted|;
    while offset < |sorted|
      invariant 0 <= offset && left == |sorted| - offset && InBlocks(left, k)
      invariant MaxBlockGap(sorted, k, offset) <= SpreadBound(lengths, k, true)
      invariant DistinctStates(pq) && forall st | st in pq :: fresh(st)
      invariant HeapSoFar(Values(pq), sorted[..offset], lengths, k, true)
      invariant offset <= |sorted| && Values(pq) == StatesOf(sorted, k, k, offset)
    {
      var end := offset + k;
      ghost var rest := left - k;
      NextBlockLeft(left, k, rest);
      pq := PushBlockState(pq, lengths, k, sorted, offset, end);
      offset, left := end, rest;
    }
    assert sorted[..offset] == sorted;
  }

  lemma {:induction false} WholeBlocks(q: nat, k: nat)
    requires k > 0
    ensures InBlocks(q * k, k)
  {
    if q == 0 {
    } else {
      WholeBlocks(q - 1, k);
      assert q * k == (q - 1) * k + k;
    }
  }

  lemma DivisibleInBlocks(n: nat, k: nat)
    requires k > 0 && n % k == 0
    ensures InBlocks(n, k)
  {
    WholeBlocks(n / k, k);
    assert n == n / k * k;
  }

  method PushItemState(pq: seq<PartitionState>, lengths: seq<nat>, k: nat, sorted: seq<Item>, i: nat)
    returns (next: seq<PartitionState>)
    requires k > 0 && DistinctStates(pq) && sorted == SortAscending(Items(lengths)) && i < |sorted|
    requires HeapSoFar(Values(pq), sorted[..i], lengths, k, false) && Values(pq) == StatesOf(sorted, k, 1, i)
    ensures forall st | st in next :: st in pq || fresh(st)
    ensures DistinctStates(next) && HeapSoFar(Values(next), sorted[..i + 1], lengths, k, false)
    ensures Values(next) == StatesOf(sorted, k, 1, i + 1)
  {
    SingleItemValid(lengths, k, sorted[i]);
    NextStates(sorted, k, 1, i, i + 1);
    assert sorted[i..i + 1] == [sorted[i]] && sorted[..i] + [sorted[i]] == sorted[..i + 1];
    next := PushState(pq, [sorted[i]], sorted[..i], lengths, k, false);
  }

  /** The initial heap otherwise: one state per item. */
  method BuildItemStates(lengths: seq<nat>, k: nat) returns (pq: seq<PartitionState>)
    requires k > 0
    ensures DistinctStates(pq) && forall st | st in pq :: fresh(st)
    ensures HeapSoFar(Values(pq), SortAscending(Items(lengths)), lengths, k, false)
    ensures var sorted := SortAscending(Items(lengths));
            |sorted| == |lengths| && Values(pq) == StatesOf(sorted, k, 1, |lengths|)
  {
    SortedItemsOf(lengths);
    var sorted := SortAscending(Items(lengths));
    pq := [];
    for i := 0 to |sorted|
      invariant DistinctStates(pq) && forall st | st in pq :: fresh(st)
      invariant HeapSoFar(Values(pq), sorted[..i], lengths, k, false)
      invariant Values(pq) == StatesOf(sorted, k, 1, i)
    {
      pq := PushItemState(pq, lengths, k, sorted, i);
    }
    assert sorted[..|sorted|] == sorted;
  }

  /** k-way largest differencing, with the heaps of its run. In the original a count below one or an empty
      list ends in an index error, and a length that k does not divide fails an assertion in equal-size
      mode. */
  method DifferencingPartition(lengths: seq<nat>, k: int, equalSize: bool)
    returns (r: Result<seq<seq<nat>>>, ghost run: seq<Heap>)
    ensures r.Ok? <==> k >= 1 && lengths != [] && (equalSize ==> |lengths| % k == 0)
    ensures r.Ok? ==> BalancedPartition(lengths, k, equalSize, r.value)
    ensures r.Ok? ==> DifferencingRun(lengths, k, equalSize, run, r.value)
  {
    run := [];
    if k < 1 || lengths == [] || (equalSize && |lengths| % k != 0) {
      return Err, run;
    }
    var pq: seq<PartitionState>;
    if equalSize {
      DivisibleInBlocks(|lengths|, k);
      pq := BuildBlockStates(lengths, k);
    } else {
      pq := BuildItemStates(lengths, k);
    }
    AllItemsReady(Values(pq), lengths, k, equalSize);
    NotEmptyHeap(Values(pq), lengths, k, equalSize);
    ghost var states := set st | st in pq;
    var last;
    last, run := MergeAll(pq, lengths, k, equalSize, SpreadBound(lengths, k, equalSize), states);
    SingleStateLeft([last.sets], lengths, k, equalSize);
    var partitions := last.GetPartitions();
    PartsAreReadOff(last.sets);
    if equalSize {
      for i := 0 to |partitions| {
        if |partitions[i]| * k != |lengths| {
          return Err, run;
        }
      }
    }
    return Ok(partitions), run;
  }
}
