/** Removing the padding of a batch and putting it back: the positions of the attended tokens, the
    packed tokens, and values scattered to their positions again. */
module Packing {
  import opened Sequences

  /** The positions where the flattened attention mask is set, in order. */
  function Indices(mask: seq<bool>): (r: seq<nat>)
    ensures forall k | 0 <= k < |r| :: r[k] < |mask|
  {
    if mask == [] then []
    else
      var last := |mask| - 1;
      Indices(mask[..last]) + (if mask[last] then [last] else [])
  }

  /** The number of attended positions before p. */
  function Rank(mask: seq<bool>, p: nat): nat
    requires p <= |mask|
  {
    |Indices(mask[..p])|
  }

  /** `out[indices] = values`. */
  function Scatter<T>(out: seq<T>, indices: seq<nat>, values: seq<T>): seq<T>
    requires |values| == |indices| && forall k | 0 <= k < |indices| :: indices[k] < |out|
    ensures |Scatter(out, indices, values)| == |out|
  {
    if indices == [] then out
    else
      var last := |indices| - 1;
      Scatter(out, indices[..last], values[..last])[indices[last] := values[last]]
  }

  lemma {:induction false} IndicesAttended(mask: seq<bool>, k: nat)
    requires k < |Indices(mask)|
    ensures mask[Indices(mask)[k]]
  {
    var last := |mask| - 1;
    if k < |Indices(mask[..last])| {
      IndicesAttended(mask[..last], k);
    }
  }

  /** An attended position is found in the indices at its rank. */
  lemma {:induction false} RankIsPlace(mask: seq<bool>, p: nat)
    requires p < |mask| && mask[p]
    ensures Rank(mask, p) < |Indices(mask)| && Indices(mask)[Rank(mask, p)] == p
  {
    var last := |mask| - 1;
    if p < last {
      RankIsPlace(mask[..last], p);
      assert mask[..last][..p] == mask[..p];
    }
  }

  /** Two attended positions next to each other have consecutive ranks. */
  lemma NextRank(mask: seq<bool>, p: nat)
    requires p < |mask| && mask[p]
    ensures Rank(mask, p + 1) == Rank(mask, p) + 1
  {
    assert mask[..p + 1][..p] == mask[..p];
  }

  lemma {:induction false} IndicesIncrease(mask: seq<bool>, j: nat, k: nat)
    requires j < k < |Indices(mask)|
    ensures Indices(mask)[j] < Indices(mask)[k]
  {
    var last := |mask| - 1;
    if k < |Indices(mask[..last])| {
      IndicesIncrease(mask[..last], j, k);
    }
  }

  lemma {:induction false} ScatterHit<T>(out: seq<T>, indices: seq<nat>, values: seq<T>, k: nat)
    requires |values| == |indices| && forall j | 0 <= j < |indices| :: indices[j] < |out|
    requires k < |indices| && forall j | k < j < |indices| :: indices[j] != indices[k]
    ensures Scatter(out, indices, values)[indices[k]] == values[k]
  {
    var last := |indices| - 1;
    if k < last {
      ScatterHit(out, indices[..last], values[..last], k);
    }
  }

  lemma {:induction false} ScatterMiss<T>(out: seq<T>, indices: seq<nat>, values: seq<T>, p: nat)
    requires |values| == |indices| && forall j | 0 <= j < |indices| :: indices[j] < |out|
    requires p < |out| && p !in indices
    ensures Scatter(out, indices, values)[p] == out[p]
  {
    if indices == [] {
    } else {
      ScatterMiss(out, indices[..|indices| - 1], values[..|indices| - 1], p);
    }
  }

  /** Scattering along the indices puts the value of its rank at every attended position, and leaves
      the others alone. */
  lemma ScatterAt<T>(mask: seq<bool>, out: seq<T>, values: seq<T>, p: nat)
    requires |values| == |Indices(mask)| && |mask| == |out| && p < |out|
    ensures mask[p] ==> Rank(mask, p) < |values| && Scatter(out, Indices(mask), values)[p] == values[Rank(mask, p)]
    ensures !mask[p] ==> Scatter(out, Indices(mask), values)[p] == out[p]
  {
    if mask[p] {
      RankIsPlace(mask, p);
      forall j | Rank(mask, p) < j < |values| ensures Indices(mask)[j] != p {
        IndicesIncrease(mask, Rank(mask, p), j);
      }
      ScatterHit(out, Indices(mask), values, Rank(mask, p));
    } else {
      forall k | 0 <= k < |values| ensures Indices(mask)[k] != p {
        IndicesAttended(mask, k);
      }
      ScatterMiss(out, Indices(mask), values, p);
    }
  }

  /** Packing and padding again keeps the attended entries and sets all the others to zero. */
  lemma PackedAndBack<T>(mask: seq<bool>, x: seq<T>, zero: T, p: nat)
    requires p < |mask| == |x|
    ensures Scatter(seq(|x|, _ => zero), Indices(mask), Select(x, Indices(mask)))[p] == if mask[p] then x[p] else zero
  {
    ScatterAt(mask, seq(|x|, _ => zero), Select(x, Indices(mask)), p);
    if mask[p] {
      RankIsPlace(mask, p);
    }
  }

  // ----- get_unpad_data

  function Shift(indices: seq<nat>, start: nat): seq<nat> {
    seq(|indices|, k requires 0 <= k < |indices| => indices[k] + start)
  }

  lemma IndicesLast(b: seq<bool>, last: nat)
    requires |b| == last + 1
    ensures Indices(b) == if b[last] then Indices(b[..last]) + [last] else Indices(b[..last])
  {
  }

  lemma ShiftSnoc(indices: seq<nat>, x: nat, n: nat)
    ensures Shift(indices + [x], n) == Shift(indices, n) + [x + n]
  {
  }

  lemma {:induction false} IndicesAppend(a: seq<bool>, b: seq<bool>)
    ensures Indices(a + b) == Indices(a) + Shift(Indices(b), |a|)
  {
    if b == [] {
      assert a + b == a;
    } else {
      var last := |b| - 1;
      IndicesAppend(a, b[..last]);
      assert (a + b)[..last + |a|] == a + b[..last];
      IndicesLast(b, last);
      IndicesLast(a + b, last + |a|);
      ShiftSnoc(Indices(b[..last]), last, |a|);
    }
  }

  function Count(row: seq<bool>): nat {
    if row == [] then 0 else Count(row[..|row| - 1]) + if row[|row| - 1] then 1 else 0
  }

  function Lengths(rows: seq<seq<bool>>): seq<nat> {
    seq(|rows|, b requires 0 <= b < |rows| => Count(rows[b]))
  }

  /** The running sums of a list, starting from 0. */
  function Cumulative(lengths: seq<nat>): (r: seq<nat>)
    ensures |r| == |lengths| + 1
  {
    if lengths == [] then [0]
    else
      var last := |lengths| - 1;
      var before := Cumulative(lengths[..last]);
      before + [before[last] + lengths[last]]
  }

  function MaxOf(lengths: seq<nat>): nat {
    if lengths == [] then 0
    else if MaxOf(lengths[1..]) > lengths[0] then MaxOf(lengths[1..]) else lengths[0]
  }

  datatype UnpadData = UnpadData(indices: seq<nat>, cuSeqlens: seq<nat>, maxSeqlen: nat)

  /** The indices, the boundaries of the rows in the packed sequence, and the longest row. */
  function GetUnpadData(rows: seq<seq<bool>>): UnpadData
    requires rows != []
  {
    UnpadData(Indices(Concat(rows)), Cumulative(Lengths(rows)), MaxOf(Lengths(rows)))
  }

  lemma {:induction false} CountIsIndices(row: seq<bool>)
    ensures Count(row) == |Indices(row)|
  {
    if row == [] {
    } else {
      CountIsIndices(row[..|row| - 1]);
    }
  }

  lemma ConcatOne<T>(a: seq<seq<T>>, x: seq<T>)
    ensures Concat(a + [x]) == Concat(a) + x
  {
    ConcatAppend(a, [x]);
    ConcatCons(x, []);
    assert [x] + [] == [x];
  }

  /** The packed length up to a row and one row on. */
  lemma OneRowOn(rows: seq<seq<bool>>, b: nat)
    requires b < |rows|
    ensures Concat(rows[..b + 1]) == Concat(rows[..b]) + rows[b]
    ensures |Indices(Concat(rows[..b + 1]))| == |Indices(Concat(rows[..b]))| + Count(rows[b])
  {
    assert rows[..b + 1] == rows[..b] + [rows[b]];
    ConcatOne(rows[..b], rows[b]);
    CountIsIndices(rows[b]);
    IndicesAppend(Concat(rows[..b]), rows[b]);
  }

  lemma {:induction false} CumulativeIsRank(rows: seq<seq<bool>>, n: nat, b: nat)
    requires b <= n <= |rows|
    ensures Cumulative(Lengths(rows)[..n])[b] == |Indices(Concat(rows[..b]))|
    decreases n
  {
    if n == 0 {
      assert rows[..0] == [];
    } else {
      assert Lengths(rows)[..n][..n - 1] == Lengths(rows)[..n - 1];
      CumulativeIsRank(rows, n - 1, if b < n then b else n - 1);
      if b == n {
        OneRowOn(rows, n - 1);
      }
    }
  }

  lemma CuSeqlensAreRanks(rows: seq<seq<bool>>, b: nat)
    requires b <= |rows|
    ensures Cumulative(Lengths(rows))[b] == |Indices(Concat(rows[..b]))|
  {
    CumulativeIsRank(rows, |rows|, b);
    assert Lengths(rows)[..|rows|] == Lengths(rows);
  }

  lemma {:induction false} MaxAttained(lengths: seq<nat>)
    ensures forall k | 0 <= k < |lengths| :: lengths[k] <= MaxOf(lengths)
    ensures lengths != [] ==> MaxOf(lengths) in lengths
  {
    if lengths == [] {
    } else {
      MaxAttained(lengths[1..]);
      assert forall k | 1 <= k < |lengths| :: lengths[k] == lengths[1..][k - 1];
      assert lengths[0] in lengths && forall x | x in lengths[1..] :: x in lengths;
    }
  }

  lemma MiddleOf<T>(a: seq<T>, b: seq<T>, c: seq<T>, all: seq<T>, from: nat, to: nat)
    requires all == a + b + c && from == |a| && to == from + |b|
    ensures to <= |all| && all[from..to] == b
  {
  }

  lemma Segment(before: seq<bool>, row: seq<bool>, after: seq<bool>, from: nat, to: nat)
    requires from == |Indices(before)| && to == |Indices(before + row)|
    ensures from <= to <= |Indices(before + row + after)|
    ensures Indices(before + row + after)[from..to] == Shift(Indices(row), |before|)
  {
    IndicesAppend(before, row);
    IndicesAppend(before + row, after);
    MiddleOf(Indices(before), Shift(Indices(row), |before|), Shift(Indices(after), |before + row|),
             Indices(before + row + after), from, to);
  }

  /** The boundaries cut the indices into the attended positions of each row. */
  lemma UnpadSegments(rows: seq<seq<bool>>, b: nat)
    requires b < |rows|
    ensures var d := GetUnpadData(rows);
            && |d.cuSeqlens| == |rows| + 1 && d.cuSeqlens[0] == 0 && d.cuSeqlens[|rows|] == |d.indices|
            && d.cuSeqlens[b] <= d.cuSeqlens[b + 1] <= |d.indices|
            && d.indices[d.cuSeqlens[b]..d.cuSeqlens[b + 1]] == Shift(Indices(rows[b]), |Concat(rows[..b])|)
  {
    CuSeqlensAreRanks(rows, 0);
    CuSeqlensAreRanks(rows, b);
    CuSeqlensAreRanks(rows, b + 1);
    CuSeqlensAreRanks(rows, |rows|);
    assert rows[..0] == [] && rows[..|rows|] == rows;
    OneRowOn(rows, b);
    ConcatAppend(rows[..b + 1], rows[b + 1..]);
    assert rows == rows[..b + 1] + rows[b + 1..];
    Segment(Concat(rows[..b]), rows[b], Concat(rows[b + 1..]), |Indices(Concat(rows[..b]))|,
            |Indices(Concat(rows[..b]) + rows[b])|);
  }

  /** The longest row is the length of some row, and no row is longer. */
  lemma LongestRow(rows: seq<seq<bool>>)
    requires rows != []
    ensures forall b | 0 <= b < |rows| :: |Indices(rows[b])| <= GetUnpadData(rows).maxSeqlen
    ensures exists b | 0 <= b < |rows| :: |Indices(rows[b])| == GetUnpadData(rows).maxSeqlen
  {
    MaxAttained(Lengths(rows));
    forall b | 0 <= b < |rows| ensures |Indices(rows[b])| == Lengths(rows)[b] {
      CountIsIndices(rows[b]);
    }
    var b :| 0 <= b < |rows| && Lengths(rows)[b] == MaxOf(Lengths(rows));
    assert |Indices(rows[b])| == GetUnpadData(rows).maxSeqlen;
  }
}
