/** The row layout of the fused query/key/value weight: interleaved per key/value group when a model
    is converted, cut into tensor-parallel shards, and taken apart again by three independently
    written functions. Rows are opaque values of type T. */
module QkvLayout {
  import opened Sequences

  /** The three separate weights, as rows. */
  datatype Qkv<T> = Qkv(q: seq<T>, k: seq<T>, v: seq<T>)

  /** One key/value group: its query rows, its key rows, its value rows. */
  datatype Group<T> = Group(q: seq<T>, k: seq<T>, v: seq<T>)

  ghost predicate GroupsFit<T>(groups: seq<Group<T>>, queryRows: nat, headRows: nat) {
    forall g | g in groups :: |g.q| == queryRows && |g.k| == |g.v| == headRows
  }

  function Blocks<T>(groups: seq<Group<T>>): seq<seq<T>> {
    seq(|groups|, i requires 0 <= i < |groups| => groups[i].q + groups[i].k + groups[i].v)
  }

  function Rows<T>(groups: seq<Group<T>>): seq<T> {
    Concat(Blocks(groups))
  }

  function Qs<T>(groups: seq<Group<T>>): seq<seq<T>> {
    seq(|groups|, i requires 0 <= i < |groups| => groups[i].q)
  }

  function Ks<T>(groups: seq<Group<T>>): seq<seq<T>> {
    seq(|groups|, i requires 0 <= i < |groups| => groups[i].k)
  }

  function Vs<T>(groups: seq<Group<T>>): seq<seq<T>> {
    seq(|groups|, i requires 0 <= i < |groups| => groups[i].v)
  }

  /** The query rows viewed as `count` parts of `queryRows`, the key and the value rows as parts of
      `headRows`, and the parts of each group side by side. */
  function GroupsOf<T>(w: Qkv<T>, count: nat, queryRows: nat, headRows: nat): seq<Group<T>> {
    PartsLength(w.q, count, queryRows);
    PartsLength(w.k, count, headRows);
    PartsLength(w.v, count, headRows);
    var q, k, v := Parts(w.q, count, queryRows), Parts(w.k, count, headRows), Parts(w.v, count, headRows);
    seq(count, i requires 0 <= i < count => Group(q[i], k[i], v[i]))
  }

  /** The converter's layout of the fused weight. */
  function Interleave<T>(w: Qkv<T>, count: nat, queryRows: nat, headRows: nat): seq<T> {
    Rows(GroupsOf(w, count, queryRows, headRows))
  }

  /** The rows of a fused weight, cut evenly over the tensor-parallel ranks. */
  ghost predicate EvenCut<T>(rows: seq<T>, cut: seq<seq<T>>, tpSize: nat) {
    |cut| == tpSize > 0 && Concat(cut) == rows && Uniform(cut, |cut[0]|)
  }

  /** The shapes of a model: `perGroup` query heads in each of `kvHeads` groups, `headDim` rows per head. */
  ghost predicate Fits<T>(w: Qkv<T>, kvHeads: nat, queryRows: nat, headDim: nat) {
    |w.q| == kvHeads * queryRows && |w.k| == |w.v| == kvHeads * headDim
  }

  lemma Zipped<T>(q: seq<seq<T>>, k: seq<seq<T>>, v: seq<seq<T>>, groups: seq<Group<T>>, queryRows: nat, headRows: nat)
    requires |q| == |k| == |v| == |groups|
    requires forall i | 0 <= i < |groups| :: groups[i] == Group(q[i], k[i], v[i])
    requires Uniform(q, queryRows) && Uniform(k, headRows) && Uniform(v, headRows)
    ensures Qs(groups) == q && Ks(groups) == k && Vs(groups) == v && GroupsFit(groups, queryRows, headRows)
  {
    forall g | g in groups ensures |g.q| == queryRows && |g.k| == |g.v| == headRows {
      var i :| 0 <= i < |groups| && g == groups[i];
      assert q[i] in q && k[i] in k && v[i] in v;
    }
  }

  lemma ZippedBack<T>(w: Qkv<T>, count: nat, queryRows: nat, headRows: nat)
    requires Splits(w.q, count, queryRows) && Splits(w.k, count, headRows) && Splits(w.v, count, headRows)
    ensures var groups := GroupsOf(w, count, queryRows, headRows);
            && |groups| == count && GroupsFit(groups, queryRows, headRows)
            && Concat(Qs(groups)) == w.q && Concat(Ks(groups)) == w.k && Concat(Vs(groups)) == w.v
  {
    var q, k, v := Parts(w.q, count, queryRows), Parts(w.k, count, headRows), Parts(w.v, count, headRows);
    ConcatOfParts(w.q, count, queryRows);
    ConcatOfParts(w.k, count, headRows);
    ConcatOfParts(w.v, count, headRows);
    PartsUniform(w.q, count, queryRows);
    PartsUniform(w.k, count, headRows);
    PartsUniform(w.v, count, headRows);
    PartsLength(w.q, count, queryRows);
    PartsLength(w.k, count, headRows);
    PartsLength(w.v, count, headRows);
    Zipped(q, k, v, GroupsOf(w, count, queryRows, headRows), queryRows, headRows);
  }

  lemma GroupsBack<T>(w: Qkv<T>, count: nat, queryRows: nat, headRows: nat)
    requires Fits(w, count, queryRows, headRows)
    ensures var groups := GroupsOf(w, count, queryRows, headRows);
            && |groups| == count && GroupsFit(groups, queryRows, headRows)
            && Concat(Qs(groups)) == w.q && Concat(Ks(groups)) == w.k && Concat(Vs(groups)) == w.v
  {
    ProductSplits(w.q, count, queryRows);
    ProductSplits(w.k, count, headRows);
    ProductSplits(w.v, count, headRows);
    ZippedBack(w, count, queryRows, headRows);
  }

  lemma BlocksUniform<T>(groups: seq<Group<T>>, queryRows: nat, headRows: nat, size: nat)
    requires GroupsFit(groups, queryRows, headRows) && size == queryRows + 2 * headRows
    ensures Uniform(Blocks(groups), size) && |Rows(groups)| == |groups| * size
  {
    ConcatSize(Blocks(groups), size);
  }

  lemma BlockAt<T>(groups: seq<Group<T>>, queryRows: nat, headRows: nat, size: nat, g: nat, from: nat)
    requires GroupsFit(groups, queryRows, headRows) && size == queryRows + 2 * headRows
    requires g < |groups| && from == Times(g, size)
    ensures from + size <= |Rows(groups)|
    ensures Rows(groups)[from..from + size] == groups[g].q + groups[g].k + groups[g].v
  {
    BlocksUniform(groups, queryRows, headRows, size);
    ConcatAt(Blocks(groups), size, g, from);
  }

  lemma GroupAt<T>(groups: seq<Group<T>>, queryRows: nat, headRows: nat, g: nat, q: nat, k: nat)
    requires GroupsFit(groups, queryRows, headRows)
    requires g < |groups| && q == Times(g, queryRows) && k == Times(g, headRows)
    ensures q + queryRows <= |Concat(Qs(groups))| && groups[g].q == Concat(Qs(groups))[q..q + queryRows]
    ensures k + headRows <= |Concat(Ks(groups))| && groups[g].k == Concat(Ks(groups))[k..k + headRows]
    ensures k + headRows <= |Concat(Vs(groups))| && groups[g].v == Concat(Vs(groups))[k..k + headRows]
  {
    ConcatAt(Qs(groups), queryRows, g, q);
    ConcatAt(Ks(groups), headRows, g, k);
    ConcatAt(Vs(groups), headRows, g, k);
  }

  lemma BlockOfWeights<T>(w: Qkv<T>, groups: seq<Group<T>>, queryRows: nat, headRows: nat, g: nat, from: nat, q: nat,
                          k: nat)
    requires GroupsFit(groups, queryRows, headRows) && g < |groups|
    requires Concat(Qs(groups)) == w.q && Concat(Ks(groups)) == w.k && Concat(Vs(groups)) == w.v
    requires from == Times(g, queryRows + 2 * headRows) && q == Times(g, queryRows) && k == Times(g, headRows)
    ensures q + queryRows <= |w.q| && k + headRows <= |w.k| && k + headRows <= |w.v|
    ensures var rows, to := Rows(groups), from + queryRows + 2 * headRows;
            to <= |rows|
            && rows[from..to] == w.q[q..q + queryRows] + w.k[k..k + headRows] + w.v[k..k + headRows]
  {
    BlockAt(groups, queryRows, headRows, queryRows + 2 * headRows, g, from);
    GroupAt(groups, queryRows, headRows, g, q, k);
  }

  /** Block g of the interleaved weight: the query rows of the group, then its key rows, then its value rows. */
  lemma InterleavedBlock<T>(w: Qkv<T>, count: nat, queryRows: nat, headRows: nat, g: nat, from: nat, q: nat, k: nat)
    requires Fits(w, count, queryRows, headRows) && g < count
    requires from == Times(g, queryRows + 2 * headRows) && q == Times(g, queryRows) && k == Times(g, headRows)
    ensures q + queryRows <= |w.q| && k + headRows <= |w.k| == |w.v|
    ensures var rows, to := Interleave(w, count, queryRows, headRows), from + queryRows + 2 * headRows;
            to <= |rows|
            && rows[from..to] == w.q[q..q + queryRows] + w.k[k..k + headRows] + w.v[k..k + headRows]
  {
    GroupsBack(w, count, queryRows, headRows);
    BlockOfWeights(w, GroupsOf(w, count, queryRows, headRows), queryRows, headRows, g, from, q, k);
  }

  lemma RowsAppend<T>(a: seq<Group<T>>, b: seq<Group<T>>)
    ensures Rows(a + b) == Rows(a) + Rows(b)
  {
    assert Blocks(a + b) == Blocks(a) + Blocks(b);
    ConcatAppend(Blocks(a), Blocks(b));
  }

  function RowsOfEach<T>(shards: seq<seq<Group<T>>>): seq<seq<T>> {
    seq(|shards|, i requires 0 <= i < |shards| => Rows(shards[i]))
  }

  lemma {:induction false} RowsOfAll<T>(shards: seq<seq<Group<T>>>)
    ensures Concat(RowsOfEach(shards)) == Rows(Concat(shards))
  {
    if shards == [] {
      assert Blocks<T>([]) == [];
    } else {
      RowsOfAll(shards[1..]);
      RowsAppend(shards[0], Concat(shards[1..]));
      assert RowsOfEach(shards)[1..] == RowsOfEach(shards[1..]);
    }
  }

  lemma WholeGroups<T>(groups: seq<Group<T>>, queryRows: nat, headRows: nat, tpSize: nat, m: nat)
    returns (shards: seq<seq<Group<T>>>)
    requires GroupsFit(groups, queryRows, headRows) && |groups| == tpSize * m
    ensures |shards| == tpSize && Concat(shards) == groups
    ensures forall i | 0 <= i < tpSize :: |shards[i]| == m && GroupsFit(shards[i], queryRows, headRows)
  {
    ProductSplits(groups, tpSize, m);
    shards := Parts(groups, tpSize, m);
    PartsLength(groups, tpSize, m);
    ConcatOfParts(groups, tpSize, m);
    PartsUniform(groups, tpSize, m);
    forall i | 0 <= i < tpSize ensures |shards[i]| == m && GroupsFit(shards[i], queryRows, headRows) {
      assert shards[i] in shards;
      forall g | g in shards[i] ensures g in groups {
        PartsWithin(groups, tpSize, m, shards[i], g);
      }
    }
  }

  /** The shards of an interleaved weight: when the ranks divide the groups, each rank holds m whole
      groups. */
  lemma ShardsHoldGroups<T>(groups: seq<Group<T>>, queryRows: nat, headRows: nat, cut: seq<seq<T>>, tpSize: nat, m: nat)
    returns (shards: seq<seq<Group<T>>>)
    requires GroupsFit(groups, queryRows, headRows) && EvenCut(Rows(groups), cut, tpSize) && |groups| == tpSize * m
    ensures |shards| == tpSize && Concat(shards) == groups && cut == RowsOfEach(shards)
    ensures forall i | 0 <= i < tpSize :: |shards[i]| == m && GroupsFit(shards[i], queryRows, headRows)
  {
    var size := queryRows + 2 * headRows;
    shards := WholeGroups(groups, queryRows, headRows, tpSize, m);
    var rows := RowsOfEach(shards);
    RowsOfAll(shards);
    forall r | r in rows ensures |r| == Times(m, size) {
      var i :| 0 <= i < tpSize && r == Rows(shards[i]);
      BlocksUniform(shards[i], queryRows, headRows, size);
    }
    ConcatSize(rows, Times(m, size));
    ConcatSize(cut, |cut[0]|);
    Cancel(tpSize, |cut[0]|, Times(m, size));
    OneWayToCut(cut, rows, Times(m, size));
  }
}
