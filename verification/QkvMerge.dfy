/** Taking an interleaved, sharded query/key/value weight apart again: the checkpoint merger, the
    weight synchroniser and the checkpoint converter do it each in its own way, and all three return
    the three weights the converter started from. */
module QkvMerge {
  import opened Outcomes
  import opened Sequences
  import opened QkvLayout

  /** The query, key and value parts collected so far. */
  datatype Lists<T> = Lists(q: seq<seq<T>>, k: seq<seq<T>>, v: seq<seq<T>>)

  ghost predicate Collected<T>(l: Lists<T>, groups: seq<Group<T>>) {
    l.q == Qs(groups) && l.k == Ks(groups) && l.v == Vs(groups)
  }

  lemma CollectOne<T>(l: Lists<T>, groups: seq<Group<T>>, g: Group<T>)
    requires Collected(l, groups)
    ensures Collected(Lists(l.q + [g.q], l.k + [g.k], l.v + [g.v]), groups + [g])
  {
  }

  function Joined<T>(l: Lists<T>): Qkv<T> {
    Qkv(Concat(l.q), Concat(l.k), Concat(l.v))
  }

  /** Splits a chunk into three parts of given sizes; a chunk of another size is an error. */
  function SplitChunk<T>(chunk: seq<T>, queryRows: nat, headRows: nat): Result<Group<T>> {
    if |chunk| != queryRows + headRows + headRows then Err
    else Ok(Group(chunk[..queryRows], chunk[queryRows..queryRows + headRows], chunk[queryRows + headRows..]))
  }

  lemma SplitBlock<T>(g: Group<T>, queryRows: nat, headRows: nat)
    requires |g.q| == queryRows && |g.k| == |g.v| == headRows
    ensures SplitChunk(g.q + g.k + g.v, queryRows, headRows) == Ok(g)
  {
    var chunk := g.q + g.k + g.v;
    assert chunk[..queryRows] == g.q;
    assert chunk[queryRows..queryRows + headRows] == g.k;
    assert chunk[queryRows + headRows..] == g.v;
  }

  /** The rows are those of `count` groups of the given sizes. */
  ghost predicate HoldsGroups<T>(rows: seq<T>, groups: seq<Group<T>>, count: nat, queryRows: nat, headRows: nat) {
    rows == Rows(groups) && GroupsFit(groups, queryRows, headRows) && |groups| == count > 0 && queryRows + headRows > 0
  }

  lemma ChunksAreBlocks<T>(rows: seq<T>, groups: seq<Group<T>>, count: nat, queryRows: nat, headRows: nat)
    requires HoldsGroups(rows, groups, count, queryRows, headRows)
    ensures Chunk(rows, count) == Blocks(groups)
  {
    BlocksUniform(groups, queryRows, headRows, queryRows + 2 * headRows);
    ChunkOfConcat(Blocks(groups), queryRows + 2 * headRows);
  }

  /** Cuts one shard into `count` chunks and splits each of them. */
  method SplitShard<T>(shard: seq<T>, count: nat, queryRows: nat, headRows: nat, start: Lists<T>,
                       ghost before: seq<Group<T>>, ghost groups: seq<Group<T>>)
    returns (r: Result<Lists<T>>)
    ensures Collected(start, before) && HoldsGroups(shard, groups, count, queryRows, headRows)
            ==> r.Ok? && Collected(r.value, before + groups)
  {
    if count == 0 {
      return Err;
    }
    var chunks := Chunk(shard, count);
    ghost var laidOut := Collected(start, before) && HoldsGroups(shard, groups, count, queryRows, headRows);
    if laidOut {
      ChunksAreBlocks(shard, groups, count, queryRows, headRows);
    }
    var lists := start;
    for i := 0 to |chunks|
      invariant laidOut ==> Collected(lists, before + groups[..i])
    {
      if laidOut {
        assert groups[i] in groups && chunks[i] == groups[i].q + groups[i].k + groups[i].v;
        SplitBlock(groups[i], queryRows, headRows);
        CollectOne(lists, before + groups[..i], groups[i]);
        assert before + groups[..i + 1] == before + groups[..i] + [groups[i]];
      }
      var g :- SplitChunk(chunks[i], queryRows, headRows);
      assert laidOut ==> g == groups[i];
      lists := Lists(lists.q + [g.q], lists.k + [g.k], lists.v + [g.v]);
    }
    if laidOut {
      assert groups[..|chunks|] == groups;
    }
    return Ok(lists);
  }

  /** What the two functions that receive the shards as a list have in common as precondition of
      their promise: `perGroup` query heads per group, `headDim` rows per head, whole groups per rank. */
  ghost predicate ShardedModel<T>(shards: seq<seq<T>>, groups: seq<Group<T>>, heads: nat, kvHeads: nat, tpSize: nat,
                                  perGroup: nat, headDim: nat, m: nat)
  {
    && perGroup > 0 && headDim > 0 && m > 0
    && heads == kvHeads * perGroup && |groups| == kvHeads == tpSize * m
    && GroupsFit(groups, Times(perGroup, headDim), headDim)
    && EvenCut(Rows(groups), shards, tpSize)
  }

  function Quotient(x: nat, y: nat): nat
    requires y > 0
  {
    x / y
  }

  /** Chunks per shard, query rows and head rows per chunk. */
  datatype ChunkSizes = ChunkSizes(count: nat, queryRows: nat, headRows: nat)

  /** The sizes that the list-based functions derive from the shape of the first shard, with their
      assertions. */
  function DeriveSizes(shardRows: nat, heads: nat, kvHeads: nat, tpSize: nat): Result<ChunkSizes> {
    if kvHeads == 0 || heads % kvHeads != 0 then Err else
    var numQPerKv := Quotient(heads, kvHeads);
    if shardRows % (numQPerKv + 2) != 0 || tpSize == 0 || kvHeads / tpSize == 0 then Err else
    var kvSizePerTp, count := Quotient(shardRows, numQPerKv + 2), Quotient(kvHeads, tpSize);
    Ok(ChunkSizes(count, Quotient(Times(kvSizePerTp, numQPerKv), count), Quotient(kvSizePerTp, count)))
  }

  lemma ShapeFactors(m: nat, p: nat, d: nat)
    ensures Times(m, Times(p, d) + 2 * d) == (p + 2) * Times(m, d)
    ensures Times(m, d) * p == m * Times(p, d)
  {
    assert p * d + 2 * d == (p + 2) * d;
    assert m * ((p + 2) * d) == (p + 2) * (m * d);
    assert (m * d) * p == m * (p * d);
  }

  lemma DerivedSizes(shardRows: nat, heads: nat, kvHeads: nat, tpSize: nat, perGroup: nat, headDim: nat, m: nat)
    requires perGroup > 0 && headDim > 0 && m > 0 && tpSize > 0 && kvHeads > 0
    requires heads == kvHeads * perGroup && kvHeads == tpSize * m
    requires shardRows == Times(m, Times(perGroup, headDim) + 2 * headDim)
    ensures DeriveSizes(shardRows, heads, kvHeads, tpSize) == Ok(ChunkSizes(m, Times(perGroup, headDim), headDim))
  {
    QuotientIs(heads, kvHeads, perGroup, 0);
    QuotientIs(kvHeads, tpSize, m, 0);
    var kv := Times(m, headDim);
    ShapeFactors(m, perGroup, headDim);
    QuotientIs(shardRows, perGroup + 2, kv, 0);
    QuotientIs(kv, m, headDim, 0);
    QuotientIs(kv * perGroup, m, Times(perGroup, headDim), 0);
  }

  lemma FirstShardSize<T>(shards: seq<seq<T>>, groups: seq<Group<T>>, heads: nat, kvHeads: nat, tpSize: nat,
                          perGroup: nat, headDim: nat, m: nat)
    returns (parts: seq<seq<Group<T>>>)
    requires ShardedModel(shards, groups, heads, kvHeads, tpSize, perGroup, headDim, m)
    ensures |parts| == tpSize == |shards| && tpSize > 0 && kvHeads > 0 && Concat(parts) == groups
    ensures m > 0 && headDim > 0
    ensures forall i | 0 <= i < tpSize ::
              |parts[i]| == m && GroupsFit(parts[i], Times(perGroup, headDim), headDim) && shards[i] == Rows(parts[i])
    ensures |shards[0]| == Times(m, Times(perGroup, headDim) + 2 * headDim)
  {
    parts := ShardsHoldGroups(groups, Times(perGroup, headDim), headDim, shards, tpSize, m);
    BlocksUniform(parts[0], Times(perGroup, headDim), headDim, Times(perGroup, headDim) + 2 * headDim);
    Monotone(1, tpSize, m);
  }

  lemma AppendShard<T>(parts: seq<seq<Group<T>>>, i: nat)
    requires i < |parts|
    ensures Concat(parts[..i + 1]) == Concat(parts[..i]) + parts[i]
  {
    assert parts[..i + 1] == parts[..i] + [parts[i]];
    ConcatAppend(parts[..i], [parts[i]]);
    assert [parts[i]][1..] == [];
  }

  /** The loop over the shards, shared by the two list-based functions. */
  method SplitShards<T>(shards: seq<seq<T>>, count: nat, queryRows: nat, headRows: nat,
                        ghost laidOut: bool, ghost parts: seq<seq<Group<T>>>)
    returns (r: Result<Lists<T>>)
    requires laidOut ==> |parts| == |shards| && count > 0 && queryRows + headRows > 0
    requires laidOut ==> forall i | 0 <= i < |shards| ::
               |parts[i]| == count && GroupsFit(parts[i], queryRows, headRows) && shards[i] == Rows(parts[i])
    ensures laidOut ==> r.Ok? && Collected(r.value, Concat(parts))
  {
    var lists := Lists([], [], []);
    ghost var seen: seq<Group<T>> := [];
    for i := 0 to |shards|
      invariant laidOut ==> Collected(lists, seen) && seen == Concat(parts[..i])
    {
      ghost var here: seq<Group<T>> := if laidOut then parts[i] else [];
      var split := SplitShard(shards[i], count, queryRows, headRows, lists, seen, here);
      if split.Err? {
        return Err;
      }
      lists := split.value;
      if laidOut {
        AppendShard(parts, i);
        seen := seen + here;
      }
    }
    if laidOut {
      assert parts[..|shards|] == parts;
    }
    return Ok(lists);
  }

  /** The checkpoint merger. On the shards of any model laid out by the converter, with the kv heads
      divided evenly over the ranks, it returns the three weights. */
  method MergeAcrossTp<T>(tpData: seq<seq<T>>, heads: nat, kvHeads: nat, tpSize: nat,
                          ghost groups: seq<Group<T>>, ghost perGroup: nat, ghost headDim: nat, ghost m: nat)
    returns (r: Result<Qkv<T>>)
    ensures ShardedModel(tpData, groups, heads, kvHeads, tpSize, perGroup, headDim, m) ==>
              r == Ok(Qkv(Concat(Qs(groups)), Concat(Ks(groups)), Concat(Vs(groups))))
  {
    ghost var laidOut := ShardedModel(tpData, groups, heads, kvHeads, tpSize, perGroup, headDim, m);
    ghost var parts: seq<seq<Group<T>>> := [];
    if laidOut {
      parts := FirstShardSize(tpData, groups, heads, kvHeads, tpSize, perGroup, headDim, m);
      DerivedSizes(|tpData[0]|, heads, kvHeads, tpSize, perGroup, headDim, m);
    }
    if tpData == [] {
      return Err;
    }
    var sizes :- DeriveSizes(|tpData[0]|, heads, kvHeads, tpSize);
    var lists :- SplitShards(tpData, sizes.count, sizes.queryRows, sizes.headRows, laidOut, parts);
    return Ok(Joined(lists));
  }

  /** What the weight synchroniser hands on: the three weights, or one tensor of all their rows. */
  datatype Synchronised<T> = Separate(w: Qkv<T>) | Stacked(rows: seq<T>)

  /** The weight synchroniser's concatenation of the gathered shards. */
  method DefaultTpConcat<T>(inferParams: seq<seq<T>>, heads: nat, kvHeads: nat, worldSize: nat, simpleSplit: bool,
                            ghost groups: seq<Group<T>>, ghost perGroup: nat, ghost headDim: nat, ghost m: nat)
    returns (r: Result<Synchronised<T>>)
    ensures ShardedModel(inferParams, groups, heads, kvHeads, worldSize, perGroup, headDim, m) ==>
              var w := Qkv(Concat(Qs(groups)), Concat(Ks(groups)), Concat(Vs(groups)));
              r == Ok(if simpleSplit then Separate(w) else Stacked(w.q + w.k + w.v))
  {
    ghost var laidOut := ShardedModel(inferParams, groups, heads, kvHeads, worldSize, perGroup, headDim, m);
    ghost var parts: seq<seq<Group<T>>> := [];
    if laidOut {
      parts := FirstShardSize(inferParams, groups, heads, kvHeads, worldSize, perGroup, headDim, m);
      DerivedSizes(|inferParams[0]|, heads, kvHeads, worldSize, perGroup, headDim, m);
    }
    if inferParams == [] {
      return Err;
    }
    var sizes :- DeriveSizes(|inferParams[0]|, heads, kvHeads, worldSize);
    var lists :- SplitShards(inferParams, sizes.count, sizes.queryRows, sizes.headRows, laidOut, parts);
    var w := Joined(lists);
    return Ok(if simpleSplit then Separate(w) else Stacked(w.q + w.k + w.v));
  }

  // ----- the converter back from the full tensor

  function SliceChunk<T>(chunk: seq<T>, queryRows: nat, headRows: nat): Group<T> {
    Group(Slice(chunk, 0, queryRows), Slice(chunk, queryRows, queryRows + headRows), Drop(chunk, queryRows + headRows))
  }

  lemma SliceBlock<T>(g: Group<T>, queryRows: nat, headRows: nat)
    requires |g.q| == queryRows && |g.k| == |g.v| == headRows
    ensures SliceChunk(g.q + g.k + g.v, queryRows, headRows) == g
  {
    var chunk := g.q + g.k + g.v;
    assert Drop(chunk, 0) == chunk && Take(chunk, queryRows) == g.q;
    assert Take(Drop(chunk, queryRows), headRows) == g.k;
    assert Drop(chunk, queryRows + headRows) == g.v;
  }

  lemma SlicedBack<T>(chunks: seq<seq<T>>, groups: seq<Group<T>>, found: seq<Group<T>>, queryRows: nat, headRows: nat)
    requires chunks == Blocks(groups) && GroupsFit(groups, queryRows, headRows) && |found| == |chunks|
    requires forall j | 0 <= j < |found| :: found[j] == SliceChunk(chunks[j], queryRows, headRows)
    ensures found == groups
  {
    forall j | 0 <= j < |found| ensures found[j] == groups[j] {
      assert groups[j] in groups;
      SliceBlock(groups[j], queryRows, headRows);
    }
  }

  /** The groups of one rank's rows, sliced chunk by chunk. */
  method SliceShard<T>(part: seq<T>, count: nat, queryRows: nat, headRows: nat, ghost groups: seq<Group<T>>)
    returns (found: seq<Group<T>>)
    requires count > 0
    ensures HoldsGroups(part, groups, count, queryRows, headRows) ==> found == groups
  {
    var chunks := Chunk(part, count);
    ghost var laidOut := HoldsGroups(part, groups, count, queryRows, headRows);
    found := [];
    for i := 0 to |chunks|
      invariant |found| == i && forall j | 0 <= j < i :: found[j] == SliceChunk(chunks[j], queryRows, headRows)
    {
      found := found + [SliceChunk(chunks[i], queryRows, headRows)];
    }
    if laidOut {
      ChunksAreBlocks(part, groups, count, queryRows, headRows);
      SlicedBack(chunks, groups, found, queryRows, headRows);
    }
  }

  /** What one rank's rows are cut into, as computed from the model's shape. */
  datatype RankSizes = RankSizes(total: nat, count: nat, queryRows: nat, headRows: nat)

  function RankSizesOf(headDim: nat, heads: nat, kvHeads: nat, tpSize: nat, numQueryGroups: nat): Result<RankSizes> {
    if tpSize == 0 || Quotient(numQueryGroups, tpSize) == 0 then Err else
    var qSizeTp := Quotient(Times(headDim, heads), tpSize);
    var kvSizeTp := if kvHeads >= tpSize then Quotient(Times(headDim, kvHeads), tpSize) else headDim;
    var count := Quotient(numQueryGroups, tpSize);
    Ok(RankSizes(qSizeTp + 2 * kvSizeTp, count, Quotient(qSizeTp, count), Quotient(kvSizeTp, count)))
  }

  /** A rank holds m groups when the ranks divide the kv heads ... */
  lemma EvenRankSizes(headDim: nat, perGroup: nat, heads: nat, kvHeads: nat, tpSize: nat, m: nat)
    requires tpSize > 0 && m > 0 && heads == kvHeads * perGroup && kvHeads == tpSize * m
    ensures kvHeads >= tpSize
    ensures RankSizesOf(headDim, heads, kvHeads, tpSize, kvHeads)
            == Ok(RankSizes(Times(m, Times(perGroup, headDim) + 2 * headDim), m, Times(perGroup, headDim), headDim))
  {
    Monotone(1, m, tpSize);
    QuotientIs(kvHeads, tpSize, m, 0);
    assert Times(headDim, heads) == tpSize * (m * (perGroup * headDim)) by {
      assert headDim * ((tpSize * m) * perGroup) == tpSize * (m * (perGroup * headDim));
    }
    QuotientIs(Times(headDim, heads), tpSize, m * (perGroup * headDim), 0);
    assert Times(headDim, kvHeads) == tpSize * (m * headDim);
    QuotientIs(Times(headDim, kvHeads), tpSize, m * headDim, 0);
    QuotientIs(m * (perGroup * headDim), m, perGroup * headDim, 0);
    QuotientIs(m * headDim, m, headDim, 0);
    assert m * (perGroup * headDim) + 2 * (m * headDim) == m * (perGroup * headDim + 2 * headDim);
  }

  /** ... and a single group, with a copy of one kv head, when there are more ranks than kv heads. */
  lemma ReplicatedRankSizes(headDim: nat, perRank: nat, heads: nat, kvHeads: nat, tpSize: nat)
    requires tpSize > 0 && heads == tpSize * perRank && kvHeads < tpSize
    ensures RankSizesOf(headDim, heads, kvHeads, tpSize, tpSize)
            == Ok(RankSizes(Times(perRank, headDim) + 2 * headDim, 1, Times(perRank, headDim), headDim))
  {
    QuotientIs(tpSize, tpSize, 1, 0);
    assert Times(headDim, heads) == tpSize * (perRank * headDim);
    QuotientIs(Times(headDim, heads), tpSize, perRank * headDim, 0);
    QuotientIs(perRank * headDim, 1, perRank * headDim, 0);
    QuotientIs(headDim, 1, headDim, 0);
  }

  /** Rank i = d * copies + e holds the e-th copy of kv head d; the code keeps exactly the copies with
      e = 0. */
  lemma FirstCopy(i: nat, kvHeads: nat, tpSize: nat, copies: nat, d: nat, e: nat)
    requires kvHeads > 0 && tpSize == kvHeads * copies && e < copies && i == d * copies + e
    ensures tpSize > 0 && ((i * kvHeads) % tpSize == 0 <==> e == 0)
    ensures i / copies == d
  {
    QuotientIs(i, copies, d, e);
    var rest := Times(e, kvHeads);
    assert i * kvHeads == tpSize * d + rest by {
      assert (d * copies + e) * kvHeads == (kvHeads * copies) * d + e * kvHeads;
    }
    assert rest < tpSize by {
      Monotone(e + 1, copies, kvHeads);
      Succ(e, kvHeads);
    }
    assert e > 0 ==> rest > 0 by {
      if e > 0 {
        Monotone(1, e, kvHeads);
      }
    }
    QuotientIs(i * kvHeads, tpSize, d, rest);
  }

  /** Every part `copies` times in a row. */
  function Repeat<T>(parts: seq<seq<T>>, copies: nat): seq<seq<T>> {
    if parts == [] then [] else seq(copies, _ => parts[0]) + Repeat(parts[1..], copies)
  }

  lemma {:induction false} RepeatAt<T>(parts: seq<seq<T>>, copies: nat, d: nat, e: nat, i: nat)
    requires d < |parts| && e < copies && i == d * copies + e
    ensures i < |Repeat(parts, copies)| && Repeat(parts, copies)[i] == parts[d]
    decreases d
  {
    if d == 0 {
    } else {
      Succ(d - 1, copies);
      RepeatAt(parts[1..], copies, d - 1, e, i - copies);
    }
  }

  /** Ranks that outnumber the kv heads: rank i has its own query rows and a copy of kv head
      i / copies. */
  ghost predicate ReplicatedModel<T>(full: seq<T>, ranks: seq<Group<T>>, ks: seq<seq<T>>, vs: seq<seq<T>>, heads: nat,
                                     kvHeads: nat, headDim: nat, tpSize: nat, perRank: nat, copies: nat)
  {
    && perRank > 0 && headDim > 0 && kvHeads > 0 && copies > 1
    && heads == tpSize * perRank && tpSize == kvHeads * copies == |ranks| && |ks| == |vs| == kvHeads
    && GroupsFit(ranks, Times(perRank, headDim), headDim) && full == Rows(ranks)
    && Ks(ranks) == Repeat(ks, copies) && Vs(ranks) == Repeat(vs, copies)
  }

  /** The whole tensor of a model whose ranks divide the kv heads. */
  ghost predicate FullModel<T>(full: seq<T>, groups: seq<Group<T>>, heads: nat, kvHeads: nat, headDim: nat, tpSize: nat,
                               perGroup: nat, m: nat)
  {
    && perGroup > 0 && headDim > 0 && m > 0 && tpSize > 0
    && heads == kvHeads * perGroup && |groups| == kvHeads == tpSize * m
    && GroupsFit(groups, Times(perGroup, headDim), headDim) && full == Rows(groups)
  }

  /** The full tensor is the rows of these ranks, each of the computed sizes. */
  ghost predicate HoldsRanks<T>(full: seq<T>, ranks: seq<seq<Group<T>>>, sizes: RankSizes) {
    && full == Concat(RowsOfEach(ranks))
    && forall j | 0 <= j < |ranks| ::
         HoldsGroups(Rows(ranks[j]), ranks[j], sizes.count, sizes.queryRows, sizes.headRows)
         && |Rows(ranks[j])| == sizes.total
  }

  lemma RankRows<T>(full: seq<T>, ranks: seq<seq<Group<T>>>, sizes: RankSizes, i: nat, from: nat)
    requires HoldsRanks(full, ranks, sizes) && i < |ranks| && from == i * sizes.total
    ensures Slice(full, from, from + sizes.total) == Rows(ranks[i])
  {
    var rows := RowsOfEach(ranks);
    assert Uniform(rows, sizes.total);
    ConcatAt(rows, sizes.total, i, from);
  }

  /** One rank's groups, sliced out of the full tensor. */
  method SliceRank<T>(full: seq<T>, i: nat, sizes: RankSizes, ghost ranks: seq<seq<Group<T>>>)
    returns (found: seq<Group<T>>)
    requires sizes.count > 0
    ensures HoldsRanks(full, ranks, sizes) && i < |ranks| ==> found == ranks[i]
  {
    var from := Times(i, sizes.total);
    ghost var groups := if HoldsRanks(full, ranks, sizes) && i < |ranks| then ranks[i] else [];
    if HoldsRanks(full, ranks, sizes) && i < |ranks| {
      RankRows(full, ranks, sizes, i, from);
    }
    found := SliceShard(Slice(full, from, from + sizes.total), sizes.count, sizes.queryRows, sizes.headRows, groups);
  }

  lemma RankGroups<T>(full: seq<T>, groups: seq<Group<T>>, perGroup: nat, headDim: nat, tpSize: nat, m: nat)
    returns (ranks: seq<seq<Group<T>>>)
    requires tpSize > 0 && m > 0 && headDim > 0 && |groups| == tpSize * m && full == Rows(groups)
    requires GroupsFit(groups, Times(perGroup, headDim), headDim)
    ensures |ranks| == tpSize && Concat(ranks) == groups
    ensures forall j | 0 <= j < tpSize :: |ranks[j]| == m
    ensures HoldsRanks(full, ranks, RankSizes(Times(m, Times(perGroup, headDim) + 2 * headDim), m,
                                              Times(perGroup, headDim), headDim))
  {
    var qr := Times(perGroup, headDim);
    ranks := WholeGroups(groups, qr, headDim, tpSize, m);
    RowsOfAll(ranks);
    forall j | 0 <= j < tpSize ensures |Rows(ranks[j])| == Times(m, qr + 2 * headDim) {
      BlocksUniform(ranks[j], qr, headDim, qr + 2 * headDim);
    }
  }

  /** What the even case computes its sizes to, and how the full tensor falls into ranks. */
  lemma EvenSetup<T>(full: seq<T>, headDim: nat, heads: nat, kvHeads: nat, tpSize: nat, groups: seq<Group<T>>,
                     perGroup: nat, m: nat) returns (ranks: seq<seq<Group<T>>>)
    requires kvHeads >= tpSize && FullModel(full, groups, heads, kvHeads, headDim, tpSize, perGroup, m)
    ensures var sizes := RankSizesOf(headDim, heads, kvHeads, tpSize, kvHeads);
            sizes.Ok? && HoldsRanks(full, ranks, sizes.value)
    ensures |ranks| == tpSize && Concat(ranks) == groups
  {
    EvenRankSizes(headDim, perGroup, heads, kvHeads, tpSize, m);
    ranks := RankGroups(full, groups, perGroup, headDim, tpSize, m);
  }

  lemma CollectRank<T>(l: Lists<T>, ranks: seq<seq<Group<T>>>, i: nat)
    requires i < |ranks| && Collected(l, Concat(ranks[..i]))
    ensures Collected(Lists(l.q + Qs(ranks[i]), l.k + Ks(ranks[i]), l.v + Vs(ranks[i])), Concat(ranks[..i + 1]))
  {
    AppendShard(ranks, i);
  }

  /** The converter's way back when the ranks divide the kv heads: every rank contributes all its
      query, key and value parts. */
  method ConvertEvenShards<T>(full: seq<T>, headDim: nat, heads: nat, kvHeads: nat, tpSize: nat, numQueryGroups: nat,
                              ghost groups: seq<Group<T>>, ghost perGroup: nat, ghost m: nat)
    returns (r: Result<Qkv<T>>)
    requires kvHeads >= tpSize
    ensures numQueryGroups == kvHeads && FullModel(full, groups, heads, kvHeads, headDim, tpSize, perGroup, m) ==>
              r == Ok(Qkv(Concat(Qs(groups)), Concat(Ks(groups)), Concat(Vs(groups))))
  {
    ghost var laidOut := numQueryGroups == kvHeads
                         && FullModel(full, groups, heads, kvHeads, headDim, tpSize, perGroup, m);
    ghost var ranks: seq<seq<Group<T>>> := [];
    if laidOut {
      ranks := EvenSetup(full, headDim, heads, kvHeads, tpSize, groups, perGroup, m);
    }
    var sizes :- RankSizesOf(headDim, heads, kvHeads, tpSize, numQueryGroups);
    var lists := Lists([], [], []);
    for i := 0 to tpSize
      invariant laidOut ==> Collected(lists, Concat(ranks[..i]))
    {
      var found := SliceRank(full, i, sizes, ranks);
      if laidOut {
        CollectRank(lists, ranks, i);
      }
      lists := Lists(lists.q + Qs(found), lists.k + Ks(found), lists.v + Vs(found));
    }
    if laidOut {
      assert ranks[..tpSize] == ranks;
    }
    return Ok(Joined(lists));
  }

  /** The lists after i = d * copies + e ranks: all their query parts, and one copy of each kv head met. */
  ghost predicate KeptCopies<T>(lists: Lists<T>, groups: seq<Group<T>>, ks: seq<seq<T>>, vs: seq<seq<T>>,
                                copies: nat, i: nat, d: nat, e: nat)
  {
    var kept := if e == 0 then d else d + 1;
    && e < copies && i == d * copies + e && i <= |groups| && kept <= |ks| == |vs|
    && lists == Lists(Qs(groups[..i]), ks[..kept], vs[..kept])
  }

  lemma HeadInRange(d: nat, e: nat, copies: nat, kvHeads: nat, i: nat, tpSize: nat)
    requires i == d * copies + e && i < tpSize == kvHeads * copies
    ensures d < kvHeads
  {
    if d >= kvHeads {
      Monotone(kvHeads, d, copies);
    }
  }

  lemma KeepStep<T>(lists: Lists<T>, groups: seq<Group<T>>, ks: seq<seq<T>>, vs: seq<seq<T>>, kvHeads: nat, tpSize: nat,
                    copies: nat, i: nat, d: nat, e: nat, next: Lists<T>)
    returns (d': nat, e': nat)
    requires KeptCopies(lists, groups, ks, vs, copies, i, d, e) && i < tpSize == |groups|
    requires kvHeads > 0 && tpSize == kvHeads * copies && |ks| == |vs| == kvHeads
    requires Ks(groups) == Repeat(ks, copies) && Vs(groups) == Repeat(vs, copies)
    requires next.q == lists.q + [groups[i].q]
    requires if (i * kvHeads) % tpSize == 0 then next.k == lists.k + [groups[i].k] && next.v == lists.v + [groups[i].v]
             else next.k == lists.k && next.v == lists.v
    ensures KeptCopies(next, groups, ks, vs, copies, i + 1, d', e')
  {
    HeadInRange(d, e, copies, kvHeads, i, tpSize);
    FirstCopy(i, kvHeads, tpSize, copies, d, e);
    RepeatAt(ks, copies, d, e, i);
    RepeatAt(vs, copies, d, e, i);
    assert Ks(groups)[i] == ks[d] && Vs(groups)[i] == vs[d];
    assert Qs(groups[..i + 1]) == Qs(groups[..i]) + [groups[i].q];
    assert ks[..d + 1] == ks[..d] + [ks[d]] && vs[..d + 1] == vs[..d] + [vs[d]];
    Succ(d, copies);
    d', e' := if e + 1 == copies then d + 1 else d, if e + 1 == copies then 0 else e + 1;
  }

  lemma SingleGroup<T>(ranks: seq<seq<Group<T>>>, groups: seq<Group<T>>, i: nat)
    requires i < |ranks| && Concat(ranks) == groups && forall j | 0 <= j < |ranks| :: |ranks[j]| == 1
    ensures i < |groups| && ranks[i] == [groups[i]]
  {
    ConcatAt(ranks, 1, i, i);
    ConcatSize(ranks, 1);
  }

  lemma LastCopy(d: nat, e: nat, copies: nat, kvHeads: nat)
    requires e < copies && d * copies + e == kvHeads * copies
    ensures d == kvHeads && e == 0
  {
    if d > kvHeads {
      Monotone(kvHeads + 1, d, copies);
      Succ(kvHeads, copies);
    } else if d < kvHeads {
      Monotone(d + 1, kvHeads, copies);
      Succ(d, copies);
    }
  }

  /** The converter's way back when the ranks outnumber the kv heads: every rank contributes its query
      rows, and of the copies of each kv head only the first is kept. */
  method ConvertReplicatedShards<T>(full: seq<T>, headDim: nat, heads: nat, kvHeads: nat, tpSize: nat,
                                    numQueryGroups: nat, ghost groups: seq<Group<T>>, ghost ks: seq<seq<T>>,
                                    ghost vs: seq<seq<T>>, ghost perRank: nat, ghost copies: nat)
    returns (r: Result<Qkv<T>>)
    requires kvHeads < tpSize
    ensures numQueryGroups == tpSize
            && ReplicatedModel(full, groups, ks, vs, heads, kvHeads, headDim, tpSize, perRank, copies)
            ==> r == Ok(Qkv(Concat(Qs(groups)), Concat(ks), Concat(vs)))
  {
    ghost var laidOut := numQueryGroups == tpSize
                         && ReplicatedModel(full, groups, ks, vs, heads, kvHeads, headDim, tpSize, perRank, copies);
    ghost var ranks: seq<seq<Group<T>>> := [];
    if laidOut {
      ReplicatedRankSizes(headDim, perRank, heads, kvHeads, tpSize);
      ranks := RankGroups(full, groups, perRank, headDim, tpSize, 1);
    }
    var sizes :- RankSizesOf(headDim, heads, kvHeads, tpSize, numQueryGroups);
    assert laidOut ==> HoldsRanks(full, ranks, sizes) && |ranks| == tpSize;
    var lists: Lists<T> := Lists([], [], []);
    ghost var d: nat, e: nat := 0, 0;
    for i := 0 to tpSize
      invariant laidOut ==> KeptCopies(lists, groups, ks, vs, copies, i, d, e)
    {
      var found := SliceRank(full, i, sizes, ranks);
      ghost var before := lists;
      lists := lists.(q := lists.q + Qs(found));
      if (i * kvHeads) % tpSize == 0 {
        lists := lists.(k := lists.k + Ks(found), v := lists.v + Vs(found));
      }
      if laidOut {
        SingleGroup(ranks, groups, i);
        d, e := KeepStep(before, groups, ks, vs, kvHeads, tpSize, copies, i, d, e, lists);
      }
    }
    if laidOut {
      LastCopy(d, e, copies, kvHeads);
      assert groups[..tpSize] == groups && ks[..kvHeads] == ks && vs[..kvHeads] == vs;
    }
    return Ok(Joined(lists));
  }

  // ----- the round trip

  /** Any model that the converter interleaves, cut evenly over ranks that divide its kv heads, meets
      what the two list-based functions and the tensor-based one ask for, and what they return is the
      three weights it started from. */
  lemma ConvertedModelRoundTrips<T>(w: Qkv<T>, shards: seq<seq<T>>, kvHeads: nat, tpSize: nat, perGroup: nat,
                                    headDim: nat, m: nat)
    requires perGroup > 0 && headDim > 0 && m > 0 && tpSize > 0 && kvHeads == tpSize * m
    requires Fits(w, kvHeads, Times(perGroup, headDim), headDim)
    requires EvenCut(Interleave(w, kvHeads, Times(perGroup, headDim), headDim), shards, tpSize)
    ensures var groups := GroupsOf(w, kvHeads, Times(perGroup, headDim), headDim);
            && ShardedModel(shards, groups, kvHeads * perGroup, kvHeads, tpSize, perGroup, headDim, m)
            && FullModel(Concat(shards), groups, kvHeads * perGroup, kvHeads, headDim, tpSize, perGroup, m)
            && Qkv(Concat(Qs(groups)), Concat(Ks(groups)), Concat(Vs(groups))) == w
  {
    GroupsBack(w, kvHeads, Times(perGroup, headDim), headDim);
  }

  lemma RanksWithinHeads(kvHeads: nat, tpSize: nat, perGroup: nat, m: nat)
    requires kvHeads == tpSize * m && m > 0
    ensures kvHeads >= tpSize && kvHeads * perGroup >= 0
  {
    Monotone(1, m, tpSize);
  }

  /** On one even cut of an interleaved model the merger, the weight synchroniser and the converter's way
      back agree: each returns the three weights. */
  method ThreeWaysBack<T>(ghost w: Qkv<T>, shards: seq<seq<T>>, kvHeads: nat, tpSize: nat, perGroup: nat, headDim: nat,
                          ghost m: nat, simpleSplit: bool)
    returns (merged: Result<Qkv<T>>, synchronised: Result<Synchronised<T>>, converted: Result<Qkv<T>>)
    requires perGroup > 0 && headDim > 0 && m > 0 && tpSize > 0 && kvHeads == tpSize * m
    requires Fits(w, kvHeads, Times(perGroup, headDim), headDim)
    requires EvenCut(Interleave(w, kvHeads, Times(perGroup, headDim), headDim), shards, tpSize)
    ensures merged == converted == Ok(w)
    ensures synchronised == Ok(if simpleSplit then Separate(w) else Stacked(w.q + w.k + w.v))
  {
    ConvertedModelRoundTrips(w, shards, kvHeads, tpSize, perGroup, headDim, m);
    ghost var groups := GroupsOf(w, kvHeads, Times(perGroup, headDim), headDim);
    RanksWithinHeads(kvHeads, tpSize, perGroup, m);
    var heads := kvHeads * perGroup;
    merged := MergeAcrossTp(shards, heads, kvHeads, tpSize, groups, perGroup, headDim, m);
    synchronised := DefaultTpConcat(shards, heads, kvHeads, tpSize, simpleSplit, groups, perGroup, headDim, m);
    converted := ConvertEvenShards(Concat(shards), headDim, heads, kvHeads, tpSize, kvHeads, groups, perGroup, m);
  }
}
