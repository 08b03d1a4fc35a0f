/** Splitting a batch into micro-batches by token count, scoring them, and putting the scores back
    into the order of the batch. */
module MicroBatching {
  import opened Outcomes
  import opened BalancedPartitions
  import opened Ceilings
  import opened TokenLimit
  import PartitionCheck
  import Sequences

  // ----- permutations and their inverse

  ghost predicate IsPermutation(idx: seq<nat>) {
    multiset(idx) == multiset(Range(|idx|))
  }

  lemma {:induction false} RangeOnce(n: nat, x: nat)
    ensures multiset(Range(n))[x] == if x < n then 1 else 0
  {
    if n == 0 {
    } else {
      RangeOnce(n - 1, x);
      assert Range(n) == Range(n - 1) + [n - 1];
    }
  }

  lemma TwiceCounted(s: seq<nat>, i: nat, j: nat)
    requires i < j < |s|
    ensures s[i] == s[j] ==> multiset(s)[s[i]] >= 2
  {
    assert s == s[..i] + [s[i]] + s[i + 1..j] + [s[j]] + s[j + 1..];
  }

  lemma PermutationIsBijective(idx: seq<nat>)
    requires IsPermutation(idx)
    ensures forall i | 0 <= i < |idx| :: idx[i] < |idx|
    ensures forall i, j | 0 <= i < j < |idx| :: idx[i] != idx[j]
    ensures forall x: nat | x < |idx| :: x in idx
  {
    forall i | 0 <= i < |idx| ensures idx[i] < |idx| {
      RangeOnce(|idx|, idx[i]);
      assert idx[i] in multiset(idx);
    }
    forall i, j | 0 <= i < j < |idx| ensures idx[i] != idx[j] {
      TwiceCounted(idx, i, j);
      RangeOnce(|idx|, idx[i]);
    }
    forall x: nat | x < |idx| ensures x in idx {
      RangeOnce(|idx|, x);
      assert x in multiset(idx);
    }
  }

  /** The inverse index list. On a list that is not a permutation the original either overwrites
      entries or, when an index is out of range, stops in an index error. */
  method GetReverseIdx(idxMap: seq<nat>) returns (r: Result<seq<nat>>)
    ensures r.Ok? <==> forall i | 0 <= i < |idxMap| :: idxMap[i] < |idxMap|
    ensures IsPermutation(idxMap) ==>
              r.Ok? && |r.value| == |idxMap|
              && forall i | 0 <= i < |idxMap| ::
                   r.value[idxMap[i]] == i && r.value[i] < |idxMap| && idxMap[r.value[i]] == i
  {
    if IsPermutation(idxMap) {
      PermutationIsBijective(idxMap);
    }
    var reverse: seq<nat> := idxMap;
    for i := 0 to |idxMap|
      invariant |reverse| == |idxMap|
      invariant forall j | 0 <= j < i :: idxMap[j] < |idxMap|
      invariant IsPermutation(idxMap) ==> forall j | 0 <= j < i :: reverse[idxMap[j]] == j
    {
      if idxMap[i] >= |reverse| {
        return Err;
      }
      reverse := reverse[idxMap[i] := i];
    }
    if IsPermutation(idxMap) {
      forall x: nat | x < |idxMap| ensures reverse[x] < |idxMap| && idxMap[reverse[x]] == x {
        assert x in idxMap;
        var i :| 0 <= i < |idxMap| && idxMap[i] == x;
        assert reverse[idxMap[i]] == i;
      }
    }
    return Ok(reverse);
  }

  // ----- micro-batches

  /** A row of the batch: its attention mask and everything else that is sliced along with it. */
  datatype Row<T> = Row(attentionMask: seq<bool>, fields: T)

  function TokenCount(mask: seq<bool>): nat {
    if mask == [] then 0 else (if mask[0] then 1 else 0) + TokenCount(mask[1..])
  }

  function TokenCounts<T>(batch: seq<Row<T>>): seq<nat> {
    seq(|batch|, i requires 0 <= i < |batch| => TokenCount(batch[i].attentionMask))
  }

  /** The tokens that count are those attended. */
  lemma {:induction false} TokenCountExactly(mask: seq<bool>)
    ensures TokenCount(mask) == multiset(mask)[true]
  {
    if mask == [] {
    } else {
      TokenCountExactly(mask[1..]);
      assert mask == [mask[0]] + mask[1..];
    }
  }

  lemma {:induction false} TokenCountWithin(mask: seq<bool>)
    ensures TokenCount(mask) <= |mask|
  {
    if mask == [] {
    } else {
      TokenCountWithin(mask[1..]);
    }
  }

  /** The number of micro-batches: enough for the tokens but no more than rows, then raised to the
      requested minimum and to the largest count of the other ranks, then rounded up. */
  function MicroBatchCount(rows: nat, total: nat, maxTokenLen: int, minCount: Option<int>, othersMax: Option<int>,
                           dividedBy: Option<int>): Result<int>
  {
    if maxTokenLen == 0 || dividedBy == Some(0) then Err else
    var needed := CeilDiv(total, maxTokenLen);
    var c0 := if rows < needed then rows else needed;
    var c1 := if minCount.Some? && minCount.value > c0 then minCount.value else c0;
    var c2 := if othersMax.Some? && othersMax.value > c1 then othersMax.value else c1;
    Ok(if dividedBy.Some? then RoundUpDivisible(c2, dividedBy.value) else c2)
  }

  lemma OneMoreTimes(n: nat, width: nat)
    ensures (n + 1) * width == n * width + width
  {
  }

  lemma {:induction false} SumWithin(lengths: seq<nat>, width: nat)
    requires forall l | l in lengths :: l <= width
    ensures Sum(lengths) <= |lengths| * width
  {
    if lengths == [] {
    } else {
      assert lengths[0] in lengths && forall l | l in lengths[1..] :: l in lengths;
      SumWithin(lengths[1..], width);
      OneMoreTimes(|lengths| - 1, width);
    }
  }

  lemma Commute(n: int, x: int, y: int)
    ensures n * x == x * n && n * y == y * n
  {
  }

  /** Rows no longer than the limit never need more micro-batches than there are rows, and the count
      is never below what the tokens need. */
  lemma CountCoversTokens(lengths: seq<nat>, width: nat, maxTokenLen: int, minCount: Option<int>,
                          othersMax: Option<int>, dividedBy: Option<int>)
    requires forall l | l in lengths :: l <= width
    requires width <= maxTokenLen && maxTokenLen > 0 && (dividedBy.Some? ==> dividedBy.value > 0)
    ensures CeilDiv(Sum(lengths), maxTokenLen) <= |lengths|
    ensures var count := MicroBatchCount(|lengths|, Sum(lengths), maxTokenLen, minCount, othersMax, dividedBy);
            count.Ok? && count.value >= CeilDiv(Sum(lengths), maxTokenLen)
            && count.value * maxTokenLen >= Sum(lengths)
  {
    SumWithin(lengths, width);
    TimesMonotone(width, maxTokenLen, |lengths|);
    Commute(|lengths|, width, maxTokenLen);
    CeilDivLeast(Sum(lengths), maxTokenLen, |lengths|);
    var needed := CeilDiv(Sum(lengths), maxTokenLen);
    var c0 := needed;
    var c1 := if minCount.Some? && minCount.value > c0 then minCount.value else c0;
    var c2 := if othersMax.Some? && othersMax.value > c1 then othersMax.value else c1;
    var count := if dividedBy.Some? then RoundUpDivisible(c2, dividedBy.value) else c2;
    if dividedBy.Some? {
      RoundUpLeast(c2, dividedBy.value, 0);
    }
    TimesMonotone(needed, count, maxTokenLen);
  }

  /** So many micro-batches do: one per row, or enough for the tokens at the limit; at least the requested
      minimum and the largest count of the other ranks; and a multiple of the divisor. */
  predicate Enough(n: int, rows: nat, total: nat, maxTokenLen: int, minCount: Option<int>, othersMax: Option<int>,
                   dividedBy: Option<int>)
    requires dividedBy != Some(0)
  {
    && (n >= rows || n * maxTokenLen >= total)
    && (minCount.Some? ==> n >= minCount.value) && (othersMax.Some? ==> n >= othersMax.value)
    && (dividedBy.Some? ==> n % dividedBy.value == 0)
  }

  ghost predicate LeastEnough(n: int, rows: nat, total: nat, maxTokenLen: int, minCount: Option<int>,
                              othersMax: Option<int>, dividedBy: Option<int>)
    requires dividedBy != Some(0)
  {
    && Enough(n, rows, total, maxTokenLen, minCount, othersMax, dividedBy)
    && forall m | Enough(m, rows, total, maxTokenLen, minCount, othersMax, dividedBy) :: n <= m
  }

  lemma SmallerOfTwo(rows: nat, total: nat, maxTokenLen: int, c: int, n: int)
    requires maxTokenLen > 0
    requires c == if rows < CeilDiv(total, maxTokenLen) then rows else CeilDiv(total, maxTokenLen)
    ensures n >= c <==> n >= rows || n * maxTokenLen >= total
  {
    CeilDivLeast(total, maxTokenLen, n);
    if n >= CeilDiv(total, maxTokenLen) {
      TimesMonotone(CeilDiv(total, maxTokenLen), n, maxTokenLen);
    }
  }

  lemma MultipleIsProduct(n: int, d: int)
    requires d > 0 && n % d == 0
    ensures n == n / d * d
  {
  }

  lemma ProductRemainder(q: int, d: int)
    requires d > 0
    ensures (q * d) % d == 0
  {
    var x := q * d;
    if x / d < q {
      TimesMonotone(x / d, q - 1, d);
    } else if x / d > q {
      TimesMonotone(q + 1, x / d, d);
    }
    assert x == x / d * d + x % d;
  }

  lemma RoundedIsMultiple(a: int, d: int)
    requires d > 0
    ensures RoundUpDivisible(a, d) % d == 0
  {
    var q := (a + d - 1) / d;
    assert q * d == d * q;
    ProductRemainder(q, d);
  }

  lemma LeastMultiple(a: int, d: int, m: int)
    requires d > 0 && m % d == 0
    ensures m >= a <==> m >= RoundUpDivisible(a, d)
  {
    RoundUpLeast(a, d, m / d);
    MultipleIsProduct(m, d);
  }

  /** The count is the least one that does. */
  lemma CountIsLeast(n: int, rows: nat, total: nat, maxTokenLen: int, minCount: Option<int>, othersMax: Option<int>,
                     dividedBy: Option<int>)
    requires maxTokenLen > 0 && (dividedBy.Some? ==> dividedBy.value > 0)
    requires MicroBatchCount(rows, total, maxTokenLen, minCount, othersMax, dividedBy) == Ok(n)
    ensures LeastEnough(n, rows, total, maxTokenLen, minCount, othersMax, dividedBy)
  {
    var needed := CeilDiv(total, maxTokenLen);
    var c0 := if rows < needed then rows else needed;
    var c1 := if minCount.Some? && minCount.value > c0 then minCount.value else c0;
    var c2 := if othersMax.Some? && othersMax.value > c1 then othersMax.value else c1;
    if dividedBy.Some? {
      RoundedIsMultiple(c2, dividedBy.value);
    }
    forall m | dividedBy.Some? ==> m % dividedBy.value == 0
      ensures Enough(m, rows, total, maxTokenLen, minCount, othersMax, dividedBy) <==> m >= n
    {
      SmallerOfTwo(rows, total, maxTokenLen, c0, m);
      if dividedBy.Some? {
        LeastMultiple(c2, dividedBy.value, m);
      }
    }
  }

  /** The micro-batches made of the rows that an index list selects. */
  function SelectRows<T>(batch: seq<T>, indices: seq<nat>): seq<T> {
    if indices == [] then []
    else (if indices[0] < |batch| then [batch[indices[0]]] else []) + SelectRows(batch, indices[1..])
  }

  /** These are the rows at the indices, in order. */
  ghost predicate RowsAt<T>(batch: seq<T>, indices: seq<nat>, rows: seq<T>) {
    |rows| == |indices| && forall j | 0 <= j < |indices| :: indices[j] < |batch| && rows[j] == batch[indices[j]]
  }

  lemma {:induction false} SelectedAt<T>(batch: seq<T>, indices: seq<nat>)
    requires forall j | 0 <= j < |indices| :: indices[j] < |batch|
    ensures RowsAt(batch, indices, SelectRows(batch, indices))
  {
    if indices == [] {
    } else {
      SelectedAt(batch, indices[1..]);
    }
  }

  lemma {:induction false} SelectAppend<T>(batch: seq<T>, indices: seq<nat>, i: nat)
    ensures SelectRows(batch, indices + [i]) == SelectRows(batch, indices) + (if i < |batch| then [batch[i]] else [])
  {
    if indices == [] {
      assert SelectRows(batch, [i][1..]) == [];
    } else {
      assert (indices + [i])[1..] == indices[1..] + [i];
      SelectAppend(batch, indices[1..], i);
    }
  }

  lemma TokensWithinWidth<T>(batch: seq<Row<T>>, width: nat)
    requires forall row | row in batch :: |row.attentionMask| == width
    ensures forall l | l in TokenCounts(batch) :: l <= width
  {
    forall l | l in TokenCounts(batch) ensures l <= width {
      var i :| 0 <= i < |batch| && l == TokenCount(batch[i].attentionMask);
      TokenCountWithin(batch[i].attentionMask);
    }
  }

  lemma TokenBound<T>(batch: seq<Row<T>>, width: nat, maxTokenLen: int, minCount: Option<int>, othersMax: Option<int>,
                      dividedBy: Option<int>, count: int, parts: seq<seq<nat>>)
    requires forall row | row in batch :: |row.attentionMask| == width
    requires maxTokenLen >= width && count > 0 && (dividedBy.Some? ==> dividedBy.value > 0)
    requires MicroBatchCount(|batch|, Sum(TokenCounts(batch)), maxTokenLen, minCount, othersMax, dividedBy) == Ok(count)
    requires BalancedPartition(TokenCounts(batch), count, false, parts)
    ensures forall p | p in parts :: PartLength(TokenCounts(batch), p) < 2 * maxTokenLen
  {
    var lengths := TokenCounts(batch);
    TokensWithinWidth(batch, width);
    CountCoversTokens(lengths, width, maxTokenLen, minCount, othersMax, dividedBy);
    forall p | p in parts ensures PartLength(lengths, p) < 2 * maxTokenLen {
      BelowTwiceTheLimit(lengths, width, maxTokenLen, count, parts, p);
    }
  }

  /** Room for the longest row keeps every micro-batch within the limit; more rows above half the limit
      than micro-batches exceed it. */
  lemma LimitKept<T>(batch: seq<Row<T>>, width: nat, maxTokenLen: nat, count: nat, parts: seq<seq<nat>>)
    requires forall row | row in batch :: |row.attentionMask| == width
    requires maxTokenLen >= width && count > 0 && BalancedPartition(TokenCounts(batch), count, false, parts)
    ensures Roomy(TokenCounts(batch), count, maxTokenLen) ==> AllWithin(TokenCounts(batch), parts, maxTokenLen)
    ensures AllWithin(TokenCounts(batch), parts, maxTokenLen) ==>
              Sum(LongRows(TokenCounts(batch), maxTokenLen)) <= count
  {
    TokensWithinWidth(batch, width);
    TooManyLongRows(TokenCounts(batch), maxTokenLen, count, parts);
    if Roomy(TokenCounts(batch), count, maxTokenLen) {
      RoomyParts(TokenCounts(batch), maxTokenLen, count, parts);
    }
  }

  lemma RowsOfParts<T>(batch: seq<T>, lengths: seq<nat>, count: nat, parts: seq<seq<nat>>, microBatches: seq<seq<T>>)
    requires |lengths| == |batch| && count > 0 && BalancedPartition(lengths, count, false, parts)
    requires |microBatches| == |parts| && forall i | 0 <= i < |parts| :: microBatches[i] == SelectRows(batch, parts[i])
    ensures forall i | 0 <= i < |parts| :: RowsAt(batch, parts[i], microBatches[i])
  {
    forall i | 0 <= i < |parts| ensures RowsAt(batch, parts[i], microBatches[i]) {
      IndicesInRange(|batch|, parts, parts[i]);
      assert forall j | 0 <= j < |parts[i]| :: parts[i][j] in parts[i];
      SelectedAt(batch, parts[i]);
    }
  }

  /** The rows of every index list. */
  method CutRows<T>(batch: seq<T>, indices: seq<seq<nat>>) returns (microBatches: seq<seq<T>>)
    ensures |microBatches| == |indices|
    ensures forall i | 0 <= i < |indices| :: microBatches[i] == SelectRows(batch, indices[i])
  {
    microBatches := [];
    for i := 0 to |indices|
      invariant |microBatches| == i
      invariant forall j | 0 <= j < i :: microBatches[j] == SelectRows(batch, indices[j])
    {
      var part := indices[i];
      var rows := [];
      for j := 0 to |part|
        invariant rows == SelectRows(batch, part[..j])
      {
        assert part[..j + 1] == part[..j] + [part[j]];
        SelectAppend(batch, part[..j], part[j]);
        rows := rows + if part[j] < |batch| then [batch[part[j]]] else [];
      }
      assert part[..|part|] == part;
      microBatches := microBatches + [rows];
    }
  }

  /** Splits a batch. It fails exactly when the limit is below the row width or zero, the divisor is
      zero, or the count comes out as zero or above the number of rows. The count is the least that does,
      for a positive divisor. The micro-batches are the rows of the index lists, these are a balanced
      partition of the rows, no micro-batch is empty, and with a positive divisor every micro-batch has
      fewer than twice the limit of tokens. All keep the limit if there is room for the longest row, and
      only if no more rows than micro-batches are above half of it. */
  method RearrangeMicroBatches<T>(batch: seq<Row<T>>, width: nat, maxTokenLen: int, minCount: Option<int>,
                                  othersMax: Option<int>, dividedBy: Option<int>)
    returns (r: Result<(seq<seq<Row<T>>>, seq<seq<nat>>)>)
    requires forall row | row in batch :: |row.attentionMask| == width
    ensures var lengths := TokenCounts(batch);
            var count := MicroBatchCount(|batch|, Sum(lengths), maxTokenLen, minCount, othersMax, dividedBy);
            && (r.Ok? <==> maxTokenLen >= width && count.Ok? && 1 <= count.value <= |batch|)
            && (r.Ok? ==>
                  && BalancedPartition(lengths, count.value, false, r.value.1)
                  && (forall p | p in r.value.1 :: p != [])
                  && |r.value.0| == |r.value.1|
                  && (forall i | 0 <= i < |r.value.0| :: r.value.0[i] == SelectRows(batch, r.value.1[i]))
                  && (forall i | 0 <= i < |r.value.0| :: RowsAt(batch, r.value.1[i], r.value.0[i])))
            && (r.Ok? && (dividedBy.Some? ==> dividedBy.value > 0) ==>
                  forall p | p in r.value.1 :: PartLength(lengths, p) < 2 * maxTokenLen)
            && (r.Ok? && Roomy(lengths, count.value, maxTokenLen) ==> AllWithin(lengths, r.value.1, maxTokenLen))
            && (r.Ok? && AllWithin(lengths, r.value.1, maxTokenLen) ==>
                  Sum(LongRows(lengths, maxTokenLen)) <= count.value)
    ensures dividedBy == Some(0) || maxTokenLen == 0 || maxTokenLen < width ==> r.Err?
    ensures (dividedBy.Some? ==> dividedBy.value > 0) && maxTokenLen > 0 && maxTokenLen >= width ==>
              exists n ::
                && LeastEnough(n, |batch|, Sum(TokenCounts(batch)), maxTokenLen, minCount, othersMax, dividedBy)
                && (r.Ok? <==> 1 <= n <= |batch|) && (r.Ok? ==> |r.value.0| == n)
  {
    if maxTokenLen < width {
      return Err;
    }
    var lengths := TokenCounts(batch);
    var total := Sum(lengths);
    var count :- MicroBatchCount(|batch|, total, maxTokenLen, minCount, othersMax, dividedBy);
    if (dividedBy.Some? ==> dividedBy.value > 0) && maxTokenLen > 0 {
      CountIsLeast(count, |batch|, total, maxTokenLen, minCount, othersMax, dividedBy);
    }
    if count > |batch| {
      return Err;
    }
    var partition, run, unsorted := PartitionCheck.GetSeqlenBalancedPartitions(lengths, count, false);
    var indices :- partition;
    LimitKept(batch, width, maxTokenLen, count, indices);
    if dividedBy.Some? ==> dividedBy.value > 0 {
      TokenBound(batch, width, maxTokenLen, minCount, othersMax, dividedBy, count, indices);
    }
    var microBatches := CutRows(batch, indices);
    RowsOfParts(batch, lengths, count, indices, microBatches);
    return Ok((microBatches, indices));
  }

  /** The limit itself is not a bound: three rows of three tokens are split in two under a limit of
      five, and whichever way they are split one of the two micro-batches has more than five. */
  lemma LimitCanBeExceeded<T>(batch: seq<Row<T>>, width: nat, parts: seq<seq<nat>>)
    requires TokenCounts(batch) == [3, 3, 3] && 3 <= width <= 5
    requires BalancedPartition(TokenCounts(batch), 2, false, parts)
    ensures MicroBatchCount(|batch|, Sum(TokenCounts(batch)), 5, None, None, None) == Ok(2)
    ensures !AllWithin(TokenCounts(batch), parts, 5)
  {
    assert |TokenCounts(batch)| == |batch|;
    assert Sum([3, 3, 3]) == 9;
    UniformRows(TokenCounts(batch), 3, 5, 2, parts);
  }

  // ----- scoring

  function MapRows<T, U>(score: T -> U, rows: seq<T>): seq<U> {
    seq(|rows|, i requires 0 <= i < |rows| => score(rows[i]))
  }

  lemma {:induction false} SelectAll<T, U>(batch: seq<T>, score: T -> U, indices: seq<nat>)
    requires forall i | 0 <= i < |indices| :: indices[i] < |batch|
    ensures var rows := SelectRows(batch, indices);
            |rows| == |indices| && forall i | 0 <= i < |indices| :: MapRows(score, rows)[i] == score(batch[indices[i]])
  {
    if indices == [] {
    } else {
      SelectAll(batch, score, indices[1..]);
    }
  }

  /** Scoring the micro-batches one after the other scores the rows in the order of the flattened
      index lists. */
  lemma {:induction false} ScoresInIndexOrder<T, U>(batch: seq<T>, score: T -> U, parts: seq<seq<nat>>,
                                                    scores: seq<seq<U>>)
    requires forall i | 0 <= i < |Flatten(parts)| :: Flatten(parts)[i] < |batch|
    requires |scores| == |parts| && forall i | 0 <= i < |parts| ::
               scores[i] == MapRows(score, SelectRows(batch, parts[i]))
    ensures |Sequences.Concat(scores)| == |Flatten(parts)|
    ensures forall i | 0 <= i < |Flatten(parts)| :: Sequences.Concat(scores)[i] == score(batch[Flatten(parts)[i]])
  {
    if parts == [] {
    } else {
      var flat := Flatten(parts);
      assert forall i | 0 <= i < |parts[0]| :: flat[i] == parts[0][i];
      assert forall i | 0 <= i < |flat| - |parts[0]| :: flat[|parts[0]| + i] == Flatten(parts[1..])[i];
      SelectAll(batch, score, parts[0]);
      ScoresInIndexOrder(batch, score, parts[1..], scores[1..]);
    }
  }

  /** Without other demands a batch can be split exactly when it has a token. */
  lemma SplitsWhenTokens<T>(batch: seq<Row<T>>, width: nat, maxTokenLen: int)
    requires forall row | row in batch :: |row.attentionMask| == width
    ensures var total := Sum(TokenCounts(batch));
            maxTokenLen >= width ==>
              (total > 0 <==> var count := MicroBatchCount(|batch|, total, maxTokenLen, None, None, None);
                              count.Ok? && 1 <= count.value <= |batch|)
  {
    var lengths := TokenCounts(batch);
    TokensWithinWidth(batch, width);
    SumWithin(lengths, width);
    if maxTokenLen > 0 {
      CeilDivLeast(Sum(lengths), maxTokenLen, 0);
    }
  }

  /** The dynamic-batch path of the reward model: split, score each micro-batch row by row,
      concatenate, and index by the inverse of the flattened index lists. Whenever the batch can be
      split at all, the result is the scores of the rows in their original order. */
  method ComputeScores<T, U>(batch: seq<Row<T>>, width: nat, maxTokenLen: int, score: Row<T> -> U)
    returns (r: Result<seq<U>>)
    requires forall row | row in batch :: |row.attentionMask| == width
    ensures r.Ok? <==> maxTokenLen >= width && Sum(TokenCounts(batch)) > 0
    ensures r.Ok? ==> r.value == MapRows(score, batch)
  {
    SplitsWhenTokens(batch, width, maxTokenLen);
    var split :- RearrangeMicroBatches(batch, width, maxTokenLen, None, None, None);
    var (microBatches, parts) := split;
    var output: seq<seq<U>> := [];
    for i := 0 to |microBatches|
      invariant |output| == i
      invariant forall j | 0 <= j < i :: output[j] == MapRows(score, SelectRows(batch, parts[j]))
    {
      output := output + [MapRows(score, microBatches[i])];
    }
    var scores, indices := Sequences.Concat(output), Flatten(parts);
    assert IsPermutation(indices) by {
      assert |multiset(indices)| == |multiset(Range(|batch|))|;
    }
    PermutationIsBijective(indices);
    ScoresInIndexOrder(batch, score, parts, output);
    if |indices| != |scores| {
      return Err;
    }
    var reversed := GetReverseIdx(indices);
    var reverse := reversed.value;
    r := Ok(seq(|reverse|, i requires 0 <= i < |reverse| && reverse[i] < |scores| => scores[reverse[i]]));
  }
}
