/** When the micro-batches keep the token limit. */
module TokenLimit {
  import opened BalancedPartitions
  import opened Ceilings
  import GreedyPartition
  import KarmarkarKarp

  /** Every part has at most `limit` tokens. */
  ghost predicate AllWithin(lengths: seq<nat>, parts: seq<seq<nat>>, limit: nat) {
    forall p | p in parts :: PartLength(lengths, p) <= limit
  }

  lemma {:induction false} MaxLengthWithin(items: seq<KarmarkarKarp.Item>, width: nat)
    requires forall x | x in items :: x.length <= width
    ensures MaxLength(items) <= width
  {
    if items == [] {
    } else {
      assert items[0] in items && forall x | x in items[1..] :: x in items;
      MaxLengthWithin(items[1..], width);
    }
  }

  lemma TwiceArithmetic(count: int, limit: int, bound: int, part: int, sum: int)
    requires count > 0 && limit > 0 && bound * (count - 1) <= limit * (count - 1)
    requires count * part <= sum + (count - 1) * bound && sum <= count * limit
    ensures part < 2 * limit
  {
    assert limit * (count - 1) == count * limit - limit;
    assert count * part <= count * (2 * limit) - limit;
    if part >= 2 * limit {
      TimesMonotone(2 * limit, part, count);
    }
  }

  /** Any balanced partition into enough parts keeps every part below twice the limit. */
  lemma BelowTwiceTheLimit(lengths: seq<nat>, width: nat, limit: nat, count: nat, parts: seq<seq<nat>>, p: seq<nat>)
    requires forall l | l in lengths :: l <= width
    requires width <= limit && 0 < limit && 0 < count && Sum(lengths) <= count * limit
    requires BalancedPartition(lengths, count, false, parts) && p in parts
    ensures PartLength(lengths, p) < 2 * limit
  {
    var bound := SpreadBound(lengths, count, false);
    forall x | x in Items(lengths) ensures x.length <= width {
      assert x.length in lengths;
    }
    MaxLengthWithin(Items(lengths), width);
    TimesMonotone(bound, limit, count - 1);
    TwiceArithmetic(count, limit, bound, PartLength(lengths, p), Sum(lengths));
  }

  // ----- a condition that suffices

  /** There are as many parts as rows, or room for the longest row in all parts but one. */
  predicate Roomy(lengths: seq<nat>, count: nat, limit: nat) {
    count == |lengths| || Sum(lengths) + (count - 1) * MaxLength(Items(lengths)) < count * (limit + 1)
  }

  lemma {:induction false} OneRowEach(parts: seq<seq<nat>>)
    ensures NonEmptyParts(parts) <= |Flatten(parts)|
    ensures NonEmptyParts(parts) == |Flatten(parts)| ==> forall p | p in parts :: |p| <= 1
  {
    if parts == [] {
    } else {
      OneRowEach(parts[1..]);
      assert parts == [parts[0]] + parts[1..];
    }
  }

  lemma OneRowWithin(lengths: seq<nat>, limit: nat, p: seq<nat>)
    requires (forall l | l in lengths :: l <= limit) && |p| <= 1
    ensures PartLength(lengths, p) <= limit
  {
    if p == [] {
    } else {
      assert p[1..] == [];
      assert p[0] < |lengths| ==> lengths[p[0]] in lengths;
    }
  }

  lemma SizeOfAll(parts: seq<seq<nat>>, n: nat)
    requires multiset(Flatten(parts)) == multiset(Range(n))
    ensures |Flatten(parts)| == n
  {
    assert |multiset(Flatten(parts))| == |multiset(Range(n))|;
  }

  lemma RowEach(lengths: seq<nat>, limit: nat, parts: seq<seq<nat>>)
    requires |lengths| > 0 && forall l | l in lengths :: l <= limit
    requires BalancedPartition(lengths, |lengths|, false, parts)
    ensures AllWithin(lengths, parts, limit)
  {
    OneRowEach(parts);
    SizeOfAll(parts, |lengths|);
    forall p | p in parts ensures PartLength(lengths, p) <= limit {
      OneRowWithin(lengths, limit, p);
    }
  }

  lemma BelowNext(count: nat, part: nat, limit: nat)
    requires count * part < count * (limit + 1)
    ensures part <= limit
  {
    if part > limit {
      TimesMonotone(limit + 1, part, count);
    }
  }

  /** With room enough, every part is within the limit. */
  lemma RoomyParts(lengths: seq<nat>, limit: nat, count: nat, parts: seq<seq<nat>>)
    requires 0 < count && Roomy(lengths, count, limit) && forall l | l in lengths :: l <= limit
    requires BalancedPartition(lengths, count, false, parts)
    ensures AllWithin(lengths, parts, limit)
  {
    if count == |lengths| {
      RowEach(lengths, limit, parts);
    } else {
      forall p | p in parts ensures PartLength(lengths, p) <= limit {
        BelowNext(count, PartLength(lengths, p), limit);
      }
    }
  }

  // ----- a condition that is necessary

  /** One for every row that takes more than half the limit. */
  function LongRows(lengths: seq<nat>, limit: nat): seq<nat> {
    seq(|lengths|, i requires 0 <= i < |lengths| => if 2 * lengths[i] > limit then 1 else 0)
  }

  lemma {:induction false} LongRowsWeigh(lengths: seq<nat>, limit: nat, p: seq<nat>)
    ensures PartLength(LongRows(lengths, limit), p) * (limit + 1) <= 2 * PartLength(lengths, p)
  {
    if p == [] {
    } else {
      LongRowsWeigh(lengths, limit, p[1..]);
      GreedyPartition.OneTimesMore(PartLength(LongRows(lengths, limit), p[1..]), limit + 1);
    }
  }

  lemma OneLongRow(lengths: seq<nat>, limit: nat, p: seq<nat>)
    requires PartLength(lengths, p) <= limit
    ensures PartLength(LongRows(lengths, limit), p) <= 1
  {
    var longs := PartLength(LongRows(lengths, limit), p);
    LongRowsWeigh(lengths, limit, p);
    if longs >= 2 {
      TimesMonotone(2, longs, limit + 1);
    }
  }

  lemma {:induction false} OneLongRowEach(lengths: seq<nat>, limit: nat, parts: seq<seq<nat>>)
    requires AllWithin(lengths, parts, limit)
    ensures PartLength(LongRows(lengths, limit), Flatten(parts)) <= |parts|
  {
    if parts == [] {
    } else {
      OneLongRow(lengths, limit, parts[0]);
      OneLongRowEach(lengths, limit, parts[1..]);
      GreedyPartition.PartLengthConcat(LongRows(lengths, limit), parts[0], Flatten(parts[1..]));
    }
  }

  lemma PartLengthMoves(lengths: seq<nat>, before: seq<nat>, x: nat, after: seq<nat>)
    ensures PartLength(lengths, before + [x] + after)
            == (if x < |lengths| then lengths[x] else 0) + PartLength(lengths, before + after)
  {
    assert before + [x] + after == before + ([x] + after) && ([x] + after)[1..] == after;
    GreedyPartition.PartLengthConcat(lengths, before, [x] + after);
    GreedyPartition.PartLengthConcat(lengths, before, after);
  }

  lemma OneTaken(before: seq<nat>, x: nat, after: seq<nat>)
    ensures multiset(before + after) == multiset(before + [x] + after) - multiset{x}
  {
  }

  lemma MatchFirst(s: seq<nat>, t: seq<nat>) returns (before: seq<nat>, after: seq<nat>)
    requires multiset(s) == multiset(t) && s != []
    ensures t == before + [s[0]] + after && multiset(s[1..]) == multiset(before + after)
  {
    assert s[0] in multiset(t);
    var i :| 0 <= i < |t| && t[i] == s[0];
    before, after := t[..i], t[i + 1..];
    assert t == before + [s[0]] + after && s == [] + [s[0]] + s[1..];
    OneTaken(before, s[0], after);
    OneTaken([], s[0], s[1..]);
    assert [] + s[1..] == s[1..];
  }

  /** The order of the indices does not matter to their total length. */
  lemma {:induction false} PartLengthPermuted(lengths: seq<nat>, s: seq<nat>, t: seq<nat>)
    requires multiset(s) == multiset(t)
    ensures PartLength(lengths, s) == PartLength(lengths, t)
  {
    if s == [] {
      assert |multiset(t)| == 0;
    } else {
      var before, after := MatchFirst(s, t);
      PartLengthPermuted(lengths, s[1..], before + after);
      PartLengthMoves(lengths, before, s[0], after);
    }
  }

  lemma {:induction false} PartLengthOfFirst(lengths: seq<nat>, n: nat)
    requires n <= |lengths|
    ensures PartLength(lengths, Range(n)) == Sum(lengths[..n])
  {
    if n == 0 {
    } else {
      PartLengthOfFirst(lengths, n - 1);
      assert Range(n) == Range(n - 1) + [n - 1] && lengths[..n] == lengths[..n - 1] + [lengths[n - 1]];
      GreedyPartition.PartLengthConcat(lengths, Range(n - 1), [n - 1]);
      GreedyPartition.SumConcat(lengths[..n - 1], [lengths[n - 1]]);
    }
  }

  lemma PartLengthOfAll(lengths: seq<nat>, s: seq<nat>)
    requires multiset(s) == multiset(Range(|lengths|))
    ensures PartLength(lengths, s) == Sum(lengths)
  {
    PartLengthPermuted(lengths, s, Range(|lengths|));
    PartLengthOfFirst(lengths, |lengths|);
    assert lengths[..|lengths|] == lengths;
  }

  /** With more rows above half the limit than parts, some part exceeds the limit. */
  lemma TooManyLongRows(lengths: seq<nat>, limit: nat, count: nat, parts: seq<seq<nat>>)
    requires 0 < count && BalancedPartition(lengths, count, false, parts)
    ensures AllWithin(lengths, parts, limit) ==> Sum(LongRows(lengths, limit)) <= count
  {
    if AllWithin(lengths, parts, limit) {
      OneLongRowEach(lengths, limit, parts);
      PartLengthOfAll(LongRows(lengths, limit), Flatten(parts));
    }
  }

  // ----- rows of one length

  lemma {:induction false} InFlatten(parts: seq<seq<nat>>, p: seq<nat>, x: nat)
    requires p in parts && x in p
    ensures x in Flatten(parts)
  {
    if p == parts[0] {
    } else {
      InFlatten(parts[1..], p, x);
    }
  }

  lemma {:induction false} UniformPart(lengths: seq<nat>, l: nat, p: seq<nat>)
    requires (forall x | x in lengths :: x == l) && forall x | x in p :: x < |lengths|
    ensures PartLength(lengths, p) == |p| * l
  {
    if p == [] {
    } else {
      assert p[0] in p && forall x | x in p[1..] :: x in p;
      assert lengths[p[0]] in lengths;
      UniformPart(lengths, l, p[1..]);
      GreedyPartition.OneTimesMore(|p| - 1, l);
    }
  }

  lemma IndicesInRange(n: nat, parts: seq<seq<nat>>, p: seq<nat>)
    requires multiset(Flatten(parts)) == multiset(Range(n)) && p in parts
    ensures forall x | x in p :: x < n
  {
    forall x | x in p ensures x < n {
      InFlatten(parts, p, x);
      assert x in multiset(Range(n));
    }
  }

  lemma {:induction false} SizesAddUp(parts: seq<seq<nat>>, m: nat)
    requires forall p | p in parts :: |p| <= m
    ensures |Flatten(parts)| <= |parts| * m
  {
    if parts == [] {
    } else {
      SizesAddUp(parts[1..], m);
      GreedyPartition.OneTimesMore(|parts| - 1, m);
    }
  }

  lemma {:induction false} SumOfUniform(lengths: seq<nat>, l: nat)
    requires forall x | x in lengths :: x == l
    ensures Sum(lengths) == |lengths| * l
  {
    if lengths == [] {
    } else {
      assert lengths[0] in lengths && forall x | x in lengths[1..] :: x in lengths;
      SumOfUniform(lengths[1..], l);
      GreedyPartition.OneTimesMore(|lengths| - 1, l);
    }
  }

  lemma LongestOfUniform(lengths: seq<nat>, l: nat)
    requires forall x | x in lengths :: x == l
    ensures MaxLength(Items(lengths)) <= l
  {
    forall x | x in Items(lengths) ensures x.length <= l {
      assert x.length in lengths;
    }
    MaxLengthWithin(Items(lengths), l);
  }

  lemma Cancel(x: int, y: int, l: nat)
    requires 0 < l && x * l <= y * l
    ensures x <= y
  {
    if x > y {
      TimesMonotone(y + 1, x, l);
    }
  }

  lemma Regrouped(count: nat, size: nat, n: nat, l: nat)
    ensures count * (size * l) == (size * count) * l
    ensures n * l + (count - 1) * l == (n + count - 1) * l
  {
  }

  /** A part of rows of one length has at most the ceiling of rows. */
  lemma UniformSize(n: nat, l: nat, count: nat, size: nat, bound: nat)
    requires 0 < count && 0 < l && bound <= l
    requires count * (size * l) <= n * l + (count - 1) * bound
    ensures size <= CeilDiv(n, count)
  {
    TimesMonotone(bound, l, count - 1);
    Regrouped(count, size, n, l);
    Cancel(size * count, n + count - 1, l);
    CeilDivLeast(n, count, 0);
    if size > CeilDiv(n, count) {
      TimesMonotone(CeilDiv(n, count) + 1, size, count);
    }
  }

  lemma UniformPartSize(lengths: seq<nat>, l: nat, count: nat, parts: seq<seq<nat>>, p: seq<nat>)
    requires 0 < count && forall x | x in lengths :: x == l
    requires BalancedPartition(lengths, count, false, parts) && p in parts
    ensures PartLength(lengths, p) == |p| * l
    ensures l > 0 ==> |p| <= CeilDiv(|lengths|, count)
  {
    IndicesInRange(|lengths|, parts, p);
    UniformPart(lengths, l, p);
    SumOfUniform(lengths, l);
    LongestOfUniform(lengths, l);
    if l > 0 {
      UniformSize(|lengths|, l, count, |p|, MaxLength(Items(lengths)));
    }
  }

  lemma RowsWithin(size: nat, l: nat, limit: nat)
    requires 0 < l && size * l <= limit
    ensures size <= limit / l && limit / l * l <= limit
  {
    if size > limit / l {
      TimesMonotone(limit / l + 1, size, l);
    }
  }

  /** Rows of one length keep the limit exactly when the ceiling of rows does. */
  lemma UniformRows(lengths: seq<nat>, l: nat, limit: nat, count: nat, parts: seq<seq<nat>>)
    requires 0 < count && forall x | x in lengths :: x == l
    requires BalancedPartition(lengths, count, false, parts)
    ensures AllWithin(lengths, parts, limit) <==> CeilDiv(|lengths|, count) * l <= limit
  {
    var n, c := |lengths|, CeilDiv(|lengths|, count);
    if AllWithin(lengths, parts, limit) && l > 0 {
      forall p | p in parts ensures |p| <= limit / l {
        UniformPartSize(lengths, l, count, parts, p);
        RowsWithin(|p|, l, limit);
      }
      SizesAddUp(parts, limit / l);
      SizeOfAll(parts, n);
      RowsWithin(0, l, limit);
      CeilDivLeast(n, count, limit / l);
      TimesMonotone(c, limit / l, l);
    }
    if c * l <= limit {
      forall p | p in parts ensures PartLength(lengths, p) <= limit {
        UniformPartSize(lengths, l, count, parts, p);
        if l > 0 {
          TimesMonotone(|p|, c, l);
        }
      }
    }
  }
}
