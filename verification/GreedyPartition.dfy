/** The greedy alternative: every item goes to a part whose running sum is smallest. In equal-size
    mode each item is made so much heavier that the number of items decides. */
module GreedyPartition {
  import opened Outcomes
  import opened BalancedPartitions

  predicate AllLengths(parts: seq<seq<nat>>, low: nat, high: nat) {
    forall p | p in parts :: low <= |p| <= high
  }

  /** The running sum of a part: its lengths, plus the bias once per item. */
  function BiasedLength(lengths: seq<nat>, part: seq<nat>, bias: nat): nat {
    if part == [] then 0
    else BiasedLength(lengths, part[..|part| - 1], bias)
         + (if part[|part| - 1] < |lengths| then lengths[part[|part| - 1]] else 0) + bias
  }

  lemma BiasedAppend(lengths: seq<nat>, part: seq<nat>, bias: nat, i: nat)
    requires i < |lengths|
    ensures BiasedLength(lengths, part + [i], bias) == BiasedLength(lengths, part, bias) + lengths[i] + bias
  {
    assert (part + [i])[..|part|] == part;
  }

  lemma OneTimesMore(n: nat, b: nat)
    ensures (n + 1) * b == n * b + b
  {
  }

  /** The bias counts the items: a part's running sum lies between |part| and |part| + 1 times it. */
  lemma {:induction false} BiasCountsItems(lengths: seq<nat>, part: seq<nat>, bias: nat)
    ensures BiasedLength(lengths, part, bias) == |part| * bias + BiasedLength(lengths, part, 0)
  {
    if part == [] {
    } else {
      var n := |part| - 1;
      BiasCountsItems(lengths, part[..n], bias);
      OneTimesMore(n, bias);
    }
  }

  lemma {:induction false} PartLengthConcat(lengths: seq<nat>, a: seq<nat>, b: seq<nat>)
    ensures PartLength(lengths, a + b) == PartLength(lengths, a) + PartLength(lengths, b)
  {
    if a == [] {
      assert a + b == b;
    } else {
      assert (a + b)[1..] == a[1..] + b;
      PartLengthConcat(lengths, a[1..], b);
    }
  }

  /** Without bias the running sum is the length of the part. */
  lemma {:induction false} UnbiasedIsPartLength(lengths: seq<nat>, part: seq<nat>)
    ensures BiasedLength(lengths, part, 0) == PartLength(lengths, part)
  {
    if part == [] {
    } else {
      var front, last := part[..|part| - 1], [part[|part| - 1]];
      UnbiasedIsPartLength(lengths, front);
      PartLengthConcat(lengths, front, last);
      assert part == front + last;
      assert last[1..] == [];
    }
  }

  lemma {:induction false} FlattenUpdate(parts: seq<seq<nat>>, m: nat, i: nat)
    requires m < |parts|
    ensures multiset(Flatten(parts[m := parts[m] + [i]])) == multiset(Flatten(parts)) + multiset{i}
  {
    var updated := parts[m := parts[m] + [i]];
    if m == 0 {
      assert updated[1..] == parts[1..];
    } else {
      FlattenUpdate(parts[1..], m - 1, i);
      assert updated[1..] == parts[1..][m - 1 := parts[1..][m - 1] + [i]];
    }
  }

  lemma {:induction false} FlattenUpdateLength(lengths: seq<nat>, parts: seq<seq<nat>>, m: nat, i: nat)
    requires m < |parts| && i < |lengths|
    ensures PartLength(lengths, Flatten(parts[m := parts[m] + [i]])) == PartLength(lengths, Flatten(parts)) + lengths[i]
  {
    var updated := parts[m := parts[m] + [i]];
    PartLengthConcat(lengths, parts[0], Flatten(parts[1..]));
    PartLengthConcat(lengths, updated[0], Flatten(updated[1..]));
    if m == 0 {
      assert updated[1..] == parts[1..];
      PartLengthConcat(lengths, parts[0], [i]);
      assert [i][1..] == [];
    } else {
      FlattenUpdateLength(lengths, parts[1..], m - 1, i);
      assert updated[1..] == parts[1..][m - 1 := parts[1..][m - 1] + [i]];
    }
  }

  lemma {:induction false} FlattenSize(parts: seq<seq<nat>>, low: nat)
    requires AllLengths(parts, low, low + 1)
    ensures |parts| * low <= |Flatten(parts)| <= |parts| * low + |parts|
    ensures (exists p :: p in parts && |p| == low) ==> |Flatten(parts)| < |parts| * low + |parts|
    ensures (exists p :: p in parts && |p| == low + 1) ==> |parts| * low < |Flatten(parts)|
  {
    if parts == [] {
    } else {
      assert parts == [parts[0]] + parts[1..];
      assert parts[0] in parts && forall p | p in parts[1..] :: p in parts;
      FlattenSize(parts[1..], low);
      OneTimesMore(|parts| - 1, low);
    }
  }

  /** Total of the lengths of distinct indices is at most the total of all lengths. */
  lemma {:induction false} FlattenLength(lengths: seq<nat>, parts: seq<seq<nat>>, p: seq<nat>)
    requires p in parts
    ensures PartLength(lengths, p) <= PartLength(lengths, Flatten(parts))
  {
    PartLengthConcat(lengths, parts[0], Flatten(parts[1..]));
    if p != parts[0] {
      assert parts == [parts[0]] + parts[1..];
      FlattenLength(lengths, parts[1..], p);
    }
  }

  lemma {:induction false} SumConcat(a: seq<nat>, b: seq<nat>)
    ensures Sum(a + b) == Sum(a) + Sum(b)
  {
    if a == [] {
      assert a + b == b;
    } else {
      assert (a + b)[1..] == a[1..] + b;
      SumConcat(a[1..], b);
    }
  }

  lemma SumPrefix(lengths: seq<nat>, i: nat)
    requires i <= |lengths|
    ensures Sum(lengths[..i]) <= Sum(lengths)
    ensures i < |lengths| ==> Sum(lengths[..i + 1]) == Sum(lengths[..i]) + lengths[i]
  {
    SumConcat(lengths[..i], lengths[i..]);
    assert lengths == lengths[..i] + lengths[i..];
    if i < |lengths| {
      SumConcat(lengths[..i], [lengths[i]]);
      assert lengths[..i + 1] == lengths[..i] + [lengths[i]];
      assert [lengths[i]][1..] == [];
    }
  }

  lemma TimesStep(x: nat, y: nat, b: nat)
    requires x + 1 <= y
    ensures x * b + b <= y * b
  {
    assert (y - x - 1) * b >= 0;
    assert y * b == x * b + b + (y - x - 1) * b;
  }

  /** No part outweighs one bias unit, so with the bias a part whose running sum is smallest has the
      fewest items. */
  lemma SmallestSumHasFewest(lengths: seq<nat>, parts: seq<seq<nat>>, m: nat, q: nat, bias: nat)
    requires m < |parts| && q < |parts| && PartLength(lengths, Flatten(parts)) < bias
    requires BiasedLength(lengths, parts[m], bias) <= BiasedLength(lengths, parts[q], bias)
    ensures |parts[m]| <= |parts[q]|
  {
    BiasCountsItems(lengths, parts[m], bias);
    BiasCountsItems(lengths, parts[q], bias);
    UnbiasedIsPartLength(lengths, parts[q]);
    FlattenLength(lengths, parts, parts[q]);
    if |parts[m]| > |parts[q]| {
      TimesStep(|parts[q]|, |parts[m]|, bias);
    }
  }

  /** The first part with the smallest running sum; none when there are no parts. */
  method SmallestSum(sums: seq<nat>) returns (m: Option<nat>)
    ensures m.None? <==> sums == []
    ensures m.Some? ==> m.value < |sums| && forall j | 0 <= j < |sums| :: sums[m.value] <= sums[j]
    ensures m.Some? ==> forall j | 0 <= j < m.value :: sums[m.value] < sums[j]
  {
    m := None;
    for j := 0 to |sums|
      invariant m.None? <==> j == 0
      invariant m.Some? ==> m.value < j && forall i | 0 <= i < j :: sums[m.value] <= sums[i]
      invariant m.Some? ==> forall i | 0 <= i < m.value :: sums[m.value] < sums[i]
    {
      if m.None? || sums[j] < sums[m.value] {
        m := Some(j);
      }
    }
  }

  /** The parts hold the items so far. */
  ghost predicate Distributed(lengths: seq<nat>, i: nat, parts: seq<seq<nat>>)
    requires i <= |lengths|
  {
    && multiset(Flatten(parts)) == multiset(Range(i))
    && PartLength(lengths, Flatten(parts)) == Sum(lengths[..i])
  }

  ghost predicate RunningSums(lengths: seq<nat>, bias: nat, parts: seq<seq<nat>>, sums: seq<nat>) {
    |parts| == |sums| && forall j | 0 <= j < |parts| :: sums[j] == BiasedLength(lengths, parts[j], bias)
  }

  ghost predicate SumsClose(sums: seq<nat>, heaviest: nat) {
    forall x, y | 0 <= x < |sums| && 0 <= y < |sums| :: sums[x] <= sums[y] + heaviest
  }

  /** Some part has `low` items, and no part has fewer or more than one more. */
  ghost predicate SizesWithinOne(parts: seq<seq<nat>>, low: nat) {
    AllLengths(parts, low, low + 1) && exists p :: p in parts && |p| == low
  }

  ghost predicate SizesClose(parts: seq<seq<nat>>) {
    exists low :: SizesWithinOne(parts, low)
  }

  /** What holds after every step: the parts hold the items so far, the running sums are within the
      heaviest item of each other, and in equal-size mode so are the part sizes within one. */
  ghost predicate GreedyState(lengths: seq<nat>, k: nat, bias: nat, equalSize: bool, heaviest: nat,
                              i: nat, parts: seq<seq<nat>>, sums: seq<nat>)
    requires i <= |lengths|
  {
    && |parts| == |sums| == k
    && Distributed(lengths, i, parts)
    && RunningSums(lengths, bias, parts, sums)
    && SumsClose(sums, heaviest)
    && (equalSize ==> SizesClose(parts))
  }

  /** Giving an item to a part with the fewest keeps the sizes within one. */
  lemma SizesStayClose(parts: seq<seq<nat>>, low: nat, m: nat, i: nat) returns (low': nat)
    requires SizesWithinOne(parts, low) && m < |parts|
    requires forall q | 0 <= q < |parts| :: |parts[m]| <= |parts[q]|
    ensures SizesWithinOne(parts[m := parts[m] + [i]], low')
  {
    var updated := parts[m := parts[m] + [i]];
    var lowest: seq<nat> :| lowest in parts && |lowest| == low;
    var q :| 0 <= q < |parts| && parts[q] == lowest;
    assert parts[m] in parts && |parts[m]| == low;
    if exists j :: 0 <= j < |parts| && j != m && |parts[j]| == low {
      var j :| 0 <= j < |parts| && j != m && |parts[j]| == low;
      assert updated[j] in updated;
      low' := low;
    } else {
      assert updated[m] in updated;
      low' := low + 1;
    }
    forall p | p in updated ensures low' <= |p| <= low' + 1 {
      var j :| 0 <= j < |updated| && updated[j] == p;
      assert parts[j] in parts;
    }
  }

  lemma StepDistributes(lengths: seq<nat>, i: nat, parts: seq<seq<nat>>, m: nat, parts': seq<seq<nat>>)
    requires i < |lengths| && m < |parts| && Distributed(lengths, i, parts) && parts' == parts[m := parts[m] + [i]]
    ensures Distributed(lengths, i + 1, parts')
  {
    FlattenUpdate(parts, m, i);
    FlattenUpdateLength(lengths, parts, m, i);
    assert Range(i + 1) == Range(i) + [i];
    SumPrefix(lengths, i);
  }

  lemma StepAddsUp(lengths: seq<nat>, bias: nat, i: nat, parts: seq<seq<nat>>, sums: seq<nat>, m: nat)
    requires i < |lengths| && m < |parts| && RunningSums(lengths, bias, parts, sums)
    ensures RunningSums(lengths, bias, parts[m := parts[m] + [i]], sums[m := sums[m] + (lengths[i] + bias)])
  {
    BiasedAppend(lengths, parts[m], bias, i);
  }

  /** Adding an item to the smallest sum keeps the sums within the heaviest item of each other. */
  lemma StepKeepsClose(sums: seq<nat>, m: nat, item: nat, heaviest: nat)
    requires m < |sums| && item <= heaviest && forall j | 0 <= j < |sums| :: sums[m] <= sums[j]
    requires SumsClose(sums, heaviest)
    ensures SumsClose(sums[m := sums[m] + item], heaviest)
  {
  }

  lemma StepKeepsSizes(lengths: seq<nat>, bias: nat, parts: seq<seq<nat>>, sums: seq<nat>, m: nat, i: nat)
    requires m < |parts| == |sums| && PartLength(lengths, Flatten(parts)) < bias
    requires RunningSums(lengths, bias, parts, sums) && forall j | 0 <= j < |sums| :: sums[m] <= sums[j]
    requires SizesClose(parts)
    ensures SizesClose(parts[m := parts[m] + [i]])
  {
    forall q | 0 <= q < |parts| ensures |parts[m]| <= |parts[q]| {
      assert sums[m] <= sums[q];
      SmallestSumHasFewest(lengths, parts, m, q, bias);
    }
    var low :| SizesWithinOne(parts, low);
    var low' := SizesStayClose(parts, low, m, i);
  }

  lemma GreedyStep(lengths: seq<nat>, k: nat, bias: nat, equalSize: bool, heaviest: nat, i: nat,
                   parts: seq<seq<nat>>, sums: seq<nat>, m: nat, parts': seq<seq<nat>>, sums': seq<nat>)
    requires i < |lengths| && GreedyState(lengths, k, bias, equalSize, heaviest, i, parts, sums)
    requires m < k && (forall j | 0 <= j < k :: sums[m] <= sums[j])
    requires lengths[i] + bias <= heaviest && (equalSize ==> bias == Sum(lengths) + 1)
    requires parts' == parts[m := parts[m] + [i]] && sums' == sums[m := sums[m] + (lengths[i] + bias)]
    ensures GreedyState(lengths, k, bias, equalSize, heaviest, i + 1, parts', sums')
  {
    StepDistributes(lengths, i, parts, m, parts');
    StepAddsUp(lengths, bias, i, parts, sums, m);
    StepKeepsClose(sums, m, lengths[i] + bias, heaviest);
    if equalSize {
      SumPrefix(lengths, i);
      StepKeepsSizes(lengths, bias, parts, sums, m, i);
    }
  }

  /** When k divides the number of items, sizes within one are all the same, and only then. */
  lemma EvenSizes(parts: seq<seq<nat>>, low: nat, n: nat, q: nat)
    requires SizesWithinOne(parts, low) && |Flatten(parts)| == n == |parts| * q && |parts| > 0
    ensures forall p | p in parts :: |p| == q
  {
    var k := |parts|;
    FlattenSize(parts, low);
    assert k * low == low * k && k * q == q * k;
    if q > low {
      TimesStep(low, q, k);
    } else if q < low {
      TimesStep(q, low, k);
    }
    assert q == low;
  }

  lemma HeaviestItem(lengths: seq<nat>, i: nat)
    requires i < |lengths|
    ensures lengths[i] <= MaxLength(Items(lengths))
  {
    assert Items(lengths)[i] in Items(lengths);
    LongestItem(Items(lengths), Items(lengths)[i]);
  }

  lemma {:induction false} NothingYet(parts: seq<seq<nat>>)
    requires forall p | p in parts :: p == []
    ensures Flatten(parts) == []
  {
    if parts == [] {
    } else {
      assert parts[0] in parts && forall p | p in parts[1..] :: p in parts;
      NothingYet(parts[1..]);
    }
  }

  lemma StartsEven(lengths: seq<nat>, k: nat, bias: nat, equalSize: bool, heaviest: nat,
                   parts: seq<seq<nat>>, sums: seq<nat>)
    requires k > 0 && |parts| == |sums| == k
    requires forall j | 0 <= j < k :: parts[j] == [] && sums[j] == 0
    ensures GreedyState(lengths, k, bias, equalSize, heaviest, 0, parts, sums)
  {
    NothingYet(parts);
    assert Range(0) == [] && lengths[..0] == [];
    assert parts[0] in parts;
    assert SizesWithinOne(parts, 0) && SizesClose(parts);
  }

  /** Item i goes to part m, the first of those with the smallest length, the bias of every item added. */
  ghost predicate GivesAt(lengths: seq<nat>, bias: nat, i: nat, parts: seq<seq<nat>>, m: nat, next: seq<seq<nat>>) {
    && m < |parts| && next == parts[m := parts[m] + [i]]
    && (forall j | 0 <= j < |parts| :: BiasedLength(lengths, parts[m], bias) <= BiasedLength(lengths, parts[j], bias))
    && forall j | 0 <= j < m :: BiasedLength(lengths, parts[m], bias) < BiasedLength(lengths, parts[j], bias)
  }

  ghost predicate Gives(lengths: seq<nat>, bias: nat, i: nat, parts: seq<seq<nat>>, next: seq<seq<nat>>) {
    exists m: nat :: GivesAt(lengths, bias, i, parts, m, next)
  }

  /** The partitions after every item: from empty parts on, each item goes to the first smallest part. */
  ghost predicate GreedyRun(lengths: seq<nat>, k: nat, bias: nat, run: seq<seq<seq<nat>>>) {
    && run != [] && run[0] == seq(k, _ => [])
    && forall i | 0 <= i < |run| - 1 :: Gives(lengths, bias, i, run[i], run[i + 1])
  }

  lemma GivesToSmallest(lengths: seq<nat>, bias: nat, i: nat, parts: seq<seq<nat>>, sums: seq<nat>, m: nat)
    requires RunningSums(lengths, bias, parts, sums) && m < |sums|
    requires (forall j | 0 <= j < |sums| :: sums[m] <= sums[j]) && forall j | 0 <= j < m :: sums[m] < sums[j]
    ensures Gives(lengths, bias, i, parts, parts[m := parts[m] + [i]])
  {
    assert GivesAt(lengths, bias, i, parts, m, parts[m := parts[m] + [i]]);
  }

  lemma OneMoreGiven(lengths: seq<nat>, k: nat, bias: nat, run: seq<seq<seq<nat>>>, next: seq<seq<nat>>)
    requires GreedyRun(lengths, k, bias, run) && Gives(lengths, bias, |run| - 1, run[|run| - 1], next)
    ensures GreedyRun(lengths, k, bias, run + [next])
  {
  }

  /** The loop of the greedy partition, for at least one part. */
  method Distribute(lengths: seq<nat>, k: nat, bias: nat, equalSize: bool, ghost heaviest: nat)
    returns (parts: seq<seq<nat>>, sums: seq<nat>, ghost run: seq<seq<seq<nat>>>)
    requires k > 0 && heaviest == MaxLength(Items(lengths)) + bias && (equalSize ==> bias == Sum(lengths) + 1)
    ensures GreedyState(lengths, k, bias, equalSize, heaviest, |lengths|, parts, sums)
    ensures GreedyRun(lengths, k, bias, run) && |run| == |lengths| + 1 && run[|lengths|] == parts
  {
    parts := seq(k, _ => []);
    sums := seq(k, _ => 0);
    run := [parts];
    StartsEven(lengths, k, bias, equalSize, heaviest, parts, sums);
    for i := 0 to |lengths|
      invariant GreedyState(lengths, k, bias, equalSize, heaviest, i, parts, sums)
      invariant GreedyRun(lengths, k, bias, run) && |run| == i + 1 && run[i] == parts
    {
      var smallest := SmallestSum(sums);
      var m := smallest.value;
      HeaviestItem(lengths, i);
      ghost var parts0, sums0 := parts, sums;
      parts := parts[m := parts[m] + [i]];
      sums := sums[m := sums[m] + (lengths[i] + bias)];
      GreedyStep(lengths, k, bias, equalSize, heaviest, i, parts0, sums0, m, parts, sums);
      GivesToSmallest(lengths, bias, i, parts0, sums0, m);
      OneMoreGiven(lengths, k, bias, run, parts);
      run := run + [parts];
    }
  }

  /** All parts have n / k items; the assertion at the end of the equal-size mode. */
  predicate EqualSizes(parts: seq<seq<nat>>, k: nat, n: nat) {
    forall p | p in parts :: |p| * k == n
  }

  lemma ExactQuotient(n: nat, k: nat) returns (q: nat)
    requires k > 0 && n % k == 0
    ensures n == k * q
  {
    q := n / k;
  }

  lemma SizesAreEqual(parts: seq<seq<nat>>, k: nat, n: nat, q: nat)
    requires n == k * q && forall p | p in parts :: |p| == q
    ensures EqualSizes(parts, k, n)
  {
    assert q * k == n;
  }

  lemma EvenWhenDivisible(parts: seq<seq<nat>>, k: nat, n: nat, q: nat)
    requires k > 0 && |parts| == k && SizesClose(parts) && |Flatten(parts)| == n == k * q
    ensures EqualSizes(parts, k, n)
  {
    var low :| SizesWithinOne(parts, low);
    EvenSizes(parts, low, n, q);
    SizesAreEqual(parts, k, n, q);
  }

  lemma MultipleMod(q: nat, k: nat, n: nat)
    requires k > 0 && q * k == n
    ensures n % k == 0
  {
    var d := n / k;
    assert n == d * k + n % k;
    if q > d {
      TimesStep(d, q, k);
    } else if q < d {
      TimesStep(q, d, k);
    }
  }

  /** After an equal-size distribution the sizes are equal exactly when k divides the item count. */
  lemma EqualIffDivisible(parts: seq<seq<nat>>, k: nat, n: nat)
    requires k > 0 && |parts| == k && SizesClose(parts) && |Flatten(parts)| == n
    ensures EqualSizes(parts, k, n) <==> n % k == 0
  {
    if n % k == 0 {
      var q := ExactQuotient(n, k);
      EvenWhenDivisible(parts, k, n, q);
    }
    if EqualSizes(parts, k, n) {
      assert parts[0] in parts;
      MultipleMod(|parts[0]|, k, n);
    }
  }

  /** Distributes the items one by one, with the partitions of its run. In the original a part count below
      one is an index error unless there is nothing to distribute, and a length that k does not divide
      fails an assertion in equal-size mode. */
  method DistributeGreedily(lengths: seq<nat>, k: int, equalSize: bool)
    returns (r: Result<seq<seq<nat>>>, ghost run: seq<seq<seq<nat>>>)
    ensures r.Ok? <==> if k < 1 then lengths == [] else equalSize ==> |lengths| % k == 0
    ensures r.Ok? && k >= 1 ==>
              var bias := if equalSize then Sum(lengths) + 1 else 0;
              && |r.value| == k
              && multiset(Flatten(r.value)) == multiset(Range(|lengths|))
              && (forall p, q | p in r.value && q in r.value ::
                    BiasedLength(lengths, p, bias)
                    <= BiasedLength(lengths, q, bias) + (MaxLength(Items(lengths)) + bias))
              && (equalSize ==> EqualSizes(r.value, k, |lengths|))
              && GreedyRun(lengths, k, bias, run) && |run| == |lengths| + 1 && run[|lengths|] == r.value
    ensures r.Ok? && k < 1 ==> r.value == []
  {
    if k < 1 {
      run := [];
      return if lengths == [] then Ok([]) else Err, run;
    }
    var bias := if equalSize then Sum(lengths) + 1 else 0;
    ghost var heaviest := MaxLength(Items(lengths)) + bias;
    var parts, sums;
    parts, sums, run := Distribute(lengths, k, bias, equalSize, heaviest);
    if equalSize {
      assert |Flatten(parts)| == |multiset(Range(|lengths|))|;
      EqualIffDivisible(parts, k, |lengths|);
      if !EqualSizes(parts, k, |lengths|) {
        return Err, run;
      }
    }
    return Ok(parts), run;
  }
}
