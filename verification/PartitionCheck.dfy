/** The partition entry point: largest differencing, then the checker that sorts every part and
    asserts that no part is empty and that no index is missing. */
module PartitionCheck {
  import opened Outcomes
  import opened BalancedPartitions
  import opened DifferencingRuns
  import SeqlenBalancing

  predicate NonDecreasing(s: seq<nat>) {
    s == [] || ((forall x | x in s[1..] :: s[0] <= x) && NonDecreasing(s[1..]))
  }

  function InsertIndex(x: nat, s: seq<nat>): seq<nat> {
    if s == [] || x <= s[0] then [x] + s else [s[0]] + InsertIndex(x, s[1..])
  }

  function SortIndices(s: seq<nat>): seq<nat> {
    if s == [] then [] else InsertIndex(s[0], SortIndices(s[1..]))
  }

  function SortParts(parts: seq<seq<nat>>): seq<seq<nat>> {
    if parts == [] then [] else [SortIndices(parts[0])] + SortParts(parts[1..])
  }

  lemma {:induction false} InsertIndexKeeps(x: nat, s: seq<nat>, lengths: seq<nat>)
    ensures var r := InsertIndex(x, s);
            multiset(r) == multiset{x} + multiset(s) && |r| == |s| + 1
            && PartLength(lengths, r) == PartLength(lengths, [x]) + PartLength(lengths, s)
            && forall y :: y in r <==> y == x || y in s
  {
    var r := InsertIndex(x, s);
    if s == [] || x <= s[0] {
      assert r[1..] == s;
    } else {
      InsertIndexKeeps(x, s[1..], lengths);
      assert r[1..] == InsertIndex(x, s[1..]);
      assert s == [s[0]] + s[1..];
    }
  }

  lemma {:induction false} InsertIndexSorts(x: nat, s: seq<nat>)
    requires NonDecreasing(s)
    ensures NonDecreasing(InsertIndex(x, s))
  {
    var r := InsertIndex(x, s);
    if s == [] || x <= s[0] {
      assert r[1..] == s;
      assert s != [] ==> s == [s[0]] + s[1..];
    } else {
      InsertIndexSorts(x, s[1..]);
      InsertIndexKeeps(x, s[1..], []);
      assert r[1..] == InsertIndex(x, s[1..]);
    }
  }

  lemma {:induction false} SortIndicesKeeps(s: seq<nat>, lengths: seq<nat>)
    ensures var r := SortIndices(s);
            multiset(r) == multiset(s) && |r| == |s| && PartLength(lengths, r) == PartLength(lengths, s)
            && NonDecreasing(r)
  {
    if s == [] {
    } else {
      SortIndicesKeeps(s[1..], lengths);
      InsertIndexKeeps(s[0], SortIndices(s[1..]), lengths);
      InsertIndexSorts(s[0], SortIndices(s[1..]));
      assert s == [s[0]] + s[1..];
    }
  }

  lemma {:induction false} SortPartsKeeps(parts: seq<seq<nat>>)
    ensures var r := SortParts(parts);
            |r| == |parts| && multiset(Flatten(r)) == multiset(Flatten(parts))
            && NonEmptyParts(r) == NonEmptyParts(parts)
  {
    if parts == [] {
    } else {
      SortPartsKeeps(parts[1..]);
      SortIndicesKeeps(parts[0], []);
      assert SortParts(parts)[1..] == SortParts(parts[1..]);
    }
  }

  lemma {:induction false} SortedFrom(parts: seq<seq<nat>>, p: seq<nat>) returns (q: seq<nat>)
    requires p in SortParts(parts)
    ensures q in parts && p == SortIndices(q)
  {
    assert SortParts(parts) == [SortIndices(parts[0])] + SortParts(parts[1..]);
    if p == SortIndices(parts[0]) {
      q := parts[0];
    } else {
      q := SortedFrom(parts[1..], p);
    }
  }

  /** Sorting every part keeps the partition balanced. */
  lemma SortPartsBalanced(lengths: seq<nat>, k: nat, equalSize: bool, parts: seq<seq<nat>>)
    requires k > 0 && BalancedPartition(lengths, k, equalSize, parts)
    ensures BalancedPartition(lengths, k, equalSize, SortParts(parts))
    ensures forall p | p in SortParts(parts) :: NonDecreasing(p)
  {
    SortPartsKeeps(parts);
    forall p, q | p in SortParts(parts) && q in SortParts(parts)
      ensures NonDecreasing(p)
      ensures equalSize ==> |p| * k == |lengths|
      ensures k * PartLength(lengths, p) <= Sum(lengths) + (k - 1) * SpreadBound(lengths, k, equalSize)
      ensures PartLength(lengths, p) - PartLength(lengths, q) <= SpreadBound(lengths, k, equalSize)
    {
      var p0 := SortedFrom(parts, p);
      var q0 := SortedFrom(parts, q);
      SortIndicesKeeps(p0, lengths);
      SortIndicesKeeps(q0, lengths);
    }
  }

  lemma {:induction false} NoPartEmpty(parts: seq<seq<nat>>)
    ensures NonEmptyParts(parts) <= |parts|
    ensures NonEmptyParts(parts) == |parts| ==> forall p | p in parts :: p != []
  {
    if parts == [] {
    } else {
      NoPartEmpty(parts[1..]);
      assert parts == [parts[0]] + parts[1..];
    }
  }

  lemma {:induction false} FlattenAppend(parts: seq<seq<nat>>, p: seq<nat>)
    ensures Flatten(parts + [p]) == Flatten(parts) + p
  {
    if parts == [] {
      assert Flatten([p]) == p + Flatten([p][1..]);
    } else {
      assert (parts + [p])[1..] == parts[1..] + [p];
      FlattenAppend(parts[1..], p);
    }
  }

  lemma {:induction false} SortPartsAppend(parts: seq<seq<nat>>, p: seq<nat>)
    ensures SortParts(parts + [p]) == SortParts(parts) + [SortIndices(p)]
  {
    if parts == [] {
    } else {
      assert (parts + [p])[1..] == parts[1..] + [p];
      SortPartsAppend(parts[1..], p);
    }
  }

  lemma CoverSeen(parts: seq<seq<nat>>, n: nat)
    requires multiset(Flatten(parts)) == multiset(Range(n))
    ensures (set x | x in Flatten(parts)) == set x | x in Range(n)
  {
    forall x: nat ensures x in Flatten(parts) <==> x in Range(n) {
      assert x in multiset(Flatten(parts)) <==> x in multiset(Range(n));
    }
  }

  /** Sorts the parts and checks them: its assertions hold exactly for k non-empty parts whose indices
      are those below n. */
  method CheckAndSortPartitions(partitions: seq<seq<nat>>, n: nat, k: nat) returns (r: Result<seq<seq<nat>>>)
    ensures r.Ok? <==> |partitions| == k && (forall p | p in partitions :: p != [])
                       && (set x | x in Flatten(partitions)) == set x | x in Range(n)
    ensures r.Ok? ==> r.value == SortParts(partitions)
  {
    if |partitions| != k {
      return Err;
    }
    var seen: set<nat> := {};
    var sorted: seq<seq<nat>> := [];
    for i := 0 to |partitions|
      invariant seen == set x | x in Flatten(partitions[..i])
      invariant sorted == SortParts(partitions[..i])
      invariant forall j | 0 <= j < i :: partitions[j] != []
    {
      var part := partitions[i];
      assert part in partitions;
      if part == [] {
        return Err;
      }
      assert partitions[..i + 1] == partitions[..i] + [part];
      FlattenAppend(partitions[..i], part);
      SortPartsAppend(partitions[..i], part);
      seen := seen + set x | x in part;
      sorted := sorted + [SortIndices(part)];
    }
    assert partitions[..|partitions|] == partitions;
    if seen != set x | x in Range(n) {
      return Err;
    }
    return Ok(sorted);
  }

  /** The parts of the one partition are those of the other, each in increasing order. */
  ghost predicate SortedForm(parts: seq<seq<nat>>, unsorted: seq<seq<nat>>) {
    && |parts| == |unsorted|
    && forall i | 0 <= i < |parts| :: multiset(parts[i]) == multiset(unsorted[i]) && NonDecreasing(parts[i])
  }

  lemma {:induction false} SortPartsForm(parts: seq<seq<nat>>)
    ensures SortedForm(SortParts(parts), parts)
  {
    if parts == [] {
    } else {
      SortPartsForm(parts[1..]);
      SortIndicesKeeps(parts[0], []);
    }
  }

  /** The partition the trainer asks for: it exists exactly when the arguments allow one, and then it
      is balanced, has no empty part, and is the result of a run of largest differencing with the indices
      of each part in increasing order. */
  method GetSeqlenBalancedPartitions(lengths: seq<nat>, k: int, equalSize: bool)
    returns (r: Result<seq<seq<nat>>>, ghost run: seq<Heap>, ghost unsorted: seq<seq<nat>>)
    ensures r.Ok? <==> 1 <= k <= |lengths| && (equalSize ==> |lengths| % k == 0)
    ensures r.Ok? ==>
              && BalancedPartition(lengths, k, equalSize, r.value)
              && forall p | p in r.value :: p != [] && NonDecreasing(p)
    ensures r.Ok? ==> DifferencingRun(lengths, k, equalSize, run, unsorted) && SortedForm(r.value, unsorted)
  {
    run, unsorted := [], [];
    if |lengths| < k {
      return Err, run, unsorted;
    }
    var partitions;
    partitions, run := SeqlenBalancing.DifferencingPartition(lengths, k, equalSize);
    if partitions.Err? {
      return Err, run, unsorted;
    }
    unsorted := partitions.value;
    SortPartsBalanced(lengths, k, equalSize, unsorted);
    SortPartsForm(unsorted);
    NoPartEmpty(unsorted);
    CoverSeen(unsorted, |lengths|);
    r := CheckAndSortPartitions(partitions.value, |lengths|, k);
    NoPartEmpty(SortParts(unsorted));
  }
}
