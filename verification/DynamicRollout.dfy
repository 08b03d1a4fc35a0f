/** Dynamic sampling: rollouts are repeated and groups of equal rewards dropped until enough
    trajectories are kept or the tries run out. */
module DynamicRollout {
  import opened Outcomes
  import opened Sequences
  import opened Rollout

  /** The rewards of a group differ somewhere. */
  predicate Varied(rewards: seq<real>) {
    exists k :: 0 <= k < |rewards| && rewards[k] != rewards[0]
  }

  /** n consecutive indices. */
  function Span(from: nat, n: nat): seq<nat> {
    seq(n, k requires 0 <= k => from + k)
  }

  /** The first index of group i. */
  function First(i: nat, n: nat): nat {
    i * n
  }

  lemma NextFirst(i: nat, n: nat)
    ensures First(i + 1, n) == First(i, n) + n
  {
  }

  /** Two of the n rewards from an index on are different. */
  predicate Differ(rewards: seq<real>, from: nat, n: nat) {
    exists a, b :: from <= a < from + n <= |rewards| && from <= b < from + n && rewards[a] != rewards[b]
  }

  lemma VariedExactly(rewards: seq<real>, from: nat, n: nat)
    requires from + n <= |rewards|
    ensures Varied(rewards[from..from + n]) <==> Differ(rewards, from, n)
  {
    var group := rewards[from..from + n];
    if Varied(group) {
      var k :| 0 <= k < |group| && group[k] != group[0];
      assert rewards[from + k] != rewards[from];
    }
    if a, b :| from <= a < from + n <= |rewards| && from <= b < from + n && rewards[a] != rewards[b] {
      assert group[a - from] == rewards[a] && group[b - from] == rewards[b];
    }
  }

  /** Group q has all its rewards, and two of them are different. */
  predicate GroupVaries(rewards: seq<real>, n: nat, q: nat) {
    First(q, n) + n <= |rewards| && Differ(rewards, First(q, n), n)
  }

  /** The indices of a group, if its rewards vary. */
  function GroupKept(rewards: seq<real>, from: nat, n: nat): seq<nat> {
    if from + n <= |rewards| && Varied(rewards[from..from + n]) then Span(from, n) else []
  }

  /** The indices kept out of the first `groups` groups of n. */
  function Kept(rewards: seq<real>, n: nat, groups: nat): seq<nat> {
    if groups == 0 then [] else Kept(rewards, n, groups - 1) + GroupKept(rewards, First(groups - 1, n), n)
  }

  ghost predicate Within(indices: seq<nat>, size: nat) {
    forall k | 0 <= k < |indices| :: indices[k] < size
  }

  /** The trajectories at the indices; a success entry of another length than the batch is dropped. */
  function SelectAll(d: Trajectories, indices: seq<nat>): Trajectories
    requires Within(indices, |d.batchList|)
    requires |d.rewards| == |d.envRewards| == |d.lengths| == |d.trajUid| == |d.toolCallings| == |d.batchList|
  {
    Trajectories(Select(d.batchList, indices), Select(d.rewards, indices), Select(d.envRewards, indices),
                 Select(d.lengths, indices),
                 map key | key in d.success && |d.success[key]| == |d.batchList| :: Select(d.success[key], indices),
                 Select(d.trajUid, indices), Select(d.toolCallings, indices))
  }

  ghost predicate EqualLengths(d: Trajectories) {
    |d.rewards| == |d.envRewards| == |d.lengths| == |d.trajUid| == |d.toolCallings| == |d.batchList|
  }

  lemma {:induction false} KeptWithin(rewards: seq<real>, n: nat, groups: nat)
    ensures Within(Kept(rewards, n, groups), |rewards|)
  {
    if groups == 0 {
    } else {
      KeptWithin(rewards, n, groups - 1);
    }
  }

  /** The group starting at an index has rewards, rows and one uid throughout. */
  predicate GroupReadable(d: Trajectories, n: nat, from: nat) {
    && n > 0 && from + n <= |d.rewards| && from + n <= |d.batchList|
    && forall k | from <= k < from + n ::
         d.batchList[k] != [] && d.batchList[from] != [] && d.batchList[k][0].uid == d.batchList[from][0].uid
  }

  method GroupIsReadable(d: Trajectories, n: nat, from: nat) returns (ok: bool)
    ensures ok == GroupReadable(d, n, from)
  {
    if n == 0 || from + n > |d.rewards| || from + n > |d.batchList| {
      return false;
    }
    for k := from to from + n
      invariant forall j | from <= j < k ::
        d.batchList[j] != [] && d.batchList[from] != [] && d.batchList[j][0].uid == d.batchList[from][0].uid
    {
      if d.batchList[k] == [] || d.batchList[from] == [] || d.batchList[k][0].uid != d.batchList[from][0].uid {
        return false;
      }
    }
    return true;
  }

  /** The first `groups` groups can be read. */
  predicate AllReadable(d: Trajectories, n: nat, groups: nat) {
    groups == 0 || (AllReadable(d, n, groups - 1) && GroupReadable(d, n, First(groups - 1, n)))
  }

  lemma {:induction false} UnreadableStays(d: Trajectories, n: nat, i: nat, groups: nat)
    requires i <= groups && !AllReadable(d, n, i)
    ensures !AllReadable(d, n, groups)
    decreases groups
  {
    if i < groups {
      UnreadableStays(d, n, i, groups - 1);
    }
  }

  /** The loop over the groups: an error exactly when one cannot be read or mixes uids. */
  method KeepIndices(d: Trajectories, batchSize: nat, n: nat) returns (r: Result<seq<nat>>)
    ensures r.Ok? <==> AllReadable(d, n, batchSize)
    ensures r.Ok? ==> r.value == Kept(d.rewards, n, batchSize)
  {
    var keepIndices: seq<nat> := [];
    for i := 0 to batchSize
      invariant keepIndices == Kept(d.rewards, n, i)
      invariant AllReadable(d, n, i)
    {
      var from := First(i, n);
      var ok := GroupIsReadable(d, n, from);
      if !ok {
        UnreadableStays(d, n, i + 1, batchSize);
        return Err;
      }
      if Varied(d.rewards[from..from + n]) {
        keepIndices := keepIndices + Span(from, n);
      }
    }
    return Ok(keepIndices);
  }

  /** What the filter hands on: everything on the last try; otherwise the trajectories of the groups of
      varied rewards, or an error when a group cannot be read or mixes uids. */
  function Filtered(d: Trajectories, batchSize: nat, n: nat, lastTry: bool): Result<Trajectories>
    requires |d.rewards| == |d.envRewards| == |d.lengths| == |d.trajUid| == |d.toolCallings| == |d.batchList|
  {
    if lastTry then Ok(d)
    else if !AllReadable(d, n, batchSize) then Err
    else
      KeptWithin(d.rewards, n, batchSize);
      Ok(SelectAll(d, Kept(d.rewards, n, batchSize)))
  }

  /** The group filter. */
  method FilterGroupData(d: Trajectories, batchSize: nat, n: nat, lastTry: bool) returns (r: Result<Trajectories>)
    requires EqualLengths(d)
    ensures r == Filtered(d, batchSize, n, lastTry)
  {
    if lastTry {
      return Ok(d);
    }
    var keepIndices :- KeepIndices(d, batchSize, n);
    KeptWithin(d.rewards, n, batchSize);
    return Ok(SelectAll(d, keepIndices));
  }

  ghost predicate FirstRowsCarry(d: Trajectories, from: nat, n: nat, uid: nat)
    requires from + n <= |d.batchList|
  {
    forall k | from <= k < from + n :: d.batchList[k] != [] && d.batchList[k][0].uid == uid
  }

  /** Group q is not empty, is within the batch, and the first rows of its trajectories carry one uid. */
  ghost predicate OneUid(d: Trajectories, n: nat, q: nat) {
    && n > 0 && First(q, n) + n <= |d.batchList| && First(q, n) + n <= |d.rewards|
    && exists uid: nat :: FirstRowsCarry(d, First(q, n), n, uid)
  }

  lemma ReadableIsOneUid(d: Trajectories, n: nat, q: nat)
    ensures GroupReadable(d, n, First(q, n)) <==> OneUid(d, n, q)
  {
    var from := First(q, n);
    if GroupReadable(d, n, from) {
      assert d.batchList[from] != [];
      assert FirstRowsCarry(d, from, n, d.batchList[from][0].uid);
    }
  }

  lemma {:induction false} AllReadableExactly(d: Trajectories, n: nat, groups: nat)
    ensures AllReadable(d, n, groups) <==> forall q: nat | q < groups :: OneUid(d, n, q)
  {
    if groups == 0 {
    } else {
      AllReadableExactly(d, n, groups - 1);
      ReadableIsOneUid(d, n, groups - 1);
    }
  }

  /** Before the last try the filter fails exactly when some group is empty, incomplete or of two uids. */
  lemma FilterFailsExactly(d: Trajectories, batchSize: nat, n: nat)
    requires EqualLengths(d)
    ensures Filtered(d, batchSize, n, false).Err? <==> exists q: nat :: q < batchSize && !OneUid(d, n, q)
    ensures Filtered(d, batchSize, n, true) == Ok(d)
  {
    AllReadableExactly(d, n, batchSize);
  }

  // ----- what the filter keeps

  /** Consecutive groups of n, each with varied rewards. */
  ghost predicate VariedGroups(rewards: seq<real>, n: nat)
    requires n > 0
    decreases |rewards|
  {
    rewards == [] || (|rewards| >= n && Varied(rewards[|rewards| - n..]) && VariedGroups(rewards[..|rewards| - n], n))
  }

  lemma AppendGroup(rewards: seq<real>, group: seq<real>, n: nat)
    requires n > 0 && VariedGroups(rewards, n) && |group| == n && Varied(group)
    ensures VariedGroups(rewards + group, n)
  {
    var all := rewards + group;
    assert all[|all| - n..] == group && all[..|all| - n] == rewards;
  }

  lemma SelectGroup(rewards: seq<real>, before: seq<nat>, from: nat, n: nat)
    requires Within(before, |rewards|) && from + n <= |rewards|
    ensures Within(before + Span(from, n), |rewards|)
    ensures Select(rewards, before + Span(from, n)) == Select(rewards, before) + rewards[from..from + n]
  {
  }

  lemma KeepGroup(rewards: seq<real>, before: seq<nat>, from: nat, n: nat)
    requires n > 0 && Within(before, |rewards|) && VariedGroups(Select(rewards, before), n)
    ensures Within(before + GroupKept(rewards, from, n), |rewards|)
    ensures VariedGroups(Select(rewards, before + GroupKept(rewards, from, n)), n)
  {
    if from + n <= |rewards| && Varied(rewards[from..from + n]) {
      AppendGroup(Select(rewards, before), rewards[from..from + n], n);
      SelectGroup(rewards, before, from, n);
    } else {
      assert before + [] == before;
    }
  }

  /** The kept rewards are whole groups, each of varied rewards. */
  lemma {:induction false} KeptAreVaried(rewards: seq<real>, n: nat, groups: nat)
    requires n > 0
    ensures Within(Kept(rewards, n, groups), |rewards|)
    ensures VariedGroups(Select(rewards, Kept(rewards, n, groups)), n)
  {
    if groups == 0 {
    } else {
      KeptAreVaried(rewards, n, groups - 1);
      KeepGroup(rewards, Kept(rewards, n, groups - 1), First(groups - 1, n), n);
    }
  }

  lemma Disjoint(rewards: seq<real>, from: nat, n: nat, x: nat)
    requires x < from || from + n <= x
    ensures x !in GroupKept(rewards, from, n)
  {
  }

  lemma {:induction false} EarlierKept(rewards: seq<real>, n: nat, groups: nat, x: nat)
    requires First(groups, n) <= x
    ensures x !in Kept(rewards, n, groups)
  {
    if groups == 0 {
    } else {
      NextFirst(groups - 1, n);
      EarlierKept(rewards, n, groups - 1, x);
      Disjoint(rewards, First(groups - 1, n), n, x);
    }
  }

  lemma {:induction false} FirstIncreases(i: nat, j: nat, n: nat)
    requires i < j
    ensures First(i, n) + n <= First(j, n)
    decreases j
  {
    NextFirst(j - 1, n);
    if i < j - 1 {
      FirstIncreases(i, j - 1, n);
    }
  }

  lemma InSpan(rewards: seq<real>, from: nat, n: nat, k: nat)
    requires k < n && from + n <= |rewards|
    ensures from + k in GroupKept(rewards, from, n) <==> Varied(rewards[from..from + n])
  {
    if Varied(rewards[from..from + n]) {
      assert Span(from, n)[k] == from + k;
    }
  }

  /** Exactly the groups of varied rewards are kept, and each of them whole. */
  lemma {:induction false} KeptExactly(rewards: seq<real>, n: nat, groups: nat, i: nat, k: nat, from: nat, x: nat)
    requires i < groups && k < n && from == First(i, n) && from + n <= |rewards| && x == from + k
    ensures x in Kept(rewards, n, groups) <==> Differ(rewards, from, n)
  {
    var last := groups - 1;
    if i < last {
      KeptExactly(rewards, n, last, i, k, from, x);
      FirstIncreases(i, last, n);
      Disjoint(rewards, First(last, n), n, x);
    } else {
      EarlierKept(rewards, n, last, x);
      InSpan(rewards, from, n, k);
      VariedExactly(rewards, from, n);
    }
  }

  /** The numbers of the groups that are kept. */
  function KeptGroups(rewards: seq<real>, n: nat, groups: nat): seq<nat> {
    if groups == 0 then []
    else
      KeptGroups(rewards, n, groups - 1)
      + if GroupVaries(rewards, n, groups - 1) then [groups - 1] else []
  }

  /** Exactly the groups whose rewards differ are kept. */
  lemma {:induction false} KeptGroupsExactly(rewards: seq<real>, n: nat, groups: nat, q: nat)
    ensures q in KeptGroups(rewards, n, groups) <==> q < groups && GroupVaries(rewards, n, q)
  {
    if groups == 0 {
    } else {
      KeptGroupsExactly(rewards, n, groups - 1, q);
    }
  }

  /** The groups are kept in order, each once. */
  lemma {:induction false} KeptGroupsIncrease(rewards: seq<real>, n: nat, groups: nat, j: nat, k: nat)
    requires j < k < |KeptGroups(rewards, n, groups)|
    ensures KeptGroups(rewards, n, groups)[j] < KeptGroups(rewards, n, groups)[k]
  {
    var before := KeptGroups(rewards, n, groups - 1);
    if k < |before| {
      KeptGroupsIncrease(rewards, n, groups - 1, j, k);
    } else {
      assert before[j] in before;
      KeptGroupsExactly(rewards, n, groups - 1, before[j]);
    }
  }

  lemma SpanOrNothing(rewards: seq<real>, n: nat, q: nat)
    ensures GroupKept(rewards, First(q, n), n) == if GroupVaries(rewards, n, q) then Span(First(q, n), n) else []
  {
    if First(q, n) + n <= |rewards| {
      VariedExactly(rewards, First(q, n), n);
    }
  }

  lemma {:induction false} KeptInBlocks(rewards: seq<real>, n: nat, groups: nat)
    ensures |Kept(rewards, n, groups)| == First(|KeptGroups(rewards, n, groups)|, n)
  {
    if groups == 0 {
    } else {
      KeptInBlocks(rewards, n, groups - 1);
      SpanOrNothing(rewards, n, groups - 1);
      NextFirst(|KeptGroups(rewards, n, groups - 1)|, n);
    }
  }

  lemma AppendedAt(kept: seq<nat>, from: nat, n: nat, k: nat)
    requires k < n
    ensures (kept + Span(from, n))[|kept| + k] == from + k
  {
  }

  /** One more group, kept or not, leaves the blocks where they are. */
  lemma BlocksGrow(groups: seq<nat>, kept: seq<nat>, last: nat, varies: bool, n: nat, g: nat, k: nat, at: nat)
    requires k < n && at == First(g, n) + k && |kept| == First(|groups|, n)
    requires g < |groups| ==> at < |kept| && kept[at] == First(groups[g], n) + k
    ensures var after := kept + if varies then Span(First(last, n), n) else [];
            var numbers := groups + if varies then [last] else [];
            g < |numbers| ==> at < |after| && after[at] == First(numbers[g], n) + k
  {
    if varies && g == |groups| {
      AppendedAt(kept, First(last, n), n, k);
    }
  }

  /** Block g of the kept indices is the whole of the g-th kept group. */
  lemma {:induction false} KeptBlock(rewards: seq<real>, n: nat, groups: nat, g: nat, k: nat, at: nat)
    requires g < |KeptGroups(rewards, n, groups)| && k < n && at == First(g, n) + k
    ensures at < |Kept(rewards, n, groups)|
    ensures Kept(rewards, n, groups)[at] == First(KeptGroups(rewards, n, groups)[g], n) + k
  {
    var last := groups - 1;
    var before := KeptGroups(rewards, n, last);
    if g < |before| {
      KeptBlock(rewards, n, last, g, k, at);
    }
    KeptInBlocks(rewards, n, last);
    SpanOrNothing(rewards, n, last);
    BlocksGrow(before, Kept(rewards, n, last), last, GroupVaries(rewards, n, last), n, g, k, at);
  }

  /** With groups of one trajectory nothing is ever kept before the last try. */
  lemma {:induction false} SingletonsAreDropped(rewards: seq<real>, groups: nat)
    ensures Kept(rewards, 1, groups) == []
  {
    if groups == 0 {
    } else {
      SingletonsAreDropped(rewards, groups - 1);
    }
  }
}
