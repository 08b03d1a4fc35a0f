/** The dynamic sampling loop: it ends within its tries, with arrays of one length made of whole groups. */
module DynamicLoop {
  import opened Outcomes
  import opened Sequences
  import opened Rollout
  import opened RolloutLaws
  import opened DynamicRollout

  // ----- rollouts that the filter can read

  /** Every environment says at every step whether it is won, and all or none report tool calls. */
  ghost predicate Reports(env: Environment, size: nat)
    requires Answers(env, size)
  {
    forall t: nat :: env(t).infos != [] ==>
      !ToolCallsMissing(env(t)) && forall i | 0 <= i < size :: env(t).infos[i].won.Some?
  }

  lemma SameGroup(i: nat, n: nat, x: nat)
    requires First(i, n) <= x < First(i, n) + n
    ensures GroupUid(x, n) == i
  {
    QuotientIs(x, n, i, x - First(i, n));
  }

  /** Both environments are in group g of n. */
  predicate InGroup(g: nat, n: nat, i: nat, j: nat) {
    First(g, n) <= i < First(g, n) + n && First(g, n) <= j < First(g, n) + n
  }

  lemma OwnGroup(i: nat, n: nat)
    requires n > 0
    ensures First(GroupUid(i, n), n) <= i < First(GroupUid(i, n), n) + n
  {
    assert i == n * (i / n) + i % n;
  }

  /** Two environments share a uid exactly when they are in one group, or when there is no grouping. */
  lemma UidsShared(i: nat, j: nat, n: int)
    ensures GroupUid(i, n) == GroupUid(j, n) <==> n <= 0 || exists g: nat :: InGroup(g, n, i, j)
  {
    if n > 0 {
      OwnGroup(i, n);
      OwnGroup(j, n);
      if g: nat :| InGroup(g, n, i, j) {
        SameGroup(g, n, i);
        SameGroup(g, n, j);
      }
      if GroupUid(i, n) == GroupUid(j, n) {
        assert InGroup(GroupUid(i, n), n, i, j);
      }
    }
  }

  /** A first row is recorded, with the uid of the group. */
  lemma FirstRow(d: Trajectories, es: seq<Episode>, env: Environment, n: nat, t: nat, x: nat)
    requires OfRollout(d, es, env, n, t) && t > 0 && x < |es|
    ensures |d.batchList| == |es| && d.batchList[x] != [] && d.batchList[x][0].uid == GroupUid(x, n)
  {
    assert es[x] == EpisodeAfter(env, |es|, n, x, t);
    EveryStepRecorded(env, |es|, n, x, t, 0);
  }

  lemma OneGroupReadable(d: Trajectories, es: seq<Episode>, env: Environment, n: nat, t: nat, i: nat, from: nat)
    requires OfRollout(d, es, env, n, t) && n > 0 && t > 0 && from == First(i, n) && from + n <= |es|
    ensures GroupReadable(d, n, from)
  {
    forall x: nat | from <= x < from + n ensures d.batchList[x] != [] && d.batchList[x][0].uid == i {
      FirstRow(d, es, env, n, t, x);
      SameGroup(i, n, x);
    }
  }

  /** A rollout of whole groups can be read group by group. */
  lemma {:induction false} GroupsReadable(d: Trajectories, es: seq<Episode>, env: Environment, n: nat, t: nat,
                                          groups: nat)
    requires OfRollout(d, es, env, n, t) && n > 0 && t > 0 && First(groups, n) <= |es|
    ensures AllReadable(d, n, groups)
  {
    if groups == 0 {
    } else {
      NextFirst(groups - 1, n);
      GroupsReadable(d, es, env, n, t, groups - 1);
      OneGroupReadable(d, es, env, n, t, groups - 1, First(groups - 1, n));
    }
  }

  lemma ReportedWin(es: seq<Episode>, env: Environment, n: nat, t: nat, i: nat)
    requires Answers(env, |es|) && EpisodesAfter(es, env, n, t) && Reports(env, |es|) && t > 0 && i < |es|
    ensures SaysWon(es, env, i)
  {
    assert es[i] == EpisodeAfter(env, |es|, n, i, t);
    EndsAtDone(env, |es|, n, i, t);
  }

  /** A run of at least one step over reporting environments does not fail. */
  lemma ReportedRolloutSucceeds(env: Environment, size: nat, n: nat, maxSteps: int)
    requires Answers(env, size) && Reports(env, size) && maxSteps > 0 && size > 0
    ensures Rolled(env, size, n, maxSteps).Ok? && StepCount(env, size, n, maxSteps) > 0
  {
    var es, t := Episodes(env, size, n, maxSteps), StepCount(env, size, n, maxSteps);
    StepsEnd(env, size, n, maxSteps, 0);
    forall i: nat | i < size ensures SaysWon(es, env, i) {
      ReportedWin(es, env, n, t, i);
    }
    RolloutSucceedsExactly(env, size, n, maxSteps);
  }

  // ----- the loop

  function Batches(parts: seq<Trajectories>): seq<seq<seq<Row>>> {
    seq(|parts|, i requires 0 <= i < |parts| => parts[i].batchList)
  }

  function RewardParts(parts: seq<Trajectories>): seq<seq<real>> {
    seq(|parts|, i requires 0 <= i < |parts| => parts[i].rewards)
  }

  function EnvRewardParts(parts: seq<Trajectories>): seq<seq<real>> {
    seq(|parts|, i requires 0 <= i < |parts| => parts[i].envRewards)
  }

  function LengthParts(parts: seq<Trajectories>): seq<seq<nat>> {
    seq(|parts|, i requires 0 <= i < |parts| => parts[i].lengths)
  }

  function UidParts(parts: seq<Trajectories>): seq<seq<nat>> {
    seq(|parts|, i requires 0 <= i < |parts| => parts[i].trajUid)
  }

  function ToolParts(parts: seq<Trajectories>): seq<seq<real>> {
    seq(|parts|, i requires 0 <= i < |parts| => parts[i].toolCallings)
  }

  function SuccessParts(parts: seq<Trajectories>, key: string): seq<seq<real>> {
    seq(|parts|, i requires 0 <= i < |parts| => if key in parts[i].success then parts[i].success[key] else [])
  }

  /** All the arrays of a try have one length, the success array included. */
  ghost predicate Aligned(d: Trajectories) {
    EqualLengths(d) && d.success.Keys == {"success_rate"} && |d.success["success_rate"]| == |d.batchList|
  }

  /** The arrays of all the tries, put together. It fails when there is no try, or when a later one
      lacks a success entry of the first. */
  function Concatenated(batchList: seq<seq<Row>>, parts: seq<Trajectories>): Result<Trajectories> {
    if parts == [] || exists i, key :: 0 <= i < |parts| && key in parts[0].success && key !in parts[i].success then Err
    else
      Ok(Trajectories(batchList, Concat(RewardParts(parts)), Concat(EnvRewardParts(parts)), Concat(LengthParts(parts)),
                      map key | key in parts[0].success :: Concat(SuccessParts(parts, key)),
                      Concat(UidParts(parts)), Concat(ToolParts(parts))))
  }

  ghost predicate AllAligned(parts: seq<Trajectories>) {
    forall i | 0 <= i < |parts| :: Aligned(parts[i])
  }

  lemma {:induction false} SameTotals<A, B>(a: seq<seq<A>>, b: seq<seq<B>>)
    requires |a| == |b| && forall i | 0 <= i < |a| :: |a[i]| == |b[i]|
    ensures |Concat(a)| == |Concat(b)|
  {
    if a == [] {
    } else {
      SameTotals(a[1..], b[1..]);
    }
  }

  /** Aligned tries give aligned results. */
  lemma ConcatenatedAligned(parts: seq<Trajectories>)
    requires AllAligned(parts) && parts != []
    ensures var r := Concatenated(Concat(Batches(parts)), parts);
            r.Ok? && Aligned(r.value) && r.value.rewards == Concat(RewardParts(parts))
  {
    assert Aligned(parts[0]);
    forall i | 0 <= i < |parts| ensures Aligned(parts[i]) {
    }
    SameTotals(RewardParts(parts), Batches(parts));
    SameTotals(EnvRewardParts(parts), Batches(parts));
    SameTotals(LengthParts(parts), Batches(parts));
    SameTotals(UidParts(parts), Batches(parts));
    SameTotals(ToolParts(parts), Batches(parts));
    SameTotals(SuccessParts(parts, "success_rate"), Batches(parts));
  }

  lemma SelectedAligned(d: Trajectories, indices: seq<nat>)
    requires Aligned(d) && Within(indices, |d.batchList|)
    ensures Aligned(SelectAll(d, indices))
  {
    assert "success_rate" in d.success;
  }

  /** Everything that is known of one trajectory. */
  datatype Figures = Figures(rows: seq<Row>, reward: real, envReward: real, length: nat, success: real, trajUid: nat,
                             toolCallings: real)

  ghost function FiguresOf(d: Trajectories, k: nat): Figures
    requires Aligned(d) && k < |d.batchList|
  {
    Figures(d.batchList[k], d.rewards[k], d.envRewards[k], d.lengths[k], d.success["success_rate"][k], d.trajUid[k],
            d.toolCallings[k])
  }

  /** Filtering keeps the figures of a trajectory together. */
  lemma FilterKeepsFigures(d: Trajectories, indices: seq<nat>, k: nat)
    requires Aligned(d) && Within(indices, |d.batchList|) && k < |indices|
    ensures Aligned(SelectAll(d, indices)) && FiguresOf(SelectAll(d, indices), k) == FiguresOf(d, indices[k])
  {
    SelectedAligned(d, indices);
  }

  lemma {:induction false} FoundInConcat<A>(parts: seq<seq<A>>, i: nat, k: nat, at: nat)
    requires i < |parts| && k < |parts[i]| && at == |Concat(parts[..i])| + k
    ensures at < |Concat(parts)| && Concat(parts)[at] == parts[i][k]
    decreases i
  {
    if i == 0 {
      assert parts[..0] == [];
    } else {
      assert parts[..i][1..] == parts[1..][..i - 1];
      FoundInConcat(parts[1..], i - 1, k, at - |parts[0]|);
    }
  }

  /** An array of the tries has entry k of try i where the batch lists have it. */
  lemma FoundAlike<A, B>(a: seq<seq<A>>, b: seq<seq<B>>, i: nat, k: nat, at: nat)
    requires |a| == |b| && forall j | 0 <= j < |a| :: |a[j]| == |b[j]|
    requires i < |b| && k < |b[i]| && at == |Concat(b[..i])| + k
    ensures at < |Concat(a)| && Concat(a)[at] == a[i][k]
  {
    SameTotals(a[..i], b[..i]);
    FoundInConcat(a, i, k, at);
  }

  lemma FoundCounts(parts: seq<Trajectories>, i: nat, k: nat, at: nat)
    requires AllAligned(parts) && i < |parts| && k < |parts[i].batchList| && at == |Concat(Batches(parts)[..i])| + k
    ensures Aligned(parts[i])
    ensures at < |Concat(RewardParts(parts))| && Concat(RewardParts(parts))[at] == parts[i].rewards[k]
    ensures at < |Concat(EnvRewardParts(parts))| && Concat(EnvRewardParts(parts))[at] == parts[i].envRewards[k]
    ensures at < |Concat(LengthParts(parts))| && Concat(LengthParts(parts))[at] == parts[i].lengths[k]
  {
    FoundAlike(RewardParts(parts), Batches(parts), i, k, at);
    FoundAlike(EnvRewardParts(parts), Batches(parts), i, k, at);
    FoundAlike(LengthParts(parts), Batches(parts), i, k, at);
  }

  lemma FoundOthers(parts: seq<Trajectories>, i: nat, k: nat, at: nat)
    requires AllAligned(parts) && i < |parts| && k < |parts[i].batchList| && at == |Concat(Batches(parts)[..i])| + k
    ensures Aligned(parts[i])
    ensures at < |Concat(UidParts(parts))| && Concat(UidParts(parts))[at] == parts[i].trajUid[k]
    ensures at < |Concat(ToolParts(parts))| && Concat(ToolParts(parts))[at] == parts[i].toolCallings[k]
    ensures at < |Concat(SuccessParts(parts, "success_rate"))|
            && Concat(SuccessParts(parts, "success_rate"))[at] == parts[i].success["success_rate"][k]
  {
    FoundAlike(UidParts(parts), Batches(parts), i, k, at);
    FoundAlike(ToolParts(parts), Batches(parts), i, k, at);
    FoundAlike(SuccessParts(parts, "success_rate"), Batches(parts), i, k, at);
  }

  /** Putting the tries together keeps the figures of a trajectory together. */
  lemma ConcatenationKeepsFigures(parts: seq<Trajectories>, i: nat, k: nat, at: nat)
    requires AllAligned(parts) && i < |parts| && k < |parts[i].batchList|
    requires at == |Concat(Batches(parts)[..i])| + k
    ensures Aligned(parts[i])
    ensures var r := Concatenated(Concat(Batches(parts)), parts);
            r.Ok? && Aligned(r.value) && at < |r.value.batchList| && FiguresOf(r.value, at) == FiguresOf(parts[i], k)
  {
    ConcatenatedAligned(parts);
    FoundCounts(parts, i, k, at);
    FoundOthers(parts, i, k, at);
    FoundInConcat(Batches(parts), i, k, at);
    assert "success_rate" in parts[0].success by {
      assert Aligned(parts[0]);
    }
  }

  /** The rewards of the tries before the last possible one are varied groups; those of the last one
      are a whole rollout. */
  ghost predicate GroupedRewards(parts: seq<Trajectories>, n: nat, size: nat, maxTry: int)
    requires n > 0
  {
    forall i | 0 <= i < |parts| ::
      if i + 1 == maxTry then |parts[i].rewards| == size else VariedGroups(parts[i].rewards, n)
  }

  lemma LastGroup(b: seq<real>, n: nat) returns (init: seq<real>, group: seq<real>)
    requires n > 0 && b != [] && VariedGroups(b, n)
    ensures b == init + group && |group| == n && Varied(group) && VariedGroups(init, n)
  {
    init, group := b[..|b| - n], b[|b| - n..];
  }

  lemma Regroup(a: seq<real>, init: seq<real>, group: seq<real>, b: seq<real>)
    requires b == init + group
    ensures a + init + group == a + b && a + [] == a
  {
  }

  lemma {:induction false} JoinVaried(a: seq<real>, b: seq<real>, n: nat)
    requires n > 0 && VariedGroups(a, n) && VariedGroups(b, n)
    ensures VariedGroups(a + b, n)
    decreases |b|
  {
    if b == [] {
      Regroup(a, [], [], []);
    } else {
      var init, group := LastGroup(b, n);
      JoinVaried(a, init, n);
      AppendGroup(a + init, group, n);
      Regroup(a, init, group, b);
    }
  }

  lemma {:induction false} AllVaried(parts: seq<Trajectories>, n: nat)
    requires n > 0 && forall i | 0 <= i < |parts| :: VariedGroups(parts[i].rewards, n)
    ensures VariedGroups(Concat(RewardParts(parts)), n)
  {
    if parts == [] {
    } else {
      AllVaried(parts[1..], n);
      assert RewardParts(parts)[1..] == RewardParts(parts[1..]);
      JoinVaried(parts[0].rewards, Concat(RewardParts(parts[1..])), n);
    }
  }

  /** What the result of the loop is made of: varied groups, followed by a whole rollout when the last
      try was used. */
  lemma GroupsOfResult(parts: seq<Trajectories>, n: nat, size: nat, maxTry: int) returns (kept: nat)
    requires n > 0 && GroupedRewards(parts, n, size, maxTry) && |parts| <= maxTry
    ensures var all := Concat(RewardParts(parts));
            && kept <= |all| && VariedGroups(all[..kept], n)
            && (|parts| < maxTry ==> kept == |all|) && (|parts| == maxTry && maxTry > 0 ==> |all| == kept + size)
  {
    var all := Concat(RewardParts(parts));
    if |parts| < maxTry || parts == [] {
      AllVaried(parts, n);
      kept := |all|;
      assert all[..kept] == all;
    } else {
      var last := |parts| - 1;
      AllVaried(parts[..last], n);
      assert RewardParts(parts) == RewardParts(parts[..last]) + [parts[last].rewards];
      ConcatAppend(RewardParts(parts[..last]), [parts[last].rewards]);
      ConcatCons(parts[last].rewards, []);
      assert [parts[last].rewards] + [] == [parts[last].rewards];
      kept := |Concat(RewardParts(parts[..last]))|;
      assert all[..kept] == Concat(RewardParts(parts[..last]));
    }
  }

  /** The target and the tries. */
  datatype Sampling = Sampling(size: nat, trainBatchSize: nat, n: nat, maxSteps: int, maxTry: int)

  /** A filtered try: aligned arrays, of varied groups unless it is the last one. */
  ghost predicate FilteredTry(p: Trajectories, c: Sampling, lastTry: bool) {
    Aligned(p) && if lastTry then |p.rewards| == c.size else c.n > 0 ==> VariedGroups(p.rewards, c.n)
  }

  /** The settings of the trainer: whole groups, and at least one step. */
  ghost predicate WellSet(c: Sampling) {
    c.n > 0 && c.size == First(c.trainBatchSize, c.n) && c.maxSteps > 0 && c.size > 0
  }

  lemma FilteredIsAligned(d: Trajectories, c: Sampling)
    requires Aligned(d) && Within(Kept(d.rewards, c.n, c.trainBatchSize), |d.batchList|)
    ensures FilteredTry(SelectAll(d, Kept(d.rewards, c.n, c.trainBatchSize)), c, false)
  {
    SelectedAligned(d, Kept(d.rewards, c.n, c.trainBatchSize));
    if c.n > 0 {
      KeptAreVaried(d.rewards, c.n, c.trainBatchSize);
    }
  }

  function Max0(x: int): nat {
    if x < 0 then 0 else x
  }

  lemma BatchesAppend(parts: seq<Trajectories>, part: Trajectories)
    ensures Concat(Batches(parts + [part])) == Concat(Batches(parts)) + part.batchList
  {
    assert Batches(parts + [part]) == Batches(parts) + [part.batchList];
    ConcatAppend(Batches(parts), [part.batchList]);
    ConcatCons(part.batchList, []);
    assert [part.batchList] + [] == [part.batchList];
  }

  lemma RolledIsReadable(c: Sampling, env: Environment)
    requires Answers(env, c.size) && WellSet(c) && Rolled(env, c.size, c.n, c.maxSteps).Ok?
    ensures AllReadable(Rolled(env, c.size, c.n, c.maxSteps).value, c.n, c.trainBatchSize)
  {
    var es, t := Episodes(env, c.size, c.n, c.maxSteps), StepCount(env, c.size, c.n, c.maxSteps);
    StepsEnd(env, c.size, c.n, c.maxSteps, 0);
    GroupsReadable(Rolled(env, c.size, c.n, c.maxSteps).value, es, env, c.n, t, c.trainBatchSize);
  }

  /** What one try amounts to: the rollout of its environments, filtered. */
  ghost function TryResult(c: Sampling, env: Environment, lastTry: bool): Result<Trajectories>
    requires Answers(env, c.size)
  {
    match Rolled(env, c.size, c.n, c.maxSteps)
    case Ok(d) => Filtered(d, c.trainBatchSize, c.n, lastTry)
    case Err => Err
  }

  /** A rollout has one entry per environment in every array. */
  lemma RolledIsAligned(c: Sampling, env: Environment)
    requires Answers(env, c.size) && Rolled(env, c.size, c.n, c.maxSteps).Ok?
    ensures Aligned(Rolled(env, c.size, c.n, c.maxSteps).value)
    ensures |Rolled(env, c.size, c.n, c.maxSteps).value.batchList| == c.size
  {
  }

  lemma TryIsFiltered(c: Sampling, env: Environment, lastTry: bool)
    requires Answers(env, c.size) && TryResult(c, env, lastTry).Ok?
    ensures FilteredTry(TryResult(c, env, lastTry).value, c, lastTry)
  {
    var d := Rolled(env, c.size, c.n, c.maxSteps).value;
    RolledIsAligned(c, env);
    if !lastTry {
      KeptWithin(d.rewards, c.n, c.trainBatchSize);
      FilteredIsAligned(d, c);
    }
  }

  /** With the trainer's settings and environments that report, a try does not fail. */
  lemma TrySucceeds(c: Sampling, env: Environment, lastTry: bool)
    requires Answers(env, c.size) && WellSet(c) && Reports(env, c.size)
    ensures TryResult(c, env, lastTry).Ok?
  {
    ReportedRolloutSucceeds(env, c.size, c.n, c.maxSteps);
    RolledIsReadable(c, env);
  }

  /** One try. */
  method OneTry(c: Sampling, env: Environment, lastTry: bool) returns (r: Result<Trajectories>)
    requires Answers(env, c.size)
    ensures r == TryResult(c, env, lastTry)
  {
    var d :- VanillaMultiTurnLoop(c.size, c.n, c.maxSteps, env);
    r := FilterGroupData(d, c.trainBatchSize, c.n, lastTry);
  }

  /** The trajectories kept by the first tries do not reach the target. */
  ghost predicate BelowTarget(c: Sampling, parts: seq<Trajectories>) {
    |Concat(Batches(parts))| < First(c.trainBatchSize, c.n)
  }

  /** These are the results of the first tries, in order, and no try was made once the target was
      reached or the tries had run out. */
  ghost predicate TriesMade(c: Sampling, envs: nat -> Environment, parts: seq<Trajectories>)
    requires forall k: nat :: Answers(envs(k), c.size)
  {
    && |parts| <= Max0(c.maxTry)
    && (forall i: nat | i < |parts| :: TryResult(c, envs(i), i + 1 == c.maxTry) == Ok(parts[i]))
    && forall i: nat | i < |parts| :: BelowTarget(c, parts[..i])
  }

  lemma MadeAreFiltered(c: Sampling, envs: nat -> Environment, parts: seq<Trajectories>)
    requires (forall k: nat :: Answers(envs(k), c.size)) && TriesMade(c, envs, parts)
    ensures AllAligned(parts) && (c.n > 0 ==> GroupedRewards(parts, c.n, c.size, c.maxTry))
  {
    forall i: nat | i < |parts| ensures FilteredTry(parts[i], c, i + 1 == c.maxTry) {
      TryIsFiltered(c, envs(i), i + 1 == c.maxTry);
    }
  }

  lemma OneMoreMade(c: Sampling, envs: nat -> Environment, parts: seq<Trajectories>, part: Trajectories)
    requires (forall k: nat :: Answers(envs(k), c.size)) && TriesMade(c, envs, parts)
    requires BelowTarget(c, parts) && |parts| < c.maxTry
    requires TryResult(c, envs(|parts|), |parts| + 1 == c.maxTry) == Ok(part)
    ensures TriesMade(c, envs, parts + [part])
  {
    var all := parts + [part];
    forall i: nat | i < |all| ensures BelowTarget(c, all[..i]) {
      assert all[..i] == parts[..i];
      assert i == |parts| ==> parts[..i] == parts;
    }
  }

  /** The next try is due, and fails. */
  ghost predicate NextTryFails(c: Sampling, envs: nat -> Environment, parts: seq<Trajectories>)
    requires forall k: nat :: Answers(envs(k), c.size)
  {
    BelowTarget(c, parts) && |parts| < c.maxTry && TryResult(c, envs(|parts|), |parts| + 1 == c.maxTry).Err?
  }

  /** The loop over the tries: it ends when the target is reached, the tries run out, or a try fails. */
  method MakeTries(c: Sampling, envs: nat -> Environment)
    returns (failed: bool, totalBatchList: seq<seq<Row>>, made: seq<Trajectories>)
    requires forall k: nat :: Answers(envs(k), c.size)
    ensures TriesMade(c, envs, made) && totalBatchList == Concat(Batches(made))
    ensures if failed then NextTryFails(c, envs, made) else !BelowTarget(c, made) || |made| == Max0(c.maxTry)
  {
    totalBatchList, made := [], [];
    var tryCount := 0;
    while |totalBatchList| < First(c.trainBatchSize, c.n) && tryCount < c.maxTry
      invariant tryCount == |made| && TriesMade(c, envs, made)
      invariant totalBatchList == Concat(Batches(made))
    {
      tryCount := tryCount + 1;
      var part := OneTry(c, envs(tryCount - 1), tryCount == c.maxTry);
      if part.Err? {
        return true, totalBatchList, made;
      }
      OneMoreMade(c, envs, made, part.value);
      BatchesAppend(made, part.value);
      totalBatchList := totalBatchList + part.value.batchList;
      made := made + [part.value];
    }
    return false, totalBatchList, made;
  }

  /** The loop made these tries and gave this result. */
  ghost predicate Sampled(c: Sampling, envs: nat -> Environment, parts: seq<Trajectories>, d: Trajectories)
    requires forall k: nat :: Answers(envs(k), c.size)
  {
    match Concatenated(Concat(Batches(parts)), parts)
    case Ok(all) =>
      && all == d && parts != [] && TriesMade(c, envs, parts)
      && (!BelowTarget(c, parts) || |parts| == c.maxTry)
    case Err => false
  }

  /** No try is due from the start. */
  predicate NoTryDue(c: Sampling) {
    c.maxTry <= 0 || First(c.trainBatchSize, c.n) == 0
  }

  lemma MadeOrNotDue(c: Sampling, envs: nat -> Environment, parts: seq<Trajectories>)
    requires (forall k: nat :: Answers(envs(k), c.size)) && TriesMade(c, envs, parts)
    requires !BelowTarget(c, parts) || |parts| == Max0(c.maxTry)
    ensures parts == [] <==> NoTryDue(c)
    ensures parts != [] ==> !BelowTarget(c, parts) || |parts| == c.maxTry
  {
    if parts != [] {
      assert BelowTarget(c, parts[..0]);
    } else {
      assert Concat(Batches(parts)) == [];
    }
  }

  /** Arrays of one length; the first `kept` rewards are groups of varied rewards, the others a whole
      rollout, if the tries ran out. */
  ghost predicate GroupsThenRollout(c: Sampling, parts: seq<Trajectories>, d: Trajectories, kept: nat)
    requires c.n > 0
  {
    && Aligned(d) && (|d.batchList| >= First(c.trainBatchSize, c.n) || |parts| == c.maxTry)
    && kept <= |d.rewards| && VariedGroups(d.rewards[..kept], c.n)
    && (|parts| < c.maxTry ==> kept == |d.rewards|) && (|parts| == c.maxTry ==> |d.rewards| == kept + c.size)
  }

  /** The result has arrays of one length, at least the target's unless the tries ran out. They are
      groups of varied rewards, then a whole rollout if the tries ran out. */
  lemma ResultIsGroups(c: Sampling, envs: nat -> Environment, parts: seq<Trajectories>, d: Trajectories)
    returns (kept: nat)
    requires (forall k: nat :: Answers(envs(k), c.size)) && Sampled(c, envs, parts, d) && c.n > 0
    ensures GroupsThenRollout(c, parts, d, kept)
  {
    MadeAreFiltered(c, envs, parts);
    ConcatenatedAligned(parts);
    kept := GroupsOfResult(parts, c.n, c.size, c.maxTry);
  }

  /** With the trainer's settings and environments that report, no try fails: the loop fails exactly
      when it may not make one. */
  lemma ReportingTriesSucceed(c: Sampling, envs: nat -> Environment, parts: seq<Trajectories>)
    requires (forall k: nat :: Answers(envs(k), c.size)) && WellSet(c)
    requires forall k: nat :: Reports(envs(k), c.size)
    ensures !NextTryFails(c, envs, parts) && BelowTarget(c, [])
  {
    TrySucceeds(c, envs(|parts|), |parts| + 1 == c.maxTry);
    assert Concat(Batches([])) == [];
  }

  /** The dynamic sampling loop. `parts` are the results of the tries it made, each the filtered rollout
      of its environments. It stops when the target is reached or the tries run out, and its result is
      the tries put together: arrays of one length, groups of varied rewards, then the whole last
      rollout if the tries ran out. It fails exactly when no try is due or a try fails; with the
      trainer's settings and environments that report, no try fails. */
  method DynamicMultiTurnLoop(c: Sampling, envs: nat -> Environment)
    returns (r: Result<Trajectories>, ghost parts: seq<Trajectories>, ghost kept: nat)
    requires forall k: nat :: Answers(envs(k), c.size)
    ensures r.Ok? ==> Sampled(c, envs, parts, r.value)
    ensures r.Err? ==> TriesMade(c, envs, parts) && (NextTryFails(c, envs, parts) || NoTryDue(c))
    ensures NoTryDue(c) ==> r.Err?
    ensures WellSet(c) && (forall k: nat :: Reports(envs(k), c.size)) ==> (r.Ok? <==> c.maxTry > 0)
    ensures r.Ok? && c.n > 0 ==> GroupsThenRollout(c, parts, r.value, kept)
  {
    var failed, totalBatchList, made := MakeTries(c, envs);
    parts, kept := made, 0;
    if WellSet(c) && forall k: nat :: Reports(envs(k), c.size) {
      ReportingTriesSucceed(c, envs, made);
    }
    if failed {
      return Err, parts, kept;
    }
    MadeOrNotDue(c, envs, parts);
    r := Concatenated(totalBatchList, made);
    if parts != [] {
      MadeAreFiltered(c, envs, parts);
      ConcatenatedAligned(parts);
      if c.n > 0 {
        kept := ResultIsGroups(c, envs, parts, r.value);
      }
    }
  }
}
