/** Where the trajectories of a dynamic sampling come from: whole groups of single tries, each with its
    own figures, and the whole rollout of the last possible try. */
module DynamicGroups {
  import opened Outcomes
  import opened Sequences
  import opened Rollout
  import opened RolloutLaws
  import opened DynamicRollout
  import opened DynamicLoop

  /** Where the trajectories of try i start in the result. */
  ghost function Offset(parts: seq<Trajectories>, i: nat): nat
    requires i <= |parts|
  {
    |Concat(Batches(parts)[..i])|
  }

  /** A trajectory whose rows all carry one uid. */
  ghost predicate OfUid(rows: seq<Row>, uid: nat) {
    forall row | row in rows :: row.uid == uid
  }

  /** Place at + k of the result is place from + k of a rollout: all its figures, and rows of one uid. */
  ghost predicate SamePlace(d: Trajectories, at: nat, rolled: Trajectories, from: nat, uid: nat, k: nat) {
    && Aligned(d) && Aligned(rolled) && at + k < |d.batchList| && from + k < |rolled.batchList|
    && FiguresOf(d, at + k) == FiguresOf(rolled, from + k) && OfUid(d.batchList[at + k], uid)
  }

  /** Where a run of trajectories comes from: group q of a rollout, or all of it. */
  datatype Source = Group(rolled: Trajectories, q: nat, n: nat) | Whole(rolled: Trajectories, n: nat)

  /** The places from `at` on are the source's trajectories, in order. */
  ghost predicate HeldAt(d: Trajectories, at: nat, s: Source) {
    match s
    case Group(rolled, q, n) => forall k: nat | k < n :: SamePlace(d, at, rolled, First(q, n), q, k)
    case Whole(rolled, n) => forall k: nat | k < |rolled.batchList| :: SamePlace(d, at, rolled, 0, GroupUid(k, n), k)
  }

  /** All rows of a trajectory carry the uid of its group. */
  lemma RolledUid(c: Sampling, env: Environment, rolled: Trajectories, x: nat)
    requires Answers(env, c.size) && Rolled(env, c.size, c.n, c.maxSteps) == Ok(rolled) && x < c.size
    ensures |rolled.batchList| == c.size && OfUid(rolled.batchList[x], GroupUid(x, c.n))
  {
    var t := StepCount(env, c.size, c.n, c.maxSteps);
    RolledIsAligned(c, env);
    forall row | row in rolled.batchList[x] ensures row.uid == GroupUid(x, c.n) {
      var k :| 0 <= k < |rolled.batchList[x]| && rolled.batchList[x][k] == row;
      RowsPerStep(env, c.size, c.n, x, t);
      EveryStepRecorded(env, c.size, c.n, x, t, k);
    }
  }

  /** The trajectories of group q carry its number as their uid. */
  lemma GroupPlaceUid(c: Sampling, env: Environment, rolled: Trajectories, q: nat, k: nat, x: nat)
    requires Answers(env, c.size) && Rolled(env, c.size, c.n, c.maxSteps) == Ok(rolled)
    requires k < c.n && x == First(q, c.n) + k && x < c.size
    ensures |rolled.batchList| == c.size && OfUid(rolled.batchList[x], q)
  {
    RolledUid(c, env, rolled, x);
    SameGroup(q, c.n, x);
  }

  /** Place First(g, n) + k of what the filter keeps is place k of the g-th kept group. */
  lemma FilteredPlace(rolled: Trajectories, n: nat, groups: nat, p: Trajectories, g: nat, q: nat, k: nat, at: nat)
    requires Aligned(rolled) && Filtered(rolled, groups, n, false) == Ok(p)
    requires g < |KeptGroups(rolled.rewards, n, groups)| && q == KeptGroups(rolled.rewards, n, groups)[g]
    requires k < n && at == First(g, n) + k
    ensures q < groups && GroupVaries(rolled.rewards, n, q)
    ensures Aligned(p) && at < |p.batchList| && First(q, n) + k < |rolled.batchList|
    ensures FiguresOf(p, at) == FiguresOf(rolled, First(q, n) + k)
  {
    var kept := Kept(rolled.rewards, n, groups);
    assert q in KeptGroups(rolled.rewards, n, groups);
    KeptGroupsExactly(rolled.rewards, n, groups, q);
    KeptWithin(rolled.rewards, n, groups);
    KeptBlock(rolled.rewards, n, groups, g, k, at);
    FilterKeepsFigures(rolled, kept, at);
  }

  /** A try of the loop, its rollout and what it kept of it. */
  ghost predicate TryOf(c: Sampling, env: Environment, rolled: Trajectories, p: Trajectories, lastTry: bool)
    requires Answers(env, c.size)
  {
    match Rolled(env, c.size, c.n, c.maxSteps)
    case Ok(all) => all == rolled && Filtered(all, c.trainBatchSize, c.n, lastTry) == Ok(p)
    case Err => false
  }

  lemma MadeTry(c: Sampling, envs: nat -> Environment, parts: seq<Trajectories>, i: nat) returns (rolled: Trajectories)
    requires (forall k: nat :: Answers(envs(k), c.size)) && TriesMade(c, envs, parts) && i < |parts|
    ensures TryOf(c, envs(i), rolled, parts[i], i + 1 == c.maxTry)
    ensures Aligned(rolled) && |rolled.batchList| == c.size
  {
    assert TryResult(c, envs(i), i + 1 == c.maxTry) == Ok(parts[i]);
    rolled := Rolled(envs(i), c.size, c.n, c.maxSteps).value;
    RolledIsAligned(c, envs(i));
  }

  /** The trajectories of a try lie in the result from `offset` on. */
  ghost predicate PlacedAt(d: Trajectories, p: Trajectories, offset: nat) {
    && Aligned(p) && Aligned(d) && offset + |p.batchList| <= |d.batchList|
    && forall x: nat | x < |p.batchList| :: FiguresOf(d, offset + x) == FiguresOf(p, x)
  }

  lemma PrefixWithin<A>(parts: seq<seq<A>>, i: nat)
    requires i < |parts|
    ensures |Concat(parts[..i])| + |parts[i]| <= |Concat(parts)|
  {
    assert parts == parts[..i] + [parts[i]] + parts[i + 1..];
    ConcatAppend(parts[..i] + [parts[i]], parts[i + 1..]);
    ConcatAppend(parts[..i], [parts[i]]);
    ConcatCons(parts[i], []);
    assert [parts[i]] + [] == [parts[i]];
  }

  lemma OffsetEnds(parts: seq<Trajectories>, i: nat)
    requires i < |parts|
    ensures Offset(parts, i) + |parts[i].batchList| <= |Concat(Batches(parts))|
  {
    PrefixWithin(Batches(parts), i);
  }

  lemma TryPlace(parts: seq<Trajectories>, d: Trajectories, i: nat, x: nat, at: nat)
    requires AllAligned(parts) && Concatenated(Concat(Batches(parts)), parts) == Ok(d)
    requires i < |parts| && x < |parts[i].batchList| && at == Offset(parts, i) + x
    ensures Aligned(d) && Aligned(parts[i]) && at < |d.batchList| && FiguresOf(d, at) == FiguresOf(parts[i], x)
  {
    ConcatenationKeepsFigures(parts, i, x, at);
  }

  lemma TriesPlaced(parts: seq<Trajectories>, d: Trajectories, i: nat)
    requires AllAligned(parts) && Concatenated(Concat(Batches(parts)), parts) == Ok(d) && i < |parts|
    ensures PlacedAt(d, parts[i], Offset(parts, i))
  {
    var offset := Offset(parts, i);
    ConcatenatedAligned(parts);
    OffsetEnds(parts, i);
    forall x: nat | x < |parts[i].batchList| ensures FiguresOf(d, offset + x) == FiguresOf(parts[i], x) {
      TryPlace(parts, d, i, x, offset + x);
    }
  }

  lemma TryPlaced(c: Sampling, envs: nat -> Environment, parts: seq<Trajectories>, d: Trajectories, i: nat)
    requires (forall k: nat :: Answers(envs(k), c.size)) && Sampled(c, envs, parts, d) && i < |parts|
    ensures PlacedAt(d, parts[i], Offset(parts, i))
  {
    MadeAreFiltered(c, envs, parts);
    TriesPlaced(parts, d, i);
  }

  lemma SamePlaceOf(d: Trajectories, at: nat, p: Trajectories, x: nat, rolled: Trajectories, from: nat, uid: nat,
                    k: nat)
    requires Aligned(d) && Aligned(p) && Aligned(rolled)
    requires at + k < |d.batchList| && x < |p.batchList| && from + k < |rolled.batchList|
    requires FiguresOf(d, at + k) == FiguresOf(p, x) && FiguresOf(p, x) == FiguresOf(rolled, from + k)
    requires OfUid(rolled.batchList[from + k], uid)
    ensures SamePlace(d, at, rolled, from, uid, k)
  {
    assert d.batchList[at + k] == FiguresOf(d, at + k).rows == FiguresOf(rolled, from + k).rows
           == rolled.batchList[from + k];
  }

  /** The trajectories of group q carry its number as their uid. */
  ghost predicate UidsOfGroup(rolled: Trajectories, q: nat, n: nat) {
    First(q, n) + n <= |rolled.batchList|
    && forall x: nat | First(q, n) <= x < First(q, n) + n :: OfUid(rolled.batchList[x], q)
  }

  lemma PlaceInResult(d: Trajectories, p: Trajectories, rolled: Trajectories, n: nat, groups: nat, offset: nat,
                      g: nat, q: nat, k: nat, at: nat)
    requires PlacedAt(d, p, offset) && Aligned(rolled) && Filtered(rolled, groups, n, false) == Ok(p)
    requires g < |KeptGroups(rolled.rewards, n, groups)| && q == KeptGroups(rolled.rewards, n, groups)[g]
    requires k < n && at == offset + First(g, n) && UidsOfGroup(rolled, q, n)
    ensures SamePlace(d, at, rolled, First(q, n), q, k)
  {
    var x := First(g, n) + k;
    FilteredPlace(rolled, n, groups, p, g, q, k, x);
    assert FiguresOf(d, offset + x) == FiguresOf(p, x);
    SamePlaceOf(d, at, p, x, rolled, First(q, n), q, k);
  }

  /** The numbers of the groups kept of one try: those whose rewards differ, in order. */
  ghost function GroupsOfTry(c: Sampling, env: Environment): seq<nat>
    requires Answers(env, c.size)
  {
    match Rolled(env, c.size, c.n, c.maxSteps)
    case Ok(rolled) => KeptGroups(rolled.rewards, c.n, c.trainBatchSize)
    case Err => []
  }

  /** A try keeps exactly the groups whose rewards differ, in order. */
  lemma GroupsOfTryExactly(c: Sampling, env: Environment, rolled: Trajectories, q: nat)
    requires Answers(env, c.size) && Rolled(env, c.size, c.n, c.maxSteps) == Ok(rolled)
    ensures q in GroupsOfTry(c, env) <==> q < c.trainBatchSize && GroupVaries(rolled.rewards, c.n, q)
    ensures forall j, k | 0 <= j < k < |GroupsOfTry(c, env)| :: GroupsOfTry(c, env)[j] < GroupsOfTry(c, env)[k]
  {
    KeptGroupsExactly(rolled.rewards, c.n, c.trainBatchSize, q);
    forall j, k | 0 <= j < k < |GroupsOfTry(c, env)| ensures GroupsOfTry(c, env)[j] < GroupsOfTry(c, env)[k] {
      KeptGroupsIncrease(rolled.rewards, c.n, c.trainBatchSize, j, k);
    }
  }

  lemma GroupFits(c: Sampling, env: Environment, rolled: Trajectories, g: nat, q: nat)
    requires Answers(env, c.size) && Rolled(env, c.size, c.n, c.maxSteps) == Ok(rolled)
    requires g < |GroupsOfTry(c, env)| && q == GroupsOfTry(c, env)[g]
    ensures |rolled.batchList| == c.size && First(q, c.n) + c.n <= c.size
    ensures UidsOfGroup(rolled, q, c.n)
  {
    assert q in GroupsOfTry(c, env);
    KeptGroupsExactly(rolled.rewards, c.n, c.trainBatchSize, q);
    RolledIsAligned(c, env);
    forall x: nat | First(q, c.n) <= x < First(q, c.n) + c.n ensures OfUid(rolled.batchList[x], q) {
      GroupPlaceUid(c, env, rolled, q, x - First(q, c.n), x);
    }
  }

  lemma BlockIsGroup(d: Trajectories, p: Trajectories, rolled: Trajectories, n: nat, groups: nat, offset: nat, g: nat,
                     q: nat)
    requires PlacedAt(d, p, offset) && Aligned(rolled) && Filtered(rolled, groups, n, false) == Ok(p)
    requires g < |KeptGroups(rolled.rewards, n, groups)| && q == KeptGroups(rolled.rewards, n, groups)[g]
    requires UidsOfGroup(rolled, q, n)
    ensures HeldAt(d, offset + First(g, n), Group(rolled, q, n))
  {
    var at := offset + First(g, n);
    forall k: nat | k < n ensures SamePlace(d, at, rolled, First(q, n), q, k) {
      PlaceInResult(d, p, rolled, n, groups, offset, g, q, k, at);
    }
  }

  lemma TryIsGroups(c: Sampling, env: Environment, d: Trajectories, rolled: Trajectories, p: Trajectories, offset: nat,
                    g: nat, q: nat)
    requires Answers(env, c.size) && TryOf(c, env, rolled, p, false) && PlacedAt(d, p, offset)
    requires g < |GroupsOfTry(c, env)| && q == GroupsOfTry(c, env)[g]
    ensures HeldAt(d, offset + First(g, c.n), Group(rolled, q, c.n))
  {
    RolledIsAligned(c, env);
    GroupFits(c, env, rolled, g, q);
    BlockIsGroup(d, p, rolled, c.n, c.trainBatchSize, offset, g, q);
  }

  lemma GroupInTry(c: Sampling, env: Environment, parts: seq<Trajectories>, d: Trajectories, i: nat, g: nat,
                   rolled: Trajectories, q: nat)
    requires Answers(env, c.size) && i < |parts| && TryOf(c, env, rolled, parts[i], false)
    requires PlacedAt(d, parts[i], Offset(parts, i))
    requires g < |GroupsOfTry(c, env)| && q == GroupsOfTry(c, env)[g]
    ensures HeldAt(d, Offset(parts, i) + First(g, c.n), Group(rolled, q, c.n))
  {
    TryIsGroups(c, env, d, rolled, parts[i], Offset(parts, i), g, q);
  }

  /** Every kept block of n trajectories is one whole group of one try: the g-th of those whose rewards
      differ, with its own figures and one uid throughout. */
  lemma BlocksAreGroups(c: Sampling, envs: nat -> Environment, parts: seq<Trajectories>, d: Trajectories, i: nat,
                        g: nat)
    returns (rolled: Trajectories, q: nat)
    requires (forall k: nat :: Answers(envs(k), c.size)) && Sampled(c, envs, parts, d)
    requires i < |parts| && i + 1 != c.maxTry && g < |GroupsOfTry(c, envs(i))|
    ensures TryOf(c, envs(i), rolled, parts[i], false) && q == GroupsOfTry(c, envs(i))[g]
    ensures HeldAt(d, Offset(parts, i) + First(g, c.n), Group(rolled, q, c.n))
  {
    rolled := MadeTry(c, envs, parts, i);
    q := GroupsOfTry(c, envs(i))[g];
    TryPlaced(c, envs, parts, d, i);
    GroupInTry(c, envs(i), parts, d, i, g, rolled, q);
  }

  lemma WholeRollout(c: Sampling, env: Environment, d: Trajectories, rolled: Trajectories, offset: nat)
    requires Answers(env, c.size) && Rolled(env, c.size, c.n, c.maxSteps) == Ok(rolled)
    requires PlacedAt(d, rolled, offset)
    ensures HeldAt(d, offset, Whole(rolled, c.n))
  {
    RolledIsAligned(c, env);
    forall k: nat | k < |rolled.batchList| ensures SamePlace(d, offset, rolled, 0, GroupUid(k, c.n), k) {
      RolledUid(c, env, rolled, k);
      assert FiguresOf(d, offset + k) == FiguresOf(rolled, k);
      SamePlaceOf(d, offset, rolled, k, rolled, 0, GroupUid(k, c.n), k);
    }
  }

  lemma OffsetsEnd(parts: seq<Trajectories>)
    requires parts != []
    ensures |Concat(Batches(parts))| == Offset(parts, |parts| - 1) + |parts[|parts| - 1].batchList|
  {
    var last := |parts| - 1;
    assert parts[..last] + [parts[last]] == parts;
    BatchesAppend(parts[..last], parts[last]);
    assert Batches(parts)[..last] == Batches(parts[..last]);
  }

  /** When the tries ran out, the last trajectories are the whole rollout of the last try. */
  lemma LastRolloutWhole(c: Sampling, envs: nat -> Environment, parts: seq<Trajectories>, d: Trajectories)
    returns (rolled: Trajectories)
    requires (forall k: nat :: Answers(envs(k), c.size)) && Sampled(c, envs, parts, d) && |parts| == c.maxTry
    ensures Rolled(envs(c.maxTry - 1), c.size, c.n, c.maxSteps) == Ok(rolled) && |rolled.batchList| == c.size
    ensures |d.batchList| == Offset(parts, |parts| - 1) + c.size
    ensures HeldAt(d, Offset(parts, |parts| - 1), Whole(rolled, c.n))
  {
    var last := |parts| - 1;
    rolled := MadeTry(c, envs, parts, last);
    TryPlaced(c, envs, parts, d, last);
    OffsetsEnd(parts);
    WholeRollout(c, envs(last), d, rolled, Offset(parts, last));
  }

  /** The part and the place in it of an entry of a concatenation. */
  lemma {:induction false} PartOf<A>(parts: seq<seq<A>>, at: nat) returns (i: nat, k: nat)
    requires at < |Concat(parts)|
    ensures i < |parts| && k < |parts[i]| && at == |Concat(parts[..i])| + k
  {
    if at < |parts[0]| {
      i, k := 0, at;
      assert parts[..0] == [];
    } else {
      i, k := PartOf(parts[1..], at - |parts[0]|);
      i := i + 1;
      assert parts[..i][1..] == parts[1..][..i - 1];
    }
  }

  lemma {:induction false} BlockOf(x: nat, n: nat, groups: nat) returns (g: nat, k: nat)
    requires n > 0 && x < First(groups, n)
    ensures g < groups && k < n && x == First(g, n) + k
  {
    NextFirst(groups - 1, n);
    if x >= First(groups - 1, n) {
      g, k := groups - 1, x - First(groups - 1, n);
    } else {
      g, k := BlockOf(x, n, groups - 1);
    }
  }

  /** Nothing else is in the result: every place lies in a kept group of a filtered try, or in the last
      rollout. */
  lemma EveryPlaceHasOrigin(c: Sampling, envs: nat -> Environment, parts: seq<Trajectories>, d: Trajectories, at: nat)
    returns (i: nat, g: nat, k: nat)
    requires (forall k: nat :: Answers(envs(k), c.size)) && Sampled(c, envs, parts, d) && c.n > 0
    requires at < |d.batchList|
    ensures i < |parts|
    ensures if i + 1 == c.maxTry then k < c.size && at == Offset(parts, i) + k
            else g < |GroupsOfTry(c, envs(i))| && k < c.n && at == Offset(parts, i) + First(g, c.n) + k
  {
    var x;
    i, x := PartOf(Batches(parts), at);
    var rolled := MadeTry(c, envs, parts, i);
    g, k := 0, x;
    if i + 1 != c.maxTry {
      KeptWithin(rolled.rewards, c.n, c.trainBatchSize);
      KeptInBlocks(rolled.rewards, c.n, c.trainBatchSize);
      g, k := BlockOf(x, c.n, |GroupsOfTry(c, envs(i))|);
    }
  }
}
