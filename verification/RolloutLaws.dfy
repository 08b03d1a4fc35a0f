/** What a rollout counts: its active rows, its rewards and its success, and the rows gathered from it. */
module RolloutLaws {
  import opened Outcomes
  import opened Sequences
  import opened Rollout

  // ----- one environment

  /** The environment has not been done in any step before t. */
  ghost predicate Active(env: Environment, size: nat, i: nat, t: nat)
    requires i < size && Answers(env, size)
  {
    forall k: nat | k < t :: !env(k).dones[i]
  }

  function SumRewards(env: Environment, size: nat, i: nat, t: nat): real
    requires i < size && Answers(env, size)
  {
    if t == 0 then 0.0 else SumRewards(env, size, i, t - 1) + env(t - 1).rewards[i]
  }

  /** A figure of an environment counts only in the steps in which the first environment reports one. */
  function Counted(first: Option<real>, own: Option<real>): real {
    if first.Some? && own.Some? then own.value else 0.0
  }

  /** The intrinsic rewards reported for an environment in the first t steps. */
  function SumIntrinsic(env: Environment, size: nat, i: nat, t: nat): real
    requires i < size && Answers(env, size)
  {
    if t == 0 then 0.0
    else
      var infos := env(t - 1).infos;
      SumIntrinsic(env, size, i, t - 1) + Counted(infos[0].intrinsic, infos[i].intrinsic)
  }

  /** The intrinsic rewards that the environment itself gave, whatever the first one reports. */
  function OwnIntrinsic(env: Environment, size: nat, i: nat, t: nat): real
    requires i < size && Answers(env, size)
  {
    if t == 0 then 0.0 else OwnIntrinsic(env, size, i, t - 1) + Or0(env(t - 1).infos[i].intrinsic)
  }

  /** The tool calls reported for an environment in the first t steps. */
  function SumToolCalls(env: Environment, size: nat, i: nat, t: nat): real
    requires i < size && Answers(env, size)
  {
    if t == 0 then 0.0
    else
      var infos := env(t - 1).infos;
      SumToolCalls(env, size, i, t - 1) + Counted(infos[0].toolCalling, infos[i].toolCalling)
  }

  lemma {:induction false} EndsAtDone(env: Environment, size: nat, n: int, i: nat, t: nat)
    requires i < size && Answers(env, size)
    ensures var e := EpisodeAfter(env, size, n, i, t);
            && e.length <= t && (t > 0 ==> e.length > 0)
            && (e.done <==> !Active(env, size, i, t)) && (!e.done ==> e.length == t)
            && (e.done ==> env(e.length - 1).dones[i] && Active(env, size, i, e.length - 1))
  {
    if t == 0 {
    } else {
      EndsAtDone(env, size, n, i, t - 1);
      assert Active(env, size, i, t) <==> Active(env, size, i, t - 1) && !env(t - 1).dones[i];
    }
  }

  /** The active rows are a prefix of as many rows as the episode is long; it ends at the first step
      that reports done, or has not ended. */
  lemma {:induction false} ActivePrefix(env: Environment, size: nat, n: int, i: nat, t: nat)
    requires i < size && Answers(env, size)
    ensures var e := EpisodeAfter(env, size, n, i, t);
            && |e.rows| == |e.infos| == t && e.length <= t && (t > 0 ==> e.length > 0)
            && (forall k: nat | k < t :: e.rows[k].active <==> k < e.length)
  {
    if t == 0 {
    } else {
      ActivePrefix(env, size, n, i, t - 1);
      EndsAtDone(env, size, n, i, t - 1);
      var before, e := EpisodeAfter(env, size, n, i, t - 1), EpisodeAfter(env, size, n, i, t);
      assert e.rows[t - 1].active == !before.done && forall k: nat | k < t - 1 :: e.rows[k] == before.rows[k];
    }
  }

  /** Every step is recorded, active or not. */
  lemma {:induction false} EveryStepRecorded(env: Environment, size: nat, n: int, i: nat, t: nat, k: nat)
    requires i < size && Answers(env, size) && k < t
    ensures var e := EpisodeAfter(env, size, n, i, t);
            && |e.rows| == |e.infos| == t && e.rows[k].reward == env(k).rewards[i] && e.infos[k] == env(k).infos[i]
            && e.rows[k].uid == GroupUid(i, n) && e.rows[k].trajUid == i
  {
    RowsPerStep(env, size, n, i, t - 1);
    if k < t - 1 {
      EveryStepRecorded(env, size, n, i, t - 1, k);
    }
  }

  lemma {:induction false} LengthWhileActive(env: Environment, size: nat, n: int, i: nat, t: nat)
    requires i < size && Answers(env, size)
    ensures !EpisodeAfter(env, size, n, i, t).done ==> EpisodeAfter(env, size, n, i, t).length == t
  {
    if t == 0 {
    } else {
      LengthWhileActive(env, size, n, i, t - 1);
    }
  }

  /** The counters are sums over the active prefix. */
  lemma {:induction false} CountersAreSums(env: Environment, size: nat, n: int, i: nat, t: nat)
    requires i < size && Answers(env, size)
    ensures var e := EpisodeAfter(env, size, n, i, t);
            e.reward == SumRewards(env, size, i, e.length) && e.toolCallings == SumToolCalls(env, size, i, e.length)
  {
    if t == 0 {
    } else {
      CountersAreSums(env, size, n, i, t - 1);
      LengthWhileActive(env, size, n, i, t - 1);
    }
  }

  /** Total minus environment-only reward is the intrinsic reward over the active prefix. */
  lemma {:induction false} RewardsDifferByIntrinsic(env: Environment, size: nat, n: int, i: nat, t: nat)
    requires i < size && Answers(env, size)
    ensures var e := EpisodeAfter(env, size, n, i, t); e.reward - e.envReward == SumIntrinsic(env, size, i, e.length)
  {
    if t == 0 {
    } else {
      RewardsDifferByIntrinsic(env, size, n, i, t - 1);
      LengthWhileActive(env, size, n, i, t - 1);
    }
  }

  /** All environments of a step report an intrinsic reward, or none does. */
  ghost predicate Uniformly(o: Outcome) {
    forall i, j | 0 <= i < |o.infos| && 0 <= j < |o.infos| :: o.infos[i].intrinsic.Some? <==> o.infos[j].intrinsic.Some?
  }

  /** Total minus environment-only reward is the environment's own intrinsic reward, when each step
      reports it for all environments or for none. */
  lemma {:induction false} IntrinsicIsOwn(env: Environment, size: nat, i: nat, t: nat)
    requires i < size && Answers(env, size) && forall k: nat | k < t :: Uniformly(env(k))
    ensures SumIntrinsic(env, size, i, t) == OwnIntrinsic(env, size, i, t)
  {
    if t == 0 {
    } else {
      IntrinsicIsOwn(env, size, i, t - 1);
      var o := env(t - 1);
      assert o.infos[0].intrinsic.Some? <==> o.infos[i].intrinsic.Some?;
    }
  }

  // ----- success

  lemma {:induction false} WonAtPrefix(rows: seq<Row>, infos: seq<Info>, length: nat)
    requires |rows| == |infos| && 0 < length <= |rows|
    requires forall k: nat | k < |rows| :: rows[k].active <==> k < length
    ensures WonAtLast(rows, infos) == match infos[length - 1].won { case Some(w) => Ok(Some(w)) case None => Err }
  {
    if |rows| > length {
      WonAtPrefix(rows[..|rows| - 1], infos[..|rows| - 1], length);
    }
  }

  /** Success is read at the step that ended the episode, or at the last step taken. */
  lemma SuccessAtLastActive(env: Environment, size: nat, n: int, i: nat, t: nat)
    requires i < size && Answers(env, size) && t > 0
    ensures var e := EpisodeAfter(env, size, n, i, t);
            && 0 < e.length && |e.rows| == |e.infos|
            && WonAtLast(e.rows, e.infos)
               == match env(e.length - 1).infos[i].won { case Some(w) => Ok(Some(w)) case None => Err }
  {
    ActivePrefix(env, size, n, i, t);
    var e := EpisodeAfter(env, size, n, i, t);
    EveryStepRecorded(env, size, n, i, t, e.length - 1);
    WonAtPrefix(e.rows, e.infos, e.length);
  }

  /** What the environment says about winning at the end of its episode. */
  ghost function WonBy(es: seq<Episode>, env: Environment, i: nat): Option<real>
    requires Answers(env, |es|) && i < |es| && es[i].length > 0
  {
    env(es[i].length - 1).infos[i].won
  }

  /** Environment i says whether it was won. */
  ghost predicate SaysWon(es: seq<Episode>, env: Environment, i: nat)
    requires Answers(env, |es|) && i < |es|
  {
    es[i].length > 0 && WonBy(es, env, i).Some?
  }

  /** The wins of the first environments, in order. */
  ghost predicate WinsAre(es: seq<Episode>, env: Environment, wins: seq<real>)
    requires Answers(env, |es|)
  {
    |wins| <= |es| && forall i: nat | i < |wins| :: SaysWon(es, env, i) && WonBy(es, env, i).value == wins[i]
  }

  lemma AppendWin(es: seq<Episode>, env: Environment, wins: seq<real>, win: real)
    requires Answers(env, |es|) && WinsAre(es, env, wins) && |wins| < |es|
    requires SaysWon(es, env, |wins|) && WonBy(es, env, |wins|).value == win
    ensures WinsAre(es, env, wins + [win])
  {
  }

  lemma WonHere(es: seq<Episode>, env: Environment, n: int, t: nat, i: nat)
    requires Answers(env, |es|) && EpisodesAfter(es, env, n, t) && t > 0 && i < |es|
    ensures |es[i].rows| == |es[i].infos| && es[i].length > 0
    ensures WonAtLast(es[i].rows, es[i].infos) == if SaysWon(es, env, i) then Ok(WonBy(es, env, i)) else Err
  {
    SuccessAtLastActive(env, |es|, n, i, t);
  }

  lemma WinsStep(es: seq<Episode>, k: nat, won: Result<Option<real>>)
    requires 0 < k <= |es| && forall e | e in es :: |e.rows| == |e.infos|
    requires Wins(es, k - 1).Ok? && |es[k - 1].rows| == |es[k - 1].infos|
    requires won == WonAtLast(es[k - 1].rows, es[k - 1].infos)
    ensures won.Err? ==> Wins(es, k).Err?
    ensures won.Ok? && won.value.Some? ==> Wins(es, k) == Ok(Wins(es, k - 1).value + [won.value.value])
  {
  }

  lemma OneMoreWin(es: seq<Episode>, env: Environment, n: int, t: nat, k: nat)
    requires Answers(env, |es|) && EpisodesAfter(es, env, n, t) && t > 0 && k < |es|
    requires forall e | e in es :: |e.rows| == |e.infos|
    requires Wins(es, k).Ok?
    ensures Wins(es, k + 1)
            == if SaysWon(es, env, k) then Ok(Wins(es, k).value + [WonBy(es, env, k).value]) else Err
  {
    WonHere(es, env, n, t, k);
    WinsStep(es, k + 1, WonAtLast(es[k].rows, es[k].infos));
  }

  lemma NextWin(es: seq<Episode>, env: Environment, n: int, t: nat, k: nat)
    requires Answers(env, |es|) && EpisodesAfter(es, env, n, t) && t > 0 && k < |es|
    requires forall e | e in es :: |e.rows| == |e.infos|
    requires Wins(es, k).Ok? && |Wins(es, k).value| == k && WinsAre(es, env, Wins(es, k).value)
    ensures Wins(es, k + 1).Ok? ==> |Wins(es, k + 1).value| == k + 1 && WinsAre(es, env, Wins(es, k + 1).value)
    ensures Wins(es, k + 1).Err? ==> !SaysWon(es, env, k)
  {
    OneMoreWin(es, env, n, t, k);
    if SaysWon(es, env, k) {
      AppendWin(es, env, Wins(es, k).value, WonBy(es, env, k).value);
    }
  }

  ghost predicate WinsTold(es: seq<Episode>, env: Environment, k: nat)
    requires Answers(env, |es|) && k <= |es| && forall e | e in es :: |e.rows| == |e.infos|
  {
    match Wins(es, k)
    case Ok(wins) => |wins| == k && WinsAre(es, env, wins)
    case Err => exists i: nat :: i < k && !SaysWon(es, env, i)
  }

  /** One value per environment, its win at the end of its episode; an error when one does not say. */
  lemma {:induction false} OneWinEach(es: seq<Episode>, env: Environment, n: int, t: nat, k: nat)
    requires Answers(env, |es|) && EpisodesAfter(es, env, n, t) && t > 0 && k <= |es|
    requires forall e | e in es :: |e.rows| == |e.infos|
    ensures WinsTold(es, env, k)
  {
    if k == 0 {
    } else {
      OneWinEach(es, env, n, t, k - 1);
      if Wins(es, k - 1).Ok? {
        NextWin(es, env, n, t, k - 1);
      }
    }
  }

  lemma {:induction false} NoWins(es: seq<Episode>, env: Environment, n: int, k: nat)
    requires Answers(env, |es|) && EpisodesAfter(es, env, n, 0) && k <= |es|
    requires forall e | e in es :: |e.rows| == |e.infos|
    ensures Wins(es, k) == Ok([])
  {
    if k == 0 {
    } else {
      NoWins(es, env, n, k - 1);
      assert es[k - 1] == START;
    }
  }

  /** The assertion of the success evaluation holds exactly when the run has at least one step, or
      there are no environments. */
  lemma AssertionHoldsExactly(env: Environment, size: nat, n: int, maxSteps: int)
    requires Answers(env, size)
    ensures var es := Episodes(env, size, n, maxSteps);
            (forall e | e in es :: |e.rows| == |e.infos|)
            && (Wins(es, size).Ok? ==> (|Wins(es, size).value| == size <==> maxSteps >= 1 || size == 0))
  {
    var es, t := Episodes(env, size, n, maxSteps), StepCount(env, size, n, maxSteps);
    EpisodesRecorded(env, size, n, maxSteps);
    StepsEnd(env, size, n, maxSteps, 0);
    if t > 0 {
      OneWinEach(es, env, n, t, size);
    } else {
      NoWins(es, env, n, size);
    }
  }

  /** In every step taken, all the environments report tool calls when the first one does. */
  ghost predicate ToolCallsTold(env: Environment, size: nat, steps: nat)
    requires Answers(env, size)
  {
    forall k: nat, i: nat | k < steps && i < size ::
      env(k).infos[0].toolCalling.Some? ==> env(k).infos[i].toolCalling.Some?
  }

  lemma NoneMissingMeans(env: Environment, size: nat, steps: nat)
    requires Answers(env, size) && size > 0
    ensures !MissingIn(env, steps) <==> ToolCallsTold(env, size, steps)
  {
    if !MissingIn(env, steps) {
      forall k: nat, i: nat | k < steps && i < size
        ensures env(k).infos[0].toolCalling.Some? ==> env(k).infos[i].toolCalling.Some?
      {
        assert !ToolCallsMissing(env(k));
      }
    } else {
      var k: nat :| k < steps && env(k).infos != [] && ToolCallsMissing(env(k));
    }
  }

  /** A rollout succeeds exactly when it takes a step (or has nothing to do), no step taken misses tool
      calls, and every environment says at its last active step whether it was won. */
  lemma RolloutSucceedsExactly(env: Environment, size: nat, n: int, maxSteps: int)
    requires Answers(env, size)
    ensures Rolled(env, size, n, maxSteps).Ok?
            <==> if maxSteps < 1 then size == 0
                 else size > 0 && ToolCallsTold(env, size, StepCount(env, size, n, maxSteps))
                      && forall i: nat | i < size :: SaysWon(Episodes(env, size, n, maxSteps), env, i)
  {
    var es, t := Episodes(env, size, n, maxSteps), StepCount(env, size, n, maxSteps);
    EpisodesRecorded(env, size, n, maxSteps);
    StepsEnd(env, size, n, maxSteps, 0);
    if size > 0 {
      NoneMissingMeans(env, size, t);
    }
    AssertionHoldsExactly(env, size, n, maxSteps);
    if t > 0 {
      OneWinEach(es, env, n, t, size);
    } else {
      NoWins(es, env, n, size);
    }
  }

  // ----- gathering

  /** One gathered row: the recorded row and the figures of its episode. */
  datatype Gathered = Gathered(row: Row, episodeReward: real, totalReward: real, length: nat, toolCallings: real,
                               success: map<string, Option<real>>)

  function SumOf(values: seq<real>): real {
    if values == [] then 0.0 else SumOf(values[..|values| - 1]) + values[|values| - 1]
  }

  /** The mean; undefined for no values. */
  function Mean(values: seq<real>): Option<real> {
    if values == [] then None else Some(SumOf(values) / (|values| as real))
  }

  function SuccessRates(success: map<string, seq<real>>): map<string, Option<real>> {
    map key | key in success :: Mean(success[key])
  }

  ghost predicate Complete(d: Trajectories) {
    |d.rewards| == |d.envRewards| == |d.lengths| == |d.trajUid| == |d.toolCallings| == |d.batchList|
  }

  function GatheredRow(d: Trajectories, bs: nat, row: Row): Gathered
    requires bs < |d.rewards| == |d.envRewards| == |d.lengths| == |d.toolCallings|
  {
    Gathered(row, d.envRewards[bs], d.rewards[bs], d.lengths[bs], d.toolCallings[bs], SuccessRates(d.success))
  }

  /** The active rows of one trajectory, with the figures of its episode. */
  function ActiveRows(d: Trajectories, bs: nat, rows: seq<Row>): seq<Gathered>
    requires bs < |d.rewards| == |d.envRewards| == |d.lengths| == |d.toolCallings|
  {
    if rows == [] then []
    else
      ActiveRows(d, bs, rows[..|rows| - 1])
      + if rows[|rows| - 1].active then [GatheredRow(d, bs, rows[|rows| - 1])] else []
  }

  function GatheredRows(d: Trajectories, k: nat): seq<Gathered>
    requires k <= |d.batchList| == |d.rewards| == |d.envRewards| == |d.lengths| == |d.toolCallings|
  {
    if k == 0 then [] else GatheredRows(d, k - 1) + ActiveRows(d, k - 1, d.batchList[k - 1])
  }

  ghost predicate OwnRows(d: Trajectories) {
    |d.trajUid| == |d.batchList| &&
    forall bs, k | 0 <= bs < |d.batchList| && 0 <= k < |d.batchList[bs]| :: d.batchList[bs][k].trajUid == d.trajUid[bs]
  }

  /** The gathering loop. Its assertion fails exactly when a row is not of its trajectory. */
  method GatherRolloutData(d: Trajectories) returns (r: Result<seq<Gathered>>)
    requires Complete(d)
    ensures r == if OwnRows(d) then Ok(GatheredRows(d, |d.batchList|)) else Err
  {
    var effective: seq<Gathered> := [];
    for bs := 0 to |d.batchList|
      invariant effective == GatheredRows(d, bs)
      invariant forall b, k | 0 <= b < bs && 0 <= k < |d.batchList[b]| :: d.batchList[b][k].trajUid == d.trajUid[b]
    {
      var rows := d.batchList[bs];
      for k := 0 to |rows|
        invariant effective == GatheredRows(d, bs) + ActiveRows(d, bs, rows[..k])
        invariant forall j | 0 <= j < k :: rows[j].trajUid == d.trajUid[bs]
      {
        if d.trajUid[bs] != rows[k].trajUid {
          return Err;
        }
        assert rows[..k + 1][..k] == rows[..k];
        if rows[k].active {
          effective := effective + [GatheredRow(d, bs, rows[k])];
        }
      }
      assert rows[..|rows|] == rows;
    }
    return Ok(effective);
  }

  lemma {:induction false} ActiveRowsArePrefix(d: Trajectories, bs: nat, rows: seq<Row>, length: nat)
    requires Complete(d) && bs < |d.batchList| && length <= |rows|
    requires forall k: nat | k < |rows| :: rows[k].active <==> k < length
    ensures ActiveRows(d, bs, rows) == seq(length, k requires 0 <= k < length => GatheredRow(d, bs, rows[k]))
  {
    if rows == [] {
    } else {
      var last := |rows| - 1;
      ActiveRowsArePrefix(d, bs, rows[..last], if length <= last then length else last);
    }
  }

  /** The sum of the first k lengths. */
  function Total(lengths: seq<nat>, k: nat): nat
    requires k <= |lengths|
  {
    if k == 0 then 0 else Total(lengths, k - 1) + lengths[k - 1]
  }

  /** The trajectories of a finished rollout. */
  ghost predicate OfRollout(d: Trajectories, es: seq<Episode>, env: Environment, n: int, t: nat) {
    Answers(env, |es|) && EpisodesAfter(es, env, n, t) && d == Packed(es, d.success)
  }

  lemma RolloutIsOwn(d: Trajectories, es: seq<Episode>, env: Environment, n: int, t: nat)
    requires OfRollout(d, es, env, n, t)
    ensures Complete(d) && OwnRows(d)
    ensures forall bs: nat | bs < |es| :: |d.batchList[bs]| == t && d.lengths[bs] <= t
    ensures forall bs: nat, k: nat | bs < |es| && k < t :: d.batchList[bs][k].active <==> k < d.lengths[bs]
  {
    forall bs: nat | bs < |es|
      ensures |d.batchList[bs]| == t && d.lengths[bs] <= t
      ensures forall k: nat | k < t :: d.batchList[bs][k].active <==> k < d.lengths[bs]
      ensures forall k: nat | k < t :: d.batchList[bs][k].trajUid == bs
    {
      assert es[bs] == EpisodeAfter(env, |es|, n, bs, t);
      ActivePrefix(env, |es|, n, bs, t);
      forall k: nat | k < t ensures d.batchList[bs][k].trajUid == bs {
        EveryStepRecorded(env, |es|, n, bs, t, k);
      }
    }
  }

  /** An episode gives its active rows, in order, each with the figures of the episode. */
  lemma RowsOfOne(d: Trajectories, es: seq<Episode>, env: Environment, n: int, t: nat, bs: nat)
    requires OfRollout(d, es, env, n, t) && Complete(d) && bs < |es|
    ensures d.lengths[bs] <= |d.batchList[bs]|
    ensures |ActiveRows(d, bs, d.batchList[bs])| == d.lengths[bs]
    ensures forall k: nat | k < d.lengths[bs] ::
              ActiveRows(d, bs, d.batchList[bs])[k] == GatheredRow(d, bs, d.batchList[bs][k])
  {
    RolloutIsOwn(d, es, env, n, t);
    ActiveRowsArePrefix(d, bs, d.batchList[bs], d.lengths[bs]);
  }

  lemma {:induction false} SumOfRows(d: Trajectories, k: nat)
    requires Complete(d) && k <= |d.batchList|
    requires forall bs: nat | bs < k :: |ActiveRows(d, bs, d.batchList[bs])| == d.lengths[bs]
    ensures |GatheredRows(d, k)| == Total(d.lengths, k)
  {
    if k == 0 {
    } else {
      SumOfRows(d, k - 1);
    }
  }

  /** As many rows are gathered as the episodes are long together. */
  lemma RowsAreSumOfLengths(d: Trajectories, es: seq<Episode>, env: Environment, n: int, t: nat)
    requires OfRollout(d, es, env, n, t) && Complete(d)
    ensures |GatheredRows(d, |d.batchList|)| == Total(d.lengths, |d.lengths|)
  {
    forall bs: nat | bs < |d.batchList| ensures |ActiveRows(d, bs, d.batchList[bs])| == d.lengths[bs] {
      RowsOfOne(d, es, env, n, t, bs);
    }
    SumOfRows(d, |d.batchList|);
  }

  /** The mean of some values: count times mean is their sum; there is none for no values. */
  ghost predicate MeanOf(mean: Option<real>, values: seq<real>) {
    match mean
    case Some(m) => values != [] && m * (|values| as real) == SumOf(values)
    case None => values == []
  }

  lemma Quotient(x: real, y: real)
    requires y != 0.0
    ensures x / y * y == x
  {
  }

  lemma MeanExactly(values: seq<real>)
    ensures MeanOf(Mean(values), values)
  {
    if values == [] {
    } else {
      Quotient(SumOf(values), |values| as real);
    }
  }

  /** The rates are the means, under the same keys. */
  lemma RatesAreMeans(success: map<string, seq<real>>)
    ensures SuccessRates(success).Keys == success.Keys
    ensures forall key | key in success :: MeanOf(SuccessRates(success)[key], success[key])
  {
    forall key | key in success ensures MeanOf(SuccessRates(success)[key], success[key]) {
      MeanExactly(success[key]);
    }
  }

  lemma RowAfterRows<T>(before: seq<T>, rows: seq<T>, k: nat)
    requires k < |rows|
    ensures (before + rows)[|before| + k] == rows[k]
  {
  }

  /** Row k of a trajectory is gathered after the rows of the trajectories before it. */
  lemma {:induction false} GatheredAt(d: Trajectories, n: nat, bs: nat, k: nat, at: nat)
    requires Complete(d) && bs < n <= |d.batchList| && k < |ActiveRows(d, bs, d.batchList[bs])|
    requires forall b: nat | b < n :: |ActiveRows(d, b, d.batchList[b])| == d.lengths[b]
    requires at == Total(d.lengths, bs) + k
    ensures at < |GatheredRows(d, n)| && GatheredRows(d, n)[at] == ActiveRows(d, bs, d.batchList[bs])[k]
  {
    if bs == n - 1 {
      SumOfRows(d, bs);
      RowAfterRows(GatheredRows(d, bs), ActiveRows(d, bs, d.batchList[bs]), k);
    } else {
      GatheredAt(d, n - 1, bs, k, at);
    }
  }

  lemma RowFigures(d: Trajectories, es: seq<Episode>, env: Environment, n: int, t: nat, bs: nat, k: nat)
    requires OfRollout(d, es, env, n, t) && Complete(d) && bs < |es| && k < d.lengths[bs]
    ensures k < |d.batchList[bs]|
    ensures var row := GatheredRow(d, bs, d.batchList[bs][k]);
            && row.row.reward == env(k).rewards[bs] && row.row.uid == GroupUid(bs, n) && row.row.trajUid == bs
            && row.totalReward == SumRewards(env, |es|, bs, d.lengths[bs])
            && row.totalReward - row.episodeReward == SumIntrinsic(env, |es|, bs, d.lengths[bs])
            && row.toolCallings == SumToolCalls(env, |es|, bs, d.lengths[bs])
  {
    RolloutIsOwn(d, es, env, n, t);
    assert es[bs] == EpisodeAfter(env, |es|, n, bs, t);
    EveryStepRecorded(env, |es|, n, bs, t, k);
    CountersAreSums(env, |es|, n, bs, t);
    RewardsDifferByIntrinsic(env, |es|, n, bs, t);
  }

  /** Where and with which figures a row is gathered: the reward of its own step; the sums over the active
      prefix of its episode, the environment-only reward as the one that training uses; and the mean
      success. */
  lemma GatheredRowMeans(d: Trajectories, es: seq<Episode>, env: Environment, n: int, t: nat, bs: nat, k: nat, at: nat)
    requires OfRollout(d, es, env, n, t) && Complete(d) && bs < |es| && k < d.lengths[bs]
    requires at == Total(d.lengths, bs) + k
    ensures var rows, length := GatheredRows(d, |d.batchList|), d.lengths[bs];
            && at < |rows| && rows[at].row.reward == env(k).rewards[bs]
            && rows[at].row.uid == GroupUid(bs, n) && rows[at].row.trajUid == bs
            && rows[at].length == length && rows[at].totalReward == SumRewards(env, |es|, bs, length)
            && rows[at].totalReward - rows[at].episodeReward == SumIntrinsic(env, |es|, bs, length)
            && rows[at].toolCallings == SumToolCalls(env, |es|, bs, length)
            && rows[at].success.Keys == d.success.Keys
            && forall key | key in d.success :: MeanOf(rows[at].success[key], d.success[key])
  {
    forall b: nat | b < |d.batchList| ensures |ActiveRows(d, b, d.batchList[b])| == d.lengths[b] {
      RowsOfOne(d, es, env, n, t, b);
    }
    RowsOfOne(d, es, env, n, t, bs);
    GatheredAt(d, |d.batchList|, bs, k, at);
    RatesAreMeans(d.success);
    RowFigures(d, es, env, n, t, bs, k);
  }

  // ----- a whole rollout

  /** What a rollout of t steps hands on of environment i, in terms of what the environment said: the
      episode ends at its first done step, or at the last step; its sums are over that prefix; every step
      is recorded, active up to the end; and its success is what it said at its end. */
  ghost predicate TrajectoryIs(d: Trajectories, env: Environment, size: nat, n: int, t: nat, i: nat)
    requires i < size && Answers(env, size)
  {
    match d
    case Trajectories(batchList, rewards, envRewards, lengths, success, trajUid, toolCallings) =>
      && |batchList| == |rewards| == |envRewards| == |lengths| == |trajUid| == |toolCallings| == size
      && success.Keys == {"success_rate"} && |success["success_rate"]| == size
      && var length := lengths[i];
         && 0 < length <= t && Active(env, size, i, length - 1) && (length < t ==> env(length - 1).dones[i])
         && rewards[i] == SumRewards(env, size, i, length)
         && rewards[i] - envRewards[i] == SumIntrinsic(env, size, i, length)
         && toolCallings[i] == SumToolCalls(env, size, i, length)
         && env(length - 1).infos[i].won == Some(success["success_rate"][i])
         && trajUid[i] == i && |batchList[i]| == t
         && forall k: nat | k < t :: batchList[i][k] == Row(k < length, GroupUid(i, n), i, env(k).rewards[i])
  }

  lemma EpisodeIs(es: seq<Episode>, env: Environment, n: int, t: nat, i: nat)
    requires Answers(env, |es|) && EpisodesAfter(es, env, n, t) && t > 0 && i < |es|
    ensures var e := es[i];
            && 0 < e.length <= t && Active(env, |es|, i, e.length - 1) && (e.length < t ==> env(e.length - 1).dones[i])
            && e.reward == SumRewards(env, |es|, i, e.length)
            && e.reward - e.envReward == SumIntrinsic(env, |es|, i, e.length)
            && e.toolCallings == SumToolCalls(env, |es|, i, e.length) && |e.rows| == t
            && forall k: nat | k < t :: e.rows[k] == Row(k < e.length, GroupUid(i, n), i, env(k).rewards[i])
  {
    assert es[i] == EpisodeAfter(env, |es|, n, i, t);
    ActivePrefix(env, |es|, n, i, t);
    EndsAtDone(env, |es|, n, i, t);
    CountersAreSums(env, |es|, n, i, t);
    RewardsDifferByIntrinsic(env, |es|, n, i, t);
    forall k: nat | k < t ensures es[i].rows[k] == Row(k < es[i].length, GroupUid(i, n), i, env(k).rewards[i]) {
      EveryStepRecorded(env, |es|, n, i, t, k);
    }
  }

  lemma RolledParts(env: Environment, size: nat, n: int, maxSteps: int, d: Trajectories) returns (wins: seq<real>)
    requires Answers(env, size) && size > 0 && Rolled(env, size, n, maxSteps) == Ok(d)
    ensures var es, t := Episodes(env, size, n, maxSteps), StepCount(env, size, n, maxSteps);
            && t > 0 && EpisodesAfter(es, env, n, t)
            && |wins| == size && WinsAre(es, env, wins) && d == Packed(es, map["success_rate" := wins])
  {
    var es, t := Episodes(env, size, n, maxSteps), StepCount(env, size, n, maxSteps);
    EpisodesRecorded(env, size, n, maxSteps);
    StepsEnd(env, size, n, maxSteps, 0);
    RolloutSucceedsExactly(env, size, n, maxSteps);
    OneWinEach(es, env, n, t, size);
    wins := Wins(es, size).value;
  }

  /** A rollout that succeeds hands on exactly this of every environment. */
  lemma RolloutMeans(env: Environment, size: nat, n: int, maxSteps: int, d: Trajectories, i: nat)
    requires Answers(env, size) && i < size && Rolled(env, size, n, maxSteps) == Ok(d)
    ensures TrajectoryIs(d, env, size, n, StepCount(env, size, n, maxSteps), i)
  {
    var es, t := Episodes(env, size, n, maxSteps), StepCount(env, size, n, maxSteps);
    var wins := RolledParts(env, size, n, maxSteps, d);
    EpisodeIs(es, env, n, t, i);
    assert SaysWon(es, env, i) && WonBy(es, env, i).value == wins[i];
  }
}
