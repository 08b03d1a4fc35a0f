/** Multi-turn rollouts: parallel environments stepped together, each counted until it is done. The
    environments and the model behind them are an arbitrary source of step outcomes. */
module Rollout {
  import opened Outcomes

  /** What an environment says about one step. The keys of the dictionary that may be missing are
      optional. */
  datatype Info = Info(won: Option<real>, intrinsic: Option<real>, toolCalling: Option<real>)

  datatype Outcome = Outcome(rewards: seq<real>, dones: seq<bool>, infos: seq<Info>)

  /** The outcomes of the steps, in order, for a batch of at least one environment. */
  type Environment = nat -> Outcome

  ghost predicate Answers(env: Environment, size: nat) {
    forall t: nat :: |env(t).rewards| == |env(t).dones| == |env(t).infos| == size
  }

  /** One recorded row of a trajectory. */
  datatype Row = Row(active: bool, uid: nat, trajUid: nat, reward: real)

  /** Everything kept about one environment. */
  datatype Episode = Episode(done: bool, length: nat, reward: real, envReward: real, toolCallings: real,
                             rows: seq<Row>, infos: seq<Info>)

  const START := Episode(false, 0, 0.0, 0.0, 0.0, [], [])

  function Or0(x: Option<real>): real {
    if x.Some? then x.value else 0.0
  }

  /** The intrinsic reward that is subtracted for environment i: only when the first environment
      reports one. */
  function Intrinsic(o: Outcome, i: nat): real
    requires i < |o.infos|
  {
    if o.infos[0].intrinsic.Some? then Or0(o.infos[i].intrinsic) else 0.0
  }

  function ToolCalls(o: Outcome, i: nat): real
    requires i < |o.infos|
  {
    if o.infos[0].toolCalling.Some? then Or0(o.infos[i].toolCalling) else 0.0
  }

  /** Tool calls are read from every environment as soon as the first one reports them. */
  predicate ToolCallsMissing(o: Outcome)
    requires o.infos != []
  {
    o.infos[0].toolCalling.Some? && exists i :: 0 <= i < |o.infos| && o.infos[i].toolCalling.None?
  }

  /** One step of one environment: the counters move only while it is active; a row is recorded
      either way. */
  function AfterStep(e: Episode, o: Outcome, i: nat, uid: nat, trajUid: nat): Episode
    requires i < |o.rewards| == |o.dones| == |o.infos|
  {
    var active := !e.done;
    Episode(
      e.done || o.dones[i],
      e.length + (if active then 1 else 0),
      e.reward + (if active then o.rewards[i] else 0.0),
      e.envReward + (if active then o.rewards[i] - Intrinsic(o, i) else 0.0),
      e.toolCallings + (if active then ToolCalls(o, i) else 0.0),
      e.rows + [Row(active, uid, trajUid, o.rewards[i])],
      e.infos + [o.infos[i]])
  }

  /** The group of an environment: n consecutive ones share a uid; without grouping all do. */
  function GroupUid(i: nat, n: int): nat {
    if n > 0 then i / n else 0
  }

  /** The episode of environment i after t steps. */
  function EpisodeAfter(env: Environment, size: nat, n: int, i: nat, t: nat): Episode
    requires i < size && Answers(env, size)
  {
    if t == 0 then START else AfterStep(EpisodeAfter(env, size, n, i, t - 1), env(t - 1), i, GroupUid(i, n), i)
  }

  ghost predicate AllDone(env: Environment, size: nat, n: int, t: nat)
    requires Answers(env, size)
  {
    forall i: nat | i < size :: EpisodeAfter(env, size, n, i, t).done
  }

  // ----- success

  /** Whether the environment was won at the last active row. None when no row is active, an error
      when that step does not say. */
  function WonAtLast(rows: seq<Row>, infos: seq<Info>): Result<Option<real>>
    requires |rows| == |infos|
  {
    if rows == [] then Ok(None)
    else if rows[|rows| - 1].active then
      if infos[|rows| - 1].won.None? then Err else Ok(Some(infos[|rows| - 1].won.value))
    else WonAtLast(rows[..|rows| - 1], infos[..|rows| - 1])
  }

  /** The wins collected over the first k environments. */
  function Wins(episodes: seq<Episode>, k: nat): Result<seq<real>>
    requires k <= |episodes| && forall e | e in episodes :: |e.rows| == |e.infos|
  {
    if k == 0 then Ok([])
    else
      var before :- Wins(episodes, k - 1);
      var won :- WonAtLast(episodes[k - 1].rows, episodes[k - 1].infos);
      Ok(if won.Some? then before + [won.value] else before)
  }

  /** What a rollout hands on. */
  datatype Trajectories = Trajectories(batchList: seq<seq<Row>>, rewards: seq<real>, envRewards: seq<real>,
                                       lengths: seq<nat>, success: map<string, seq<real>>, trajUid: seq<nat>,
                                       toolCallings: seq<real>)

  // ----- the loops

  /** The scan for the last active row of one environment. */
  method ProcessBatch(rows: seq<Row>, infos: seq<Info>) returns (won: Result<Option<real>>)
    requires |rows| == |infos|
    ensures won == WonAtLast(rows, infos)
  {
    var i := |rows|;
    assert rows[..i] == rows && infos[..i] == infos;
    while i > 0
      invariant 0 <= i <= |rows|
      invariant WonAtLast(rows[..i], infos[..i]) == WonAtLast(rows, infos)
      decreases i
    {
      i := i - 1;
      assert rows[..i + 1][..i] == rows[..i] && infos[..i + 1][..i] == infos[..i];
      if rows[i].active {
        if infos[i].won.None? {
          return Err;
        }
        return Ok(Some(infos[i].won.value));
      }
    }
    return Ok(None);
  }

  lemma {:induction false} WinsFail(episodes: seq<Episode>, k: nat)
    requires k <= |episodes| && forall e | e in episodes :: |e.rows| == |e.infos|
    requires Wins(episodes, k).Err?
    ensures Wins(episodes, |episodes|).Err?
    decreases |episodes| - k
  {
    if k < |episodes| {
      WinsFail(episodes, k + 1);
    }
  }

  /** The default success evaluation, with its assertion that every environment gave one value. */
  method SuccessEvaluator(episodes: seq<Episode>) returns (success: Result<map<string, seq<real>>>)
    requires forall e | e in episodes :: |e.rows| == |e.infos|
    ensures success == match Wins(episodes, |episodes|)
                       case Ok(wins) => if |wins| == |episodes| then Ok(map["success_rate" := wins]) else Err
                       case Err => Err
  {
    var wins: seq<real> := [];
    for bs := 0 to |episodes|
      invariant Wins(episodes, bs) == Ok(wins)
    {
      var won := ProcessBatch(episodes[bs].rows, episodes[bs].infos);
      if won.Err? {
        WinsFail(episodes, bs + 1);
        return Err;
      }
      if won.value.Some? {
        wins := wins + [won.value.value];
      }
    }
    if |wins| != |episodes| {
      return Err;
    }
    return Ok(map["success_rate" := wins]);
  }

  /** One step over all the environments. */
  method RecordStep(episodes: array<Episode>, ghost env: Environment, o: Outcome, n: int, ghost t: nat)
    requires episodes.Length > 0 && Answers(env, episodes.Length) && o == env(t)
    requires forall i: nat | i < episodes.Length :: episodes[i] == EpisodeAfter(env, episodes.Length, n, i, t)
    modifies episodes
    ensures forall i: nat | i < episodes.Length :: episodes[i] == EpisodeAfter(env, episodes.Length, n, i, t + 1)
  {
    for i := 0 to episodes.Length
      invariant forall j: nat | j < i :: episodes[j] == EpisodeAfter(env, episodes.Length, n, j, t + 1)
      invariant forall j: nat | i <= j < episodes.Length :: episodes[j] == EpisodeAfter(env, episodes.Length, n, j, t)
    {
      episodes[i] := AfterStep(episodes[i], o, i, GroupUid(i, n), i);
    }
  }

  method EveryoneDone(episodes: array<Episode>) returns (all: bool)
    ensures all <==> forall i: nat | i < episodes.Length :: episodes[i].done
  {
    for i := 0 to episodes.Length
      invariant forall j: nat | j < i :: episodes[j].done
    {
      if !episodes[i].done {
        return false;
      }
    }
    return true;
  }

  function Lengths(es: seq<Episode>): seq<nat> {
    seq(|es|, i requires 0 <= i < |es| => es[i].length)
  }

  function Rewards(es: seq<Episode>): seq<real> {
    seq(|es|, i requires 0 <= i < |es| => es[i].reward)
  }

  function EnvRewards(es: seq<Episode>): seq<real> {
    seq(|es|, i requires 0 <= i < |es| => es[i].envReward)
  }

  function AllToolCallings(es: seq<Episode>): seq<real> {
    seq(|es|, i requires 0 <= i < |es| => es[i].toolCallings)
  }

  function AllRows(es: seq<Episode>): seq<seq<Row>> {
    seq(|es|, i requires 0 <= i < |es| => es[i].rows)
  }

  function Packed(es: seq<Episode>, success: map<string, seq<real>>): Trajectories {
    Trajectories(AllRows(es), Rewards(es), EnvRewards(es), Lengths(es), success, seq(|es|, i requires 0 <= i => i),
                 AllToolCallings(es))
  }

  /** The number of steps taken, once t are: none after all the environments are done, and none beyond
      the limit. */
  ghost function StepsFrom(env: Environment, size: nat, n: int, maxSteps: int, t: nat): (steps: nat)
    requires Answers(env, size)
    ensures steps >= t
    decreases maxSteps - t
  {
    if t >= maxSteps || (t > 0 && AllDone(env, size, n, t)) then t else StepsFrom(env, size, n, maxSteps, t + 1)
  }

  ghost function StepCount(env: Environment, size: nat, n: int, maxSteps: int): nat
    requires Answers(env, size)
  {
    StepsFrom(env, size, n, maxSteps, 0)
  }

  /** A step taken reads tool calls that some environment does not report. */
  ghost predicate MissingIn(env: Environment, steps: nat) {
    exists k: nat :: k < steps && env(k).infos != [] && ToolCallsMissing(env(k))
  }

  /** The episodes of the finished loop. */
  ghost function Episodes(env: Environment, size: nat, n: int, maxSteps: int): seq<Episode>
    requires Answers(env, size)
  {
    seq(size, i requires 0 <= i < size => EpisodeAfter(env, size, n, i, StepCount(env, size, n, maxSteps)))
  }

  /** The episodes after some number of steps. */
  ghost predicate EpisodesAfter(es: seq<Episode>, env: Environment, n: int, t: nat)
    requires Answers(env, |es|)
  {
    forall i: nat | i < |es| :: es[i] == EpisodeAfter(env, |es|, n, i, t)
  }

  /** The loop ends at the first step after which all are done, or at its limit. */
  lemma {:induction false} StepsEnd(env: Environment, size: nat, n: int, maxSteps: int, t: nat)
    requires Answers(env, size)
    ensures var steps := StepsFrom(env, size, n, maxSteps, t);
            && (steps < maxSteps ==> steps > 0 && AllDone(env, size, n, steps))
            && (t < maxSteps ==> steps <= maxSteps) && (t >= maxSteps ==> steps == t)
            && (t == 0 < maxSteps ==> steps > 0)
            && forall k: nat | 0 < k && t <= k < steps :: !AllDone(env, size, n, k)
    decreases maxSteps - t
  {
    if t < maxSteps && !(t > 0 && AllDone(env, size, n, t)) {
      StepsEnd(env, size, n, maxSteps, t + 1);
    }
  }

  lemma {:induction false} RowsPerStep(env: Environment, size: nat, n: int, i: nat, t: nat)
    requires i < size && Answers(env, size)
    ensures |EpisodeAfter(env, size, n, i, t).rows| == |EpisodeAfter(env, size, n, i, t).infos| == t
  {
    if t == 0 {
    } else {
      RowsPerStep(env, size, n, i, t - 1);
    }
  }

  lemma EpisodesRecorded(env: Environment, size: nat, n: int, maxSteps: int)
    requires Answers(env, size)
    ensures forall e | e in Episodes(env, size, n, maxSteps) :: |e.rows| == |e.infos|
  {
    var es, t := Episodes(env, size, n, maxSteps), StepCount(env, size, n, maxSteps);
    forall i | 0 <= i < |es| ensures |es[i].rows| == |es[i].infos| {
      RowsPerStep(env, size, n, i, t);
    }
  }

  /** What a rollout amounts to: an error for an empty batch, for tool calls or wins that are not
      reported, and for the failed assertion on their number; else the episodes after the steps taken. */
  ghost function Rolled(env: Environment, size: nat, n: int, maxSteps: int): Result<Trajectories>
    requires Answers(env, size)
  {
    if maxSteps > 0 && (size == 0 || MissingIn(env, StepCount(env, size, n, maxSteps))) then Err
    else
      EpisodesRecorded(env, size, n, maxSteps);
      var es := Episodes(env, size, n, maxSteps);
      var wins :- Wins(es, size);
      if |wins| == size then Ok(Packed(es, map["success_rate" := wins])) else Err
  }

  lemma NoneMissing(env: Environment, steps: nat)
    requires !MissingIn(env, steps) && env(steps).infos != [] && !ToolCallsMissing(env(steps))
    ensures !MissingIn(env, steps + 1)
  {
  }

  lemma EpisodesAre(es: seq<Episode>, env: Environment, n: int, maxSteps: int, t: nat)
    requires Answers(env, |es|) && t == StepCount(env, |es|, n, maxSteps)
    requires forall i: nat | i < |es| :: es[i] == EpisodeAfter(env, |es|, n, i, t)
    ensures es == Episodes(env, |es|, n, maxSteps)
  {
  }

  /** The collection loop. It fails exactly when the batch is empty or a tool call count is missing at a
      step taken. */
  method CollectEpisodes(size: nat, n: int, maxSteps: int, env: Environment) returns (r: Result<seq<Episode>>)
    requires Answers(env, size)
    ensures r == if maxSteps > 0 && (size == 0 || MissingIn(env, StepCount(env, size, n, maxSteps))) then Err
                 else Ok(Episodes(env, size, n, maxSteps))
  {
    var episodes := new Episode[size](_ => START);
    var step: nat, all := 0, false;
    while step < maxSteps && !all
      invariant StepsFrom(env, size, n, maxSteps, step) == StepCount(env, size, n, maxSteps)
      invariant forall i: nat | i < size :: episodes[i] == EpisodeAfter(env, size, n, i, step)
      invariant all == (step > 0 && AllDone(env, size, n, step)) && (step > 0 ==> size > 0 && maxSteps > 0)
      invariant !MissingIn(env, step)
    {
      var o := env(step);
      if o.infos == [] || ToolCallsMissing(o) {
        return Err;
      }
      NoneMissing(env, step);
      RecordStep(episodes, env, o, n, step);
      step := step + 1;
      all := EveryoneDone(episodes);
    }
    EpisodesAre(episodes[..], env, n, maxSteps, step);
    return Ok(episodes[..]);
  }

  /** The vanilla rollout. */
  method VanillaMultiTurnLoop(size: nat, n: int, maxSteps: int, env: Environment) returns (r: Result<Trajectories>)
    requires Answers(env, size)
    ensures r == Rolled(env, size, n, maxSteps)
  {
    EpisodesRecorded(env, size, n, maxSteps);
    var episodes :- CollectEpisodes(size, n, maxSteps, env);
    var success :- SuccessEvaluator(episodes);
    return Ok(Packed(episodes, success));
  }
}
