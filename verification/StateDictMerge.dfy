/** The checkpoint merger: it walks the chunks of all pipeline stages, renumbers the decoder layers
    with a running counter, joins the tensor-parallel shards and splits the fused weights. */
module StateDictMerge {
  import opened Outcomes
  import opened LayerOffsets
  import opened ParameterNames

  /** A state dictionary: its keys in insertion order, and its tensors. */
  datatype Dict<T> = Dict(keys: seq<Path>, values: map<Path, T>)

  /** Saved chunks by pipeline stage, tensor-parallel rank and round. */
  type Saved<T> = seq<seq<seq<Dict<T>>>>

  /** The joining of the shards of one parameter, by kind of parameter. */
  datatype Joiner<!T> = Joiner(gateUp: seq<T> -> Result<(T, T)>, qkv: seq<T> -> Result<(T, T, T)>,
                               concat: (nat, seq<T>) -> Result<T>)

  datatype Options = Options(tied: bool, valueModel: bool)

  datatype Write<T> = Write(key: Path, value: T)

  // ----- tests on names

  predicate EndsIn(w: Word, tail: string) {
    w.Name? && |tail| <= |w.text| && w.text[|w.text| - |tail|..] == tail
  }

  predicate Begins(w: Word, head: string) {
    w.Name? && |head| <= |w.text| && w.text[..|head|] == head
  }

  /** `"tail.head" in key`. */
  predicate Joint(key: Path, tail: string, head: string) {
    exists i :: 0 <= i < |key| - 1 && EndsIn(key[i], tail) && Begins(key[i + 1], head)
  }

  predicate MiddleAt(key: Path, i: int, tail: string, word: string) {
    0 <= i < |key| - 2 && EndsIn(key[i], tail) && key[i + 1] == Name(word)
  }

  /** `"tail.word." in key`. */
  predicate Middle(key: Path, tail: string, word: string) {
    exists i :: 0 <= i < |key| && MiddleAt(key, i, tail, word)
  }

  predicate InDecoder(key: Path) {
    Middle(key, "decoder", "layers")
  }

  datatype Kind = GateUp | Qkv | Replicated | Cut(dim: nat)

  function KindOf(key: Path, valueModel: bool): Kind {
    if Joint(key, "linear_fc1", "weight") then GateUp
    else if Middle(key, "self_attention", "linear_qkv") && !Mentions(key, "layer_norm") then Qkv
    else if Mentions(key, "layer_norm") || Mentions(key, "layernorm")
            || (Mentions(key, "output_layer") && valueModel) then
      Replicated
    else Cut(if Joint(key, "linear_fc2", "weight") || Joint(key, "self_attention", "linear_proj") then 1 else 0)
  }

  // ----- one key

  predicate Skipped(key: Path, o: Options) {
    Mentions(key, "extra_state") || (o.tied && Mentions(key, "output_layer"))
  }

  predicate Kept(key: Path, o: Options) {
    !Skipped(key, o) && InDecoder(key)
  }

  function LocalLayer(key: Path): Result<int> {
    if |key| > 2 && key[2].Number? then Ok(key[2].value) else Err
  }

  /** The key in the whole model of a key of a chunk that starts at layer `cum`. */
  function NewKey(key: Path, cum: int): Result<Path> {
    if !InDecoder(key) then Ok(key)
    else if LocalLayer(key).Err? then Err else Ok(Renumbered(key, 2, cum))
  }

  const Q := "linear_q"
  const K := "linear_k"
  const V := "linear_v"
  const QKV := "linear_qkv"
  const FC1 := "linear_fc1"
  const GATE := "gate_proj"
  const UP := "up_proj"

  /** What joining the shards of one parameter writes into the merged dictionary. */
  function Joined<T>(key: Path, data: seq<T>, join: Joiner<T>, valueModel: bool): Result<seq<Write<T>>> {
    match KindOf(key, valueModel)
    case GateUp =>
      var both :- join.gateUp(data);
      Ok([Write(ReplaceIn(key, FC1, GATE), both.0), Write(ReplaceIn(key, FC1, UP), both.1)])
    case Qkv =>
      var three :- join.qkv(data);
      Ok([Write(ReplaceIn(key, QKV, Q), three.0), Write(ReplaceIn(key, QKV, K), three.1),
          Write(ReplaceIn(key, QKV, V), three.2)])
    case Replicated => if data == [] then Err else Ok([Write(key, data[0])])
    case Cut(dim) =>
      var whole :- join.concat(dim, data);
      Ok([Write(key, whole)])
  }

  /** The shards of a key; an error when a rank does not have it. */
  function Gathered<T>(ranks: seq<Dict<T>>, key: Path): Result<seq<T>> {
    if ranks == [] then Ok([])
    else
      var before :- Gathered(ranks[..|ranks| - 1], key);
      if key in ranks[|ranks| - 1].values then Ok(before + [ranks[|ranks| - 1].values[key]]) else Err
  }

  function KeyWrites<T>(ranks: seq<Dict<T>>, key: Path, cum: int, join: Joiner<T>, o: Options): Result<seq<Write<T>>> {
    if Skipped(key, o) then Ok([])
    else
      var newKey :- NewKey(key, cum);
      var data :- Gathered(ranks, key);
      Joined(newKey, data, join, o.valueModel)
  }

  // ----- one chunk, and all the chunks in order

  function Max(x: int, y: int): int {
    if x < y then y else x
  }

  /** The highest local layer among the keys, at least 0. */
  function Handled(keys: seq<Path>, o: Options): (n: nat) {
    if keys == [] then 0
    else
      var before, key := Handled(keys[..|keys| - 1], o), keys[|keys| - 1];
      if Kept(key, o) && LocalLayer(key).Ok? then Max(LocalLayer(key).value, before) else before
  }

  function ChunkWrites<T>(ranks: seq<Dict<T>>, keys: seq<Path>, cum: int, join: Joiner<T>, o: Options):
    Result<seq<Write<T>>>
  {
    if keys == [] then Ok([])
    else
      var before :- ChunkWrites(ranks, keys[..|keys| - 1], cum, join, o);
      var here :- KeyWrites(ranks, keys[|keys| - 1], cum, join, o);
      Ok(before + here)
  }

  /** All the dictionaries are there: what the loader hands on. */
  ghost predicate Loaded<T>(saved: Saved<T>, tpSize: nat, ppSize: nat, vppSize: nat) {
    && ppSize > 0 && tpSize > 0 && |saved| == ppSize
    && (forall ranks | ranks in saved :: |ranks| == tpSize)
    && (forall ranks, chunks | ranks in saved && chunks in ranks :: |chunks| == vppSize)
  }

  /** The dictionaries of one chunk, by tensor-parallel rank. */
  function Ranks<T>(saved: Saved<T>, stage: nat, round: nat): seq<Dict<T>> {
    if stage >= |saved| then []
    else seq(|saved[stage]|, i requires 0 <= i < |saved[stage]| =>
               if round < |saved[stage][i]| then saved[stage][i][round] else Dict([], map[]))
  }

  /** The keys of a chunk: those of its first rank. */
  function ChunkKeys<T>(saved: Saved<T>, stage: nat, round: nat): seq<Path> {
    if stage < |saved| && |saved[stage]| > 0 && round < |saved[stage][0]| then saved[stage][0][round].keys else []
  }

  /** What the running counter advances by after a chunk. */
  function Steps<T>(saved: Saved<T>, o: Options): (nat, nat) -> int {
    (stage: nat, round: nat) => Handled(ChunkKeys(saved, stage, round), o) + 1
  }

  function Counter<T>(saved: Saved<T>, o: Options, stage: nat, round: nat): int
    requires |saved| > 0
  {
    Start(Steps(saved, o), |saved|, stage, round)
  }

  /** The writes of one chunk. */
  function OfChunk<T>(saved: Saved<T>, stage: nat, round: nat, join: Joiner<T>, o: Options): Result<seq<Write<T>>>
    requires |saved| > 0
  {
    ChunkWrites(Ranks(saved, stage, round), ChunkKeys(saved, stage, round), Counter(saved, o, stage, round), join, o)
  }

  function Both<T>(a: Result<seq<Write<T>>>, b: Result<seq<Write<T>>>): Result<seq<Write<T>>> {
    if a.Err? || b.Err? then Err else Ok(a.value + b.value)
  }

  /** The writes of the chunks before a given one. */
  function WritesBefore<T>(saved: Saved<T>, stage: nat, round: nat, join: Joiner<T>, o: Options): Result<seq<Write<T>>>
    requires |saved| > 0
    decreases round, stage
  {
    if stage > 0 then Both(WritesBefore(saved, stage - 1, round, join, o), OfChunk(saved, stage - 1, round, join, o))
    else if round > 0 then WritesBefore(saved, |saved|, round - 1, join, o)
    else Ok([])
  }

  function Apply<T>(state: map<Path, T>, writes: seq<Write<T>>): map<Path, T> {
    if writes == [] then state
    else
      var w := writes[|writes| - 1];
      Apply(state, writes[..|writes| - 1])[w.key := w.value]
  }

  lemma {:induction false} ApplyAppend<T>(state: map<Path, T>, a: seq<Write<T>>, b: seq<Write<T>>)
    ensures Apply(state, a + b) == Apply(Apply(state, a), b)
  {
    if b == [] {
      assert a + b == a;
    } else {
      ApplyAppend(state, a, b[..|b| - 1]);
      assert (a + b)[..|a + b| - 1] == a + b[..|b| - 1];
    }
  }

  // ----- the loops

  lemma {:induction false} GatheredFails<T>(ranks: seq<Dict<T>>, key: Path, n: nat)
    requires n <= |ranks| && Gathered(ranks[..n], key).Err?
    ensures Gathered(ranks, key).Err?
    decreases |ranks| - n
  {
    if n < |ranks| {
      assert ranks[..n + 1][..n] == ranks[..n];
      GatheredFails(ranks, key, n + 1);
    } else {
      assert ranks[..n] == ranks;
    }
  }

  method GatherShards<T>(ranks: seq<Dict<T>>, key: Path) returns (data: Result<seq<T>>)
    ensures data == Gathered(ranks, key)
  {
    var shards := [];
    for i := 0 to |ranks|
      invariant Gathered(ranks[..i], key) == Ok(shards)
    {
      assert ranks[..i + 1][..i] == ranks[..i];
      if key !in ranks[i].values {
        GatheredFails(ranks, key, i + 1);
        return Err;
      }
      shards := shards + [ranks[i].values[key]];
    }
    assert ranks[..|ranks|] == ranks;
    return Ok(shards);
  }

  lemma {:induction false} ChunkFails<T>(ranks: seq<Dict<T>>, keys: seq<Path>, cum: int, join: Joiner<T>, o: Options,
                                         n: nat)
    requires n <= |keys| && ChunkWrites(ranks, keys[..n], cum, join, o).Err?
    ensures ChunkWrites(ranks, keys, cum, join, o).Err?
    decreases |keys| - n
  {
    if n < |keys| {
      assert keys[..n + 1][..n] == keys[..n];
      ChunkFails(ranks, keys, cum, join, o, n + 1);
    } else {
      assert keys[..n] == keys;
    }
  }

  datatype Merged<T> = Merged(state: map<Path, T>, handled: nat)

  method WriteAll<T>(start: map<Path, T>, writes: seq<Write<T>>) returns (state: map<Path, T>)
    ensures state == Apply(start, writes)
  {
    state := start;
    for i := 0 to |writes|
      invariant state == Apply(start, writes[..i])
    {
      assert writes[..i + 1][..i] == writes[..i];
      state := state[writes[i].key := writes[i].value];
    }
    assert writes[..|writes|] == writes;
  }

  /** The loop over the keys of one chunk. */
  method MergeChunk<T>(ranks: seq<Dict<T>>, keys: seq<Path>, cum: int, join: Joiner<T>, o: Options, start: map<Path, T>)
    returns (r: Result<Merged<T>>)
    ensures r == match ChunkWrites(ranks, keys, cum, join, o)
                 case Ok(writes) => Ok(Merged(Apply(start, writes), Handled(keys, o)))
                 case Err => Err
  {
    var state, handled: nat := start, 0;
    ghost var done: seq<Write<T>> := [];
    for i := 0 to |keys|
      invariant ChunkWrites(ranks, keys[..i], cum, join, o) == Ok(done)
      invariant state == Apply(start, done) && handled == Handled(keys[..i], o)
    {
      var key := keys[i];
      assert keys[..i + 1][..i] == keys[..i] && keys[..i + 1][i] == key;
      if KeyWrites(ranks, key, cum, join, o).Err? {
        ChunkFails(ranks, keys, cum, join, o, i + 1);
      } else {
        ApplyAppend(start, done, KeyWrites(ranks, key, cum, join, o).value);
        done := done + KeyWrites(ranks, key, cum, join, o).value;
      }
      if Skipped(key, o) {
        continue;
      }
      var newKey := key;
      if InDecoder(key) {
        var local :- LocalLayer(key);
        handled := Max(local, handled);
        newKey := Renumbered(key, 2, cum);
      }
      var data :- GatherShards(ranks, key);
      var writes :- Joined(newKey, data, join, o.valueModel);
      state := WriteAll(state, writes);
    }
    assert keys[..|keys|] == keys;
    return Ok(Merged(state, handled));
  }

  /** A failure in one chunk fails the whole merge. */
  lemma {:induction false} MergeFails<T>(saved: Saved<T>, stage: nat, round: nat, join: Joiner<T>, o: Options,
                                         rounds: nat)
    requires |saved| > 0 && stage <= |saved| && round < rounds
    requires WritesBefore(saved, stage, round, join, o).Err?
    ensures WritesBefore(saved, 0, rounds, join, o).Err?
    decreases rounds - round, |saved| - stage
  {
    if stage < |saved| {
      MergeFails(saved, stage + 1, round, join, o, rounds);
    } else if round + 1 < rounds {
      MergeFails(saved, 0, round + 1, join, o, rounds);
    }
  }

  lemma CounterRound<T>(saved: Saved<T>, o: Options, round: nat)
    requires |saved| > 0
    ensures Counter(saved, o, |saved|, round) == Counter(saved, o, 0, round + 1)
  {
  }

  /** The state after the chunks before a given one. */
  function StateBefore<T>(saved: Saved<T>, stage: nat, round: nat, join: Joiner<T>, o: Options): Result<map<Path, T>>
    requires |saved| > 0
  {
    match WritesBefore(saved, stage, round, join, o)
    case Ok(writes) => Ok(Apply(map[], writes))
    case Err => Err
  }

  lemma ChunkStep<T>(saved: Saved<T>, stage: nat, round: nat, join: Joiner<T>, o: Options, rounds: nat,
                     state: map<Path, T>)
    requires stage < |saved| && round < rounds && StateBefore(saved, stage, round, join, o) == Ok(state)
    ensures match OfChunk(saved, stage, round, join, o)
            case Ok(writes) => StateBefore(saved, stage + 1, round, join, o) == Ok(Apply(state, writes))
            case Err => StateBefore(saved, 0, rounds, join, o).Err?
  {
    match OfChunk(saved, stage, round, join, o)
    case Ok(writes) => ApplyAppend(map[], WritesBefore(saved, stage, round, join, o).value, writes);
    case Err => MergeFails(saved, stage + 1, round, join, o, rounds);
  }

  /** The loop over the stages, in one round. */
  method MergeRound<T>(saved: Saved<T>, tpSize: nat, ppSize: nat, round: nat, join: Joiner<T>, o: Options,
                       start: map<Path, T>, cum: int, ghost rounds: nat)
    returns (r: Result<map<Path, T>>, layersCum: int)
    requires Loaded(saved, tpSize, ppSize, rounds) && round < rounds
    requires StateBefore(saved, 0, round, join, o) == Ok(start) && cum == Counter(saved, o, 0, round)
    ensures r.Ok? ==> StateBefore(saved, ppSize, round, join, o) == r && layersCum == Counter(saved, o, ppSize, round)
    ensures r.Err? ==> StateBefore(saved, 0, rounds, join, o).Err?
  {
    var state := start;
    layersCum := cum;
    for stage := 0 to ppSize
      invariant StateBefore(saved, stage, round, join, o) == Ok(state) && layersCum == Counter(saved, o, stage, round)
    {
      assert saved[stage] in saved && saved[stage][0] in saved[stage];
      var ranks, keys := Ranks(saved, stage, round), saved[stage][0][round].keys;
      ChunkStep(saved, stage, round, join, o, rounds, state);
      var chunk := MergeChunk(ranks, keys, layersCum, join, o, state);
      if chunk.Err? {
        return Err, layersCum;
      }
      state := chunk.value.state;
      layersCum := layersCum + chunk.value.handled + 1;
    }
    return Ok(state), layersCum;
  }

  /** The merge of a whole checkpoint: it fails exactly when some parameter cannot be merged, and
      otherwise holds the result of all the writes, in the order of the loops. */
  method MergeStateDicts<T>(saved: Saved<T>, tpSize: nat, ppSize: nat, join: Joiner<T>, o: Options, ghost vppSize: nat)
    returns (r: Result<map<Path, T>>)
    requires Loaded(saved, tpSize, ppSize, vppSize)
    ensures r == StateBefore(saved, 0, vppSize, join, o)
  {
    var state: map<Path, T>, layersCum := map[], 0;
    assert saved[0] in saved && saved[0][0] in saved[0];
    for round := 0 to |saved[0][0]|
      invariant StateBefore(saved, 0, round, join, o) == Ok(state) && layersCum == Counter(saved, o, 0, round)
    {
      var merged, cum := MergeRound(saved, tpSize, ppSize, round, join, o, state, layersCum, vppSize);
      if merged.Err? {
        return Err;
      }
      CounterRound(saved, o, round);
      state, layersCum := merged.value, cum;
    }
    return Ok(state);
  }
}
