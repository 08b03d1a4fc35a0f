/** What the merged checkpoint holds: every parameter under its own name in the whole model, joined from
    its shards the way its name asks for, and nothing else. */
module MergedWeights {
  import opened Outcomes
  import opened LayerOffsets
  import opened ParameterNames
  import opened StateDictMerge
  import opened StateDictMergeLaws

  // ----- the tests on names, word by word

  predicate StretchAt(part: string, text: string, i: nat) {
    i + |part| <= |text| && text[i..i + |part|] == part
  }

  lemma StretchOn(part: string, text: string, i: nat)
    requires text != []
    ensures StretchAt(part, text[1..], i) <==> StretchAt(part, text, i + 1)
  {
    assert i + |part| <= |text| - 1 ==> text[1..][i..i + |part|] == text[i + 1..i + 1 + |part|];
  }

  /** A part is within a text when some stretch of the text is the part. */
  lemma {:induction false} WithinExactly(part: string, text: string)
    ensures Within(part, text) <==> exists i: nat :: StretchAt(part, text, i)
  {
    if |part| > |text| {
    } else if text[..|part|] == part {
      assert StretchAt(part, text, 0);
    } else {
      WithinExactly(part, text[1..]);
      if Within(part, text[1..]) {
        var i: nat :| StretchAt(part, text[1..], i);
        StretchOn(part, text, i);
      }
      if i: nat :| StretchAt(part, text, i) {
        StretchOn(part, text, i - 1);
      }
    }
  }

  /** Two whole words in a row are found. */
  lemma WordsAreJoint(key: Path, tail: string, head: string, i: nat)
    requires i + 1 < |key| && key[i] == Name(tail) && key[i + 1].Name? && head <= key[i + 1].text
    ensures Joint(key, tail, head)
  {
    assert EndsIn(key[i], tail) && Begins(key[i + 1], head);
  }

  /** What is found ends one word and begins the next. */
  lemma JointWords(key: Path, tail: string, head: string) returns (i: nat)
    requires Joint(key, tail, head)
    ensures i + 1 < |key| && key[i].Name? && Within(tail, key[i].text)
    ensures key[i + 1].Name? && head <= key[i + 1].text
  {
    i :| 0 <= i < |key| - 1 && EndsIn(key[i], tail) && Begins(key[i + 1], head);
    SuffixWithin(tail, key[i].text);
  }

  /** The key of a decoder layer, as the training framework writes it. */
  predicate LayerKey(key: Path) {
    |key| > 3 && key[0] == Name("decoder") && key[1] == Name("layers") && key[2].Number?
  }

  lemma LayerKeyInDecoder(key: Path)
    ensures LayerKey(key) ==> InDecoder(key)
    ensures Name("layers") !in key ==> !InDecoder(key)
  {
    if LayerKey(key) {
      assert EndsIn(key[0], "decoder");
      assert MiddleAt(key, 0, "decoder", "layers");
    }
  }

  /** The key in the whole model, of a chunk that starts at layer `cum`. */
  function InModel(key: Path, cum: int): Path {
    seq(|key|, j requires 0 <= j < |key| => if j == 2 && LayerKey(key) then Number(key[2].value + cum) else key[j])
  }

  /** One word for another. */
  function Swapped(key: Path, from: string, to: string): Path {
    seq(|key|, j requires 0 <= j < |key| => if key[j] == Name(from) then Name(to) else key[j])
  }

  lemma NewKeyIs(key: Path, cum: int)
    requires LayerKey(key) || Name("layers") !in key
    ensures NewKey(key, cum) == Ok(InModel(key, cum))
  {
    LayerKeyInDecoder(key);
    if LayerKey(key) {
      assert Renumbered(key, 2, cum) == InModel(key, cum);
    } else {
      assert key == InModel(key, cum);
    }
  }

  lemma ReplacedIsSwapped(key: Path, from: string, to: string)
    requires Plain(key) && PartOf(from, to)
    ensures ReplaceIn(key, from, to) == Swapped(key, from, to)
  {
    forall j | 0 <= j < |key| ensures ReplaceIn(key, from, to)[j] == Swapped(key, from, to)[j] {
      ReplacedIn(key, from, to, j);
    }
  }

  /** The number in the whole model changes no test on the words. */
  lemma SameMentions(key: Path, cum: int, part: string)
    ensures Mentions(InModel(key, cum), part) <==> Mentions(key, part)
  {
    var out := InModel(key, cum);
    if w :| w in key && w.Name? && Within(part, w.text) {
      var j :| 0 <= j < |key| && key[j] == w;
      assert out[j] == w;
    }
    if w :| w in out && w.Name? && Within(part, w.text) {
      var j :| 0 <= j < |out| && out[j] == w;
      assert key[j] == w;
    }
  }

  lemma SameJoint(key: Path, cum: int, tail: string, head: string)
    ensures Joint(InModel(key, cum), tail, head) <==> Joint(key, tail, head)
  {
    var out := InModel(key, cum);
    forall i | 0 <= i < |key| - 1
      ensures EndsIn(out[i], tail) && Begins(out[i + 1], head) <==> EndsIn(key[i], tail) && Begins(key[i + 1], head)
    {
    }
  }

  lemma SameMiddle(key: Path, cum: int, tail: string, word: string)
    ensures Middle(InModel(key, cum), tail, word) <==> Middle(key, tail, word)
  {
    var out := InModel(key, cum);
    forall i ensures MiddleAt(out, i, tail, word) <==> MiddleAt(key, i, tail, word) {
    }
  }

  lemma SameKind(key: Path, cum: int, valueModel: bool)
    ensures KindOf(InModel(key, cum), valueModel) == KindOf(key, valueModel)
  {
    SameJoint(key, cum, "linear_fc1", "weight");
    SameJoint(key, cum, "linear_fc2", "weight");
    SameJoint(key, cum, "self_attention", "linear_proj");
    SameMiddle(key, cum, "self_attention", "linear_qkv");
    SameMentions(key, cum, "layer_norm");
    SameMentions(key, cum, "layernorm");
    SameMentions(key, cum, "output_layer");
  }

  // ----- the shards of a parameter

  /** These are the shards of a parameter on the ranks of a stage, in order. */
  ghost predicate ShardsAre<T>(saved: Saved<T>, stage: nat, round: nat, key: Path, data: seq<T>) {
    && stage < |saved| && |data| == |saved[stage]|
    && forall t: nat | t < |data| ::
         round < |saved[stage][t]| && key in saved[stage][t][round].values
         && data[t] == saved[stage][t][round].values[key]
  }

  lemma {:induction false} GatheredInOrder<T>(ranks: seq<Dict<T>>, key: Path)
    ensures Gathered(ranks, key).Ok? <==> forall t: nat | t < |ranks| :: key in ranks[t].values
    ensures Gathered(ranks, key).Ok? ==>
              |Gathered(ranks, key).value| == |ranks|
              && forall t: nat | t < |ranks| ::
                   key in ranks[t].values && Gathered(ranks, key).value[t] == ranks[t].values[key]
  {
    if ranks == [] {
    } else {
      GatheredInOrder(ranks[..|ranks| - 1], key);
    }
  }

  lemma GatheredShards<T>(saved: Saved<T>, stage: nat, round: nat, key: Path) returns (data: seq<T>)
    requires stage < |saved| && Gathered(Ranks(saved, stage, round), key).Ok?
    ensures Gathered(Ranks(saved, stage, round), key) == Ok(data) && ShardsAre(saved, stage, round, key, data)
  {
    var ranks := Ranks(saved, stage, round);
    data := Gathered(ranks, key).value;
    GatheredInOrder(ranks, key);
    forall t: nat | t < |data|
      ensures round < |saved[stage][t]| && key in saved[stage][t][round].values
      ensures data[t] == saved[stage][t][round].values[key]
    {
      assert key in ranks[t].values;
    }
  }

  // ----- what survives

  /** The chunk comes after another, and before a given place, in the order of the loops. */
  predicate Between(q: nat, r: nat, later: nat, laterRound: nat, stage: nat, round: nat) {
    && (r < laterRound || (r == laterRound && q < later))
    && (laterRound < round || (laterRound == round && later < stage))
  }

  /** No later chunk has the key. */
  ghost predicate LastHolder<T>(saved: Saved<T>, rounds: nat, stage: nat, round: nat, key: Path) {
    forall q: nat, r: nat | Between(stage, round, q, r, 0, rounds) :: key !in ChunkKeys(saved, q, r)
  }

  /** A parameter that is merged and not overwritten: its key is not skipped, and it is of a decoder
      layer, or of no layer and in no later chunk. */
  ghost predicate Present<T>(saved: Saved<T>, o: Options, rounds: nat, stage: nat, round: nat, key: Path) {
    && stage < |saved| && round < rounds && key in ChunkKeys(saved, stage, round)
    && !Mentions(key, "extra_state") && !(o.tied && Mentions(key, "output_layer"))
    && (LayerKey(key) || (Name("layers") !in key && LastHolder(saved, rounds, stage, round, key)))
  }

  /** A key of no layer is written for itself only. */
  lemma OutsideOrigin<T>(saved: Saved<T>, join: Joiner<T>, o: Options, key: Path, w: Write<T>, p: Origin,
                         v: Write<T>, q: Origin)
    requires |saved| > 0 && WellNamed(saved, o) && Name("layers") !in key && p.key == key
    requires WrittenFor(saved, join, o, p, w) && WrittenFor(saved, join, o, q, v) && v.key == w.key
    ensures q.key == key
  {
    WriteRestores(saved, join, o, p, w);
    WriteRestores(saved, join, o, q, v);
    LayerKeyInDecoder(key);
    NewKeyInDecoder(p.key, Counter(saved, o, p.stage, p.round));
    NewKeyInDecoder(q.key, Counter(saved, o, q.stage, q.round));
  }

  lemma SameKeySameWrite<T>(saved: Saved<T>, join: Joiner<T>, o: Options, p: Origin, w: Write<T>, v: Write<T>)
    requires |saved| > 0 && WellNamed(saved, o)
    requires WrittenFor(saved, join, o, p, w) && WrittenFor(saved, join, o, p, v) && v.key == w.key
    ensures v == w
  {
    WriteRestores(saved, join, o, p, w);
    var data := Gathered(Ranks(saved, p.stage, p.round), p.key).value;
    PartsDiffer(Restore(w.key), data, join, o.valueModel, v, w);
  }

  ghost predicate Holds<T>(state: map<Path, T>, key: Path, value: T) {
    key in state && state[key] == value
  }

  lemma {:induction false} NotOverwritten<T>(state: map<Path, T>, writes: seq<Write<T>>, key: Path, value: T)
    requires Holds(state, key, value) && forall v | v in writes :: v.key != key
    ensures Holds(Apply(state, writes), key, value)
  {
    if writes == [] {
    } else {
      NotOverwritten(state, writes[..|writes| - 1], key, value);
    }
  }

  /** The writes of a chunk leave the key of a parameter in no layer that another chunk holds alone. */
  ghost predicate Leaves<T>(writes: seq<Write<T>>, key: Path) {
    forall v | v in writes :: v.key != key
  }

  /** A write for a key of no layer that no later chunk has. */
  ghost predicate Alone<T>(saved: Saved<T>, join: Joiner<T>, o: Options, rounds: nat, p: Origin, w: Write<T>)
    requires |saved| > 0
  {
    match p
    case Origin(stage, round, key) =>
      && WellNamed(saved, o) && WrittenFor(saved, join, o, p, w)
      && Name("layers") !in key && LastHolder(saved, rounds, stage, round, key)
      && OfChunk(saved, stage, round, join, o).Ok? && w in OfChunk(saved, stage, round, join, o).value
  }

  lemma LaterLeaves<T>(saved: Saved<T>, join: Joiner<T>, o: Options, rounds: nat, p: Origin, w: Write<T>, q: nat,
                       r: nat)
    requires |saved| > 0 && Alone(saved, join, o, rounds, p, w)
    requires q < |saved| && Between(p.stage, p.round, q, r, 0, rounds) && OfChunk(saved, q, r, join, o).Ok?
    ensures Leaves(OfChunk(saved, q, r, join, o).value, w.key)
  {
    var writes := OfChunk(saved, q, r, join, o).value;
    forall v | v in writes ensures v.key != w.key {
      if v.key == w.key {
        var other := OriginInChunk(saved, q, r, join, o, v);
        OutsideOrigin(saved, join, o, p.key, w, p, v, other);
      }
    }
  }

  lemma HereStands<T>(saved: Saved<T>, join: Joiner<T>, o: Options, rounds: nat, p: Origin, w: Write<T>,
                      writes: seq<Write<T>>, state: map<Path, T>)
    requires |saved| > 0 && Alone(saved, join, o, rounds, p, w)
    requires OfChunk(saved, p.stage, p.round, join, o) == Ok(writes)
    ensures Holds(Apply(state, writes), w.key, w.value)
  {
    forall v | v in writes && v.key == w.key ensures v.value == w.value {
      var q := OriginInChunk(saved, p.stage, p.round, join, o, v);
      OutsideOrigin(saved, join, o, p.key, w, p, v, q);
      SameKeySameWrite(saved, join, o, p, w, v);
    }
    LastValueStands(state, writes, w);
  }

  lemma StepsOn<T>(saved: Saved<T>, stage: nat, round: nat, join: Joiner<T>, o: Options)
    returns (before: map<Path, T>, writes: seq<Write<T>>)
    requires 0 < stage <= |saved| && StateBefore(saved, stage, round, join, o).Ok?
    ensures StateBefore(saved, stage - 1, round, join, o) == Ok(before)
    ensures OfChunk(saved, stage - 1, round, join, o) == Ok(writes)
    ensures StateBefore(saved, stage, round, join, o) == Ok(Apply(before, writes))
  {
    LastWrites(saved, stage, round, join, o);
    before := StateBefore(saved, stage - 1, round, join, o).value;
    writes := OfChunk(saved, stage - 1, round, join, o).value;
    ApplyAppend(map[], WritesBefore(saved, stage - 1, round, join, o).value, writes);
  }

  /** The state before a chunk holds the value, if it got that far. */
  ghost predicate Standing<T>(saved: Saved<T>, stage: nat, round: nat, join: Joiner<T>, o: Options, w: Write<T>)
    requires |saved| > 0
  {
    match StateBefore(saved, stage, round, join, o)
    case Ok(state) => Holds(state, w.key, w.value)
    case Err => true
  }

  lemma StandsHere<T>(saved: Saved<T>, join: Joiner<T>, o: Options, rounds: nat, p: Origin, w: Write<T>)
    requires |saved| > 0 && Alone(saved, join, o, rounds, p, w)
    ensures Standing(saved, p.stage + 1, p.round, join, o, w)
  {
    if StateBefore(saved, p.stage + 1, p.round, join, o).Ok? {
      var before, writes := StepsOn(saved, p.stage + 1, p.round, join, o);
      HereStands(saved, join, o, rounds, p, w, writes, before);
    }
  }

  lemma StandsNext<T>(saved: Saved<T>, join: Joiner<T>, o: Options, rounds: nat, p: Origin, w: Write<T>,
                      stage: nat, round: nat)
    requires stage < |saved| && Alone(saved, join, o, rounds, p, w)
    requires Between(p.stage, p.round, stage, round, 0, rounds) && Standing(saved, stage, round, join, o, w)
    ensures Standing(saved, stage + 1, round, join, o, w)
  {
    if StateBefore(saved, stage + 1, round, join, o).Ok? {
      var before, writes := StepsOn(saved, stage + 1, round, join, o);
      LaterLeaves(saved, join, o, rounds, p, w, stage, round);
      NotOverwritten(before, writes, w.key, w.value);
    }
  }

  lemma StandsOver<T>(saved: Saved<T>, round: nat, join: Joiner<T>, o: Options, w: Write<T>)
    requires |saved| > 0 && round > 0 && Standing(saved, |saved|, round - 1, join, o, w)
    ensures Standing(saved, 0, round, join, o, w)
  {
  }

  /** Induction over the places in the order of the loops, from the chunk after a given one on. */
  lemma {:induction false} Onwards(holds: (nat, nat) -> bool, stages: nat, q: nat, r: nat, rounds: nat,
                                   stage: nat, round: nat)
    requires q < stages && stage <= stages && (r < round || (r == round && q < stage))
    requires round < rounds || (round == rounds && stage == 0)
    requires holds(q + 1, r)
    requires forall x: nat, y: nat | x < stages && Between(q, r, x, y, 0, rounds) && holds(x, y) :: holds(x + 1, y)
    requires forall y: nat | holds(stages, y) :: holds(0, y + 1)
    ensures holds(stage, round)
    decreases round, stage
  {
    if stage == 0 {
      Onwards(holds, stages, q, r, rounds, stages, round - 1);
    } else if stage - 1 == q && round == r {
    } else {
      Onwards(holds, stages, q, r, rounds, stage - 1, round);
      assert Between(q, r, stage - 1, round, 0, rounds);
    }
  }

  ghost function StandingAt<T>(saved: Saved<T>, join: Joiner<T>, o: Options, w: Write<T>): (nat, nat) -> bool
    requires |saved| > 0
  {
    (stage: nat, round: nat) => Standing(saved, stage, round, join, o, w)
  }

  lemma StandingNext<T>(saved: Saved<T>, join: Joiner<T>, o: Options, rounds: nat, p: Origin, w: Write<T>,
                        holds: (nat, nat) -> bool, stage: nat, round: nat)
    requires |saved| > 0 && Alone(saved, join, o, rounds, p, w) && holds == StandingAt(saved, join, o, w)
    requires stage < |saved| && Between(p.stage, p.round, stage, round, 0, rounds) && holds(stage, round)
    ensures holds(stage + 1, round)
  {
    StandsNext(saved, join, o, rounds, p, w, stage, round);
  }

  lemma StandsAlong<T>(saved: Saved<T>, join: Joiner<T>, o: Options, rounds: nat, p: Origin, w: Write<T>,
                       holds: (nat, nat) -> bool)
    requires |saved| > 0 && Alone(saved, join, o, rounds, p, w) && holds == StandingAt(saved, join, o, w)
    ensures forall x: nat, y: nat | x < |saved| && Between(p.stage, p.round, x, y, 0, rounds) && holds(x, y) ::
              holds(x + 1, y)
  {
    forall x: nat, y: nat | x < |saved| && Between(p.stage, p.round, x, y, 0, rounds) && holds(x, y)
      ensures holds(x + 1, y)
    {
      StandingNext(saved, join, o, rounds, p, w, holds, x, y);
    }
  }

  lemma StandsAcross<T>(saved: Saved<T>, join: Joiner<T>, o: Options, w: Write<T>, holds: (nat, nat) -> bool)
    requires |saved| > 0 && holds == StandingAt(saved, join, o, w)
    ensures forall y: nat | holds(|saved|, y) :: holds(0, y + 1)
  {
    forall y: nat | holds(|saved|, y) ensures holds(0, y + 1) {
      StandsOver(saved, y + 1, join, o, w);
    }
  }

  /** A write for a key of no layer stands at the end, if no later chunk has the key. */
  lemma OutsideStands<T>(saved: Saved<T>, join: Joiner<T>, o: Options, rounds: nat, p: Origin, w: Write<T>)
    requires 0 < |saved| && Alone(saved, join, o, rounds, p, w) && p.stage < |saved| && p.round < rounds
    ensures Standing(saved, 0, rounds, join, o, w)
  {
    var holds := StandingAt(saved, join, o, w);
    StandsHere(saved, join, o, rounds, p, w);
    StandsAlong(saved, join, o, rounds, p, w, holds);
    StandsAcross(saved, join, o, w, holds);
    Onwards(holds, |saved|, p.stage, p.round, rounds, 0, rounds);
  }

  // ----- every parameter under its name

  lemma WriteStands<T>(saved: Saved<T>, join: Joiner<T>, o: Options, rounds: nat, state: map<Path, T>,
                       stage: nat, round: nat, key: Path, w: Write<T>)
    requires |saved| > 0 && WellNamed(saved, o) && StateBefore(saved, 0, rounds, join, o) == Ok(state)
    requires Present(saved, o, rounds, stage, round, key)
    ensures var here := KeyWrites(Ranks(saved, stage, round), key, Counter(saved, o, stage, round), join, o);
            here.Ok? && (w in here.value ==> Holds(state, w.key, w.value))
  {
    var ranks, cum := Ranks(saved, stage, round), Counter(saved, o, stage, round);
    ChunkReached(saved, 0, rounds, join, o, stage, round);
    KeyReached(ranks, ChunkKeys(saved, stage, round), cum, join, o, key);
    LayerKeyInDecoder(key);
    if w in KeyWrites(ranks, key, cum, join, o).value {
      if LayerKey(key) {
        DecoderWeightsSurvive(saved, join, o, rounds, stage, round, key, w);
      } else {
        OutsideStands(saved, join, o, rounds, Origin(stage, round, key), w);
      }
    }
  }

  /** What is written for a parameter stands in the merged state. */
  ghost predicate AllHold<T>(state: map<Path, T>, writes: seq<Write<T>>) {
    forall w | w in writes :: Holds(state, w.key, w.value)
  }

  /** A parameter is joined from its shards, and what comes of it stands in the merged state. */
  lemma ParameterMerged<T>(saved: Saved<T>, join: Joiner<T>, o: Options, rounds: nat, state: map<Path, T>,
                           stage: nat, round: nat, key: Path)
    returns (data: seq<T>, name: Path, writes: seq<Write<T>>)
    requires |saved| > 0 && WellNamed(saved, o) && StateBefore(saved, 0, rounds, join, o) == Ok(state)
    requires Present(saved, o, rounds, stage, round, key)
    ensures ShardsAre(saved, stage, round, key, data) && name == InModel(key, Counter(saved, o, stage, round))
    ensures Plain(name) && KindOf(name, o.valueModel) == KindOf(key, o.valueModel)
    ensures Joined(name, data, join, o.valueModel) == Ok(writes) && AllHold(state, writes)
  {
    var ranks, cum := Ranks(saved, stage, round), Counter(saved, o, stage, round);
    name := InModel(key, cum);
    NewKeyIs(key, cum);
    NamePlain(saved, o, stage, round, key);
    NewKeyPlain(key, cum);
    SameKind(key, cum, o.valueModel);
    ChunkReached(saved, 0, rounds, join, o, stage, round);
    KeyReached(ranks, ChunkKeys(saved, stage, round), cum, join, o, key);
    data := GatheredShards(saved, stage, round, key);
    writes := Joined(name, data, join, o.valueModel).value;
    forall w | w in writes ensures Holds(state, w.key, w.value) {
      WriteStands(saved, join, o, rounds, state, stage, round, key, w);
    }
  }

  /** The word is a fused gate/up weight: its name, and then a word that begins with "weight". */
  predicate GateUpAt(key: Path, i: nat) {
    i + 1 < |key| && key[i] == Name("linear_fc1") && key[i + 1].Name? && "weight" <= key[i + 1].text
  }

  /** A fused gate/up weight is in the merged state as its two parts, each under its own name. */
  lemma GateUpMerged<T>(saved: Saved<T>, join: Joiner<T>, o: Options, rounds: nat, state: map<Path, T>,
                        stage: nat, round: nat, key: Path, i: nat)
    returns (data: seq<T>, gate: T, up: T)
    requires |saved| > 0 && WellNamed(saved, o) && StateBefore(saved, 0, rounds, join, o) == Ok(state)
    requires Present(saved, o, rounds, stage, round, key) && GateUpAt(key, i)
    ensures ShardsAre(saved, stage, round, key, data) && join.gateUp(data) == Ok((gate, up))
    ensures var name := InModel(key, Counter(saved, o, stage, round));
            && Holds(state, Swapped(name, "linear_fc1", "gate_proj"), gate)
            && Holds(state, Swapped(name, "linear_fc1", "up_proj"), up)
  {
    var name, writes;
    data, name, writes := ParameterMerged(saved, join, o, rounds, state, stage, round, key);
    WordsAreJoint(key, FC1, "weight", i);
    gate, up := join.gateUp(data).value.0, join.gateUp(data).value.1;
    ReplacedIsSwapped(name, FC1, GATE);
    ReplacedIsSwapped(name, FC1, UP);
    assert writes[0] in writes && writes[1] in writes;
  }

  /** The word is a fused query/key/value weight or bias, but not its layer norm. */
  predicate QkvAt(key: Path, i: nat) {
    && i + 2 < |key| && key[i] == Name("self_attention") && key[i + 1] == Name("linear_qkv")
    && Name("linear_fc1") !in key && !Mentions(key, "layer_norm")
  }

  lemma NotGateUp(key: Path)
    requires Plain(key) && Name(FC1) !in key
    ensures !Joint(key, FC1, "weight")
  {
    if Joint(key, FC1, "weight") {
      var i := JointWords(key, FC1, "weight");
    }
  }

  lemma QkvKind(key: Path, valueModel: bool, i: nat)
    requires Plain(key) && QkvAt(key, i)
    ensures KindOf(key, valueModel) == Qkv
  {
    NotGateUp(key);
    assert EndsIn(key[i], "self_attention");
    assert MiddleAt(key, i, "self_attention", "linear_qkv");
  }

  lemma QkvWrites<T>(name: Path, data: seq<T>, join: Joiner<T>, valueModel: bool, writes: seq<Write<T>>)
    returns (q: T, k: T, v: T)
    requires Plain(name) && KindOf(name, valueModel) == Qkv && Joined(name, data, join, valueModel) == Ok(writes)
    ensures join.qkv(data) == Ok((q, k, v))
    ensures writes == [Write(Swapped(name, "linear_qkv", "linear_q"), q),
                       Write(Swapped(name, "linear_qkv", "linear_k"), k),
                       Write(Swapped(name, "linear_qkv", "linear_v"), v)]
  {
    var three := join.qkv(data).value;
    q, k, v := three.0, three.1, three.2;
    ReplacedIsSwapped(name, QKV, Q);
    ReplacedIsSwapped(name, QKV, K);
    ReplacedIsSwapped(name, QKV, V);
  }

  /** A fused query/key/value weight is in the merged state as its three parts. */
  lemma QkvMerged<T>(saved: Saved<T>, join: Joiner<T>, o: Options, rounds: nat, state: map<Path, T>,
                     stage: nat, round: nat, key: Path, i: nat)
    returns (data: seq<T>, q: T, k: T, v: T)
    requires |saved| > 0 && WellNamed(saved, o) && StateBefore(saved, 0, rounds, join, o) == Ok(state)
    requires Present(saved, o, rounds, stage, round, key) && QkvAt(key, i)
    ensures ShardsAre(saved, stage, round, key, data) && join.qkv(data) == Ok((q, k, v))
    ensures var name := InModel(key, Counter(saved, o, stage, round));
            && Holds(state, Swapped(name, "linear_qkv", "linear_q"), q)
            && Holds(state, Swapped(name, "linear_qkv", "linear_k"), k)
            && Holds(state, Swapped(name, "linear_qkv", "linear_v"), v)
  {
    var name, writes;
    data, name, writes := ParameterMerged(saved, join, o, rounds, state, stage, round, key);
    NamePlain(saved, o, stage, round, key);
    QkvKind(key, o.valueModel, i);
    q, k, v := QkvWrites(name, data, join, o.valueModel, writes);
    assert writes[0] in writes && writes[1] in writes && writes[2] in writes;
  }

  /** Every rank has the whole of the parameter: a layer norm, or the head of a value model. */
  predicate ReplicatedName(key: Path, valueModel: bool) {
    && !Joint(key, "linear_fc1", "weight")
    && (Mentions(key, "layer_norm")
        || (Name("linear_qkv") !in key
            && (Mentions(key, "layernorm") || (valueModel && Mentions(key, "output_layer")))))
  }

  lemma NotQkv(key: Path)
    requires Name("linear_qkv") !in key
    ensures !Middle(key, "self_attention", "linear_qkv")
  {
  }

  lemma ReplicatedKind(key: Path, valueModel: bool)
    requires ReplicatedName(key, valueModel)
    ensures KindOf(key, valueModel) == Replicated
  {
    if !Mentions(key, "layer_norm") {
      NotQkv(key);
    }
  }

  /** A replicated parameter is in the merged state as the first rank has it. */
  lemma ReplicatedMerged<T>(saved: Saved<T>, join: Joiner<T>, o: Options, rounds: nat, state: map<Path, T>,
                            stage: nat, round: nat, key: Path)
    returns (data: seq<T>)
    requires |saved| > 0 && WellNamed(saved, o) && StateBefore(saved, 0, rounds, join, o) == Ok(state)
    requires Present(saved, o, rounds, stage, round, key) && ReplicatedName(key, o.valueModel)
    ensures ShardsAre(saved, stage, round, key, data) && data != []
    ensures Holds(state, InModel(key, Counter(saved, o, stage, round)), data[0])
  {
    var name, writes;
    data, name, writes := ParameterMerged(saved, join, o, rounds, state, stage, round, key);
    ReplicatedKind(key, o.valueModel);
    assert writes[0] in writes;
  }

  predicate CutInputAt(key: Path, i: nat) {
    i + 1 < |key|
    && ((key[i] == Name("linear_fc2") && key[i + 1].Name? && "weight" <= key[i + 1].text)
        || (key[i] == Name("self_attention") && key[i + 1].Name? && "linear_proj" <= key[i + 1].text))
  }

  /** The second layer of the feed-forward block, or the output projection of the attention. */
  predicate TakesCutInput(key: Path) {
    exists i: nat :: i < |key| && CutInputAt(key, i)
  }

  /** The ranks have parts of the parameter, cut along a dimension: the second one for the two weights
      that take a cut input, the first one otherwise. */
  predicate CutName(key: Path, valueModel: bool, dim: nat) {
    && !Joint(key, "linear_fc1", "weight") && Name("linear_qkv") !in key
    && !Mentions(key, "layer_norm") && !Mentions(key, "layernorm") && !(valueModel && Mentions(key, "output_layer"))
    && (if dim == 1 then TakesCutInput(key)
        else dim == 0 && !Joint(key, "linear_fc2", "weight") && !Joint(key, "self_attention", "linear_proj"))
  }

  lemma CutInputFound(key: Path)
    requires TakesCutInput(key)
    ensures Joint(key, "linear_fc2", "weight") || Joint(key, "self_attention", "linear_proj")
  {
    var i: nat :| i < |key| && CutInputAt(key, i);
    if key[i] == Name("linear_fc2") {
      WordsAreJoint(key, "linear_fc2", "weight", i);
    } else {
      WordsAreJoint(key, "self_attention", "linear_proj", i);
    }
  }

  lemma CutKind(key: Path, valueModel: bool, dim: nat)
    requires CutName(key, valueModel, dim)
    ensures KindOf(key, valueModel) == Cut(dim)
  {
    NotQkv(key);
    if dim == 1 {
      CutInputFound(key);
    }
  }

  /** Any other parameter is in the merged state as the concatenation of its shards. */
  lemma CutMerged<T>(saved: Saved<T>, join: Joiner<T>, o: Options, rounds: nat, state: map<Path, T>,
                     stage: nat, round: nat, key: Path, dim: nat)
    returns (data: seq<T>, whole: T)
    requires |saved| > 0 && WellNamed(saved, o) && StateBefore(saved, 0, rounds, join, o) == Ok(state)
    requires Present(saved, o, rounds, stage, round, key) && CutName(key, o.valueModel, dim)
    ensures ShardsAre(saved, stage, round, key, data) && join.concat(dim, data) == Ok(whole)
    ensures Holds(state, InModel(key, Counter(saved, o, stage, round)), whole)
  {
    var name, writes;
    data, name, writes := ParameterMerged(saved, join, o, rounds, state, stage, round, key);
    CutKind(key, o.valueModel, dim);
    whole := join.concat(dim, data).value;
    assert writes[0] in writes;
  }

  // ----- nothing else, and failure

  lemma {:induction false} WrittenKey<T>(writes: seq<Write<T>>, key: Path) returns (w: Write<T>)
    requires key in Apply(map[], writes)
    ensures w in writes && w.key == key
  {
    var last, init := writes[|writes| - 1], writes[..|writes| - 1];
    if last.key == key {
      w := last;
    } else {
      w := WrittenKey(init, key);
    }
  }

  /** Nothing else is in the merged state: every name in it is that of a parameter that is not skipped,
      or of a part of it. */
  lemma NothingElse<T>(saved: Saved<T>, join: Joiner<T>, o: Options, rounds: nat, state: map<Path, T>, name: Path)
    returns (p: Origin)
    requires |saved| > 0 && WellNamed(saved, o) && StateBefore(saved, 0, rounds, join, o) == Ok(state) && name in state
    ensures p.stage < |saved| && p.round < rounds && p.key in ChunkKeys(saved, p.stage, p.round)
    ensures !Mentions(p.key, "extra_state") && !(o.tied && Mentions(p.key, "output_layer"))
    ensures LayerKey(p.key) || Name("layers") !in p.key ==>
              Restore(name) == InModel(p.key, Counter(saved, o, p.stage, p.round))
  {
    var w := WrittenKey(WritesBefore(saved, 0, rounds, join, o).value, name);
    p := OriginOf(saved, 0, rounds, join, o, w);
    WriteRestores(saved, join, o, p, w);
    if LayerKey(p.key) || Name("layers") !in p.key {
      NewKeyIs(p.key, Counter(saved, o, p.stage, p.round));
    }
  }

  /** The shards cannot be joined in the way that the name asks for. */
  predicate JoinFails<T>(key: Path, data: seq<T>, join: Joiner<T>, valueModel: bool) {
    if Joint(key, "linear_fc1", "weight") then join.gateUp(data).Err?
    else if Middle(key, "self_attention", "linear_qkv") && !Mentions(key, "layer_norm") then join.qkv(data).Err?
    else if Mentions(key, "layer_norm") || Mentions(key, "layernorm") || (valueModel && Mentions(key, "output_layer"))
    then data == []
    else if Joint(key, "linear_fc2", "weight") || Joint(key, "self_attention", "linear_proj")
    then join.concat(1, data).Err?
    else join.concat(0, data).Err?
  }

  /** All ranks have the key. */
  ghost predicate Everywhere<T>(ranks: seq<Dict<T>>, key: Path) {
    forall t: nat | t < |ranks| :: key in ranks[t].values
  }

  /** The shards of a key, in the order of the ranks. */
  ghost function ShardsOn<T>(ranks: seq<Dict<T>>, key: Path): seq<T>
    requires Everywhere(ranks, key)
  {
    seq(|ranks|, t requires 0 <= t < |ranks| => ranks[t].values[key])
  }

  /** A parameter that is not skipped and cannot be merged: its layer has no number, a rank lacks it, or
      its shards cannot be joined. */
  ghost predicate CannotMerge<T>(ranks: seq<Dict<T>>, key: Path, cum: int, join: Joiner<T>, o: Options) {
    && !Mentions(key, "extra_state") && !(o.tied && Mentions(key, "output_layer"))
    && ((InDecoder(key) && !(|key| > 2 && key[2].Number?))
        || !Everywhere(ranks, key)
        || (var name := if InDecoder(key) then key[2 := Number(key[2].value + cum)] else key;
            JoinFails(name, ShardsOn(ranks, key), join, o.valueModel)))
  }

  lemma JoinFailsExactly<T>(key: Path, data: seq<T>, join: Joiner<T>, valueModel: bool)
    ensures Joined(key, data, join, valueModel).Err? <==> JoinFails(key, data, join, valueModel)
  {
  }

  lemma GatheredExactly<T>(ranks: seq<Dict<T>>, key: Path)
    ensures Gathered(ranks, key) == if Everywhere(ranks, key) then Ok(ShardsOn(ranks, key)) else Err
  {
    GatheredInOrder(ranks, key);
    if Everywhere(ranks, key) {
      assert Gathered(ranks, key).value == ShardsOn(ranks, key);
    }
  }

  lemma NewKeyExactly(key: Path, cum: int)
    ensures NewKey(key, cum)
            == if !InDecoder(key) then Ok(key)
               else if |key| > 2 && key[2].Number? then Ok(key[2 := Number(key[2].value + cum)]) else Err
  {
  }

  lemma KeyFailsExactly<T>(ranks: seq<Dict<T>>, key: Path, cum: int, join: Joiner<T>, o: Options)
    ensures KeyWrites(ranks, key, cum, join, o).Err? <==> CannotMerge(ranks, key, cum, join, o)
  {
    GatheredExactly(ranks, key);
    NewKeyExactly(key, cum);
    if Everywhere(ranks, key) && NewKey(key, cum).Ok? {
      JoinFailsExactly(NewKey(key, cum).value, ShardsOn(ranks, key), join, o.valueModel);
    }
  }

  lemma {:induction false} ChunkFailsExactly<T>(ranks: seq<Dict<T>>, keys: seq<Path>, cum: int, join: Joiner<T>,
                                                o: Options)
    ensures ChunkWrites(ranks, keys, cum, join, o).Err?
            <==> exists key :: key in keys && CannotMerge(ranks, key, cum, join, o)
  {
    if keys == [] {
    } else {
      var init, last := keys[..|keys| - 1], keys[|keys| - 1];
      ChunkFailsExactly(ranks, init, cum, join, o);
      KeyFailsExactly(ranks, last, cum, join, o);
      assert forall key :: key in keys <==> key in init || key == last;
    }
  }

  /** Some parameter of the chunk cannot be merged. */
  ghost predicate ChunkStops<T>(saved: Saved<T>, join: Joiner<T>, o: Options, stage: nat, round: nat)
    requires |saved| > 0
  {
    exists key ::
      key in ChunkKeys(saved, stage, round)
      && CannotMerge(Ranks(saved, stage, round), key, Counter(saved, o, stage, round), join, o)
  }

  lemma ChunkStopsExactly<T>(saved: Saved<T>, join: Joiner<T>, o: Options, stage: nat, round: nat)
    requires |saved| > 0
    ensures OfChunk(saved, stage, round, join, o).Err? <==> ChunkStops(saved, join, o, stage, round)
  {
    ChunkFailsExactly(Ranks(saved, stage, round), ChunkKeys(saved, stage, round), Counter(saved, o, stage, round),
                      join, o);
  }

  lemma {:induction false} SomeChunkStops<T>(saved: Saved<T>, join: Joiner<T>, o: Options, stage: nat, round: nat)
    returns (q: nat, r: nat)
    requires |saved| > 0 && stage <= |saved| && WritesBefore(saved, stage, round, join, o).Err?
    ensures q < |saved| && (r < round || (r == round && q < stage)) && OfChunk(saved, q, r, join, o).Err?
    decreases round, stage
  {
    if stage == 0 {
      q, r := SomeChunkStops(saved, join, o, |saved|, round - 1);
    } else if WritesBefore(saved, stage - 1, round, join, o).Err? {
      q, r := SomeChunkStops(saved, join, o, stage - 1, round);
    } else {
      q, r := stage - 1, round;
    }
  }

  /** The merge fails exactly when some parameter of some chunk cannot be merged. */
  lemma MergeFailsExactly<T>(saved: Saved<T>, join: Joiner<T>, o: Options, rounds: nat)
    requires |saved| > 0
    ensures StateBefore(saved, 0, rounds, join, o).Err?
            <==> exists q: nat, r: nat :: q < |saved| && r < rounds && ChunkStops(saved, join, o, q, r)
  {
    if StateBefore(saved, 0, rounds, join, o).Err? {
      var q, r := SomeChunkStops(saved, join, o, 0, rounds);
      ChunkStopsExactly(saved, join, o, q, r);
    } else {
      forall q: nat, r: nat | q < |saved| && r < rounds ensures !ChunkStops(saved, join, o, q, r) {
        ChunkReached(saved, 0, rounds, join, o, q, r);
        ChunkStopsExactly(saved, join, o, q, r);
      }
    }
  }
}
