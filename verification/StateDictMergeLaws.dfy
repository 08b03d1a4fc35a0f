/** Laws of the checkpoint merger: its running layer counter against the closed-form offset, and the
    survival of every decoder-layer weight it writes. */
module StateDictMergeLaws {
  import opened Outcomes
  import opened LayerOffsets
  import opened ParameterNames
  import opened StateDictMerge

  // ----- the running counter

  ghost predicate HasLayer(keys: seq<Path>, o: Options, n: int) {
    exists key :: key in keys && Kept(key, o) && LocalLayer(key) == Ok(n)
  }

  /** The kept decoder keys of a chunk are numbered with exactly the local layers 0..m-1. */
  ghost predicate HoldsLayers(keys: seq<Path>, o: Options, m: int) {
    && (forall key | key in keys && Kept(key, o) :: LocalLayer(key).Ok? && 0 <= LocalLayer(key).value < m)
    && (m > 0 ==> forall n | 0 <= n < m :: HasLayer(keys, o, n))
  }

  lemma {:induction false} LocalWithinHandled(keys: seq<Path>, o: Options, key: Path)
    requires key in keys && Kept(key, o) && LocalLayer(key).Ok?
    ensures LocalLayer(key).value <= Handled(keys, o)
  {
    if key != keys[|keys| - 1] {
      LocalWithinHandled(keys[..|keys| - 1], o, key);
    }
  }

  lemma {:induction false} HandledAttained(keys: seq<Path>, o: Options)
    ensures Handled(keys, o) == 0 || HasLayer(keys, o, Handled(keys, o))
  {
    if keys == [] {
    } else {
      var init, key := keys[..|keys| - 1], keys[|keys| - 1];
      HandledAttained(init, o);
      assert forall k | k in init :: k in keys;
      assert key in keys;
    }
  }

  lemma HandledLayers(keys: seq<Path>, o: Options, m: int)
    requires HoldsLayers(keys, o, m) && m >= 0
    ensures Handled(keys, o) + 1 == if m == 0 then 1 else m
  {
    HandledAttained(keys, o);
    if m > 0 {
      assert HasLayer(keys, o, m - 1);
      var key :| key in keys && Kept(key, o) && LocalLayer(key) == Ok(m - 1);
      LocalWithinHandled(keys, o, key);
    }
  }

  lemma {:induction false} SameStart(a: (nat, nat) -> int, b: (nat, nat) -> int, stages: nat, stage: nat, round: nat)
    requires stage < stages
    requires forall q: nat, r: nat | q < stages && (r < round || (r == round && q < stage)) :: a(q, r) == b(q, r)
    ensures Start(a, stages, stage, round) == Start(b, stages, stage, round)
    decreases round, stage
  {
    if stage > 0 {
      SameStart(a, b, stages, stage - 1, round);
    } else if round > 0 {
      SameStart(a, b, stages, stages - 1, round - 1);
    }
  }

  /** The checkpoint of a model split this way. */
  ghost predicate SavedModel<T>(saved: Saved<T>, o: Options, c: Pipeline, rounds: Option<nat>, s: Shares) {
    && Divides(c, rounds, s) && |saved| == c.stages
    && forall q: nat, r: nat | q < c.stages && r < Rounds(rounds) ::
         HoldsLayers(ChunkKeys(saved, q, r), o, ChunkLayers(c, Rounds(rounds), s, q, r))
  }

  predicate LastChunk(c: Pipeline, rounds: Option<nat>, stage: nat, round: nat) {
    stage + 1 == c.stages && round + 1 == Rounds(rounds)
  }

  ghost predicate NoEmptyChunk(c: Pipeline, rounds: Option<nat>, s: Shares) {
    forall q: nat, r: nat | q < c.stages && r < Rounds(rounds) && !LastChunk(c, rounds, q, r) ::
      ChunkLayers(c, Rounds(rounds), s, q, r) > 0
  }

  ghost predicate CounterAgrees<T>(saved: Saved<T>, o: Options, c: Pipeline, rounds: Option<nat>, s: Shares)
    requires |saved| == c.stages > 0
  {
    forall q: nat, r: nat | q < c.stages && r < Rounds(rounds) ::
      Counter(saved, o, q, r) == ChunkStart(c, rounds, s, q, r)
  }

  lemma StepIs<T>(saved: Saved<T>, o: Options, c: Pipeline, rounds: Option<nat>, s: Shares, q: nat, r: nat)
    requires SavedModel(saved, o, c, rounds, s) && q < c.stages && r < Rounds(rounds)
    ensures Steps(saved, o)(q, r) == Max(1, Sizes(c, rounds, s)(q, r))
  {
    ChunkNonNegative(c, rounds, s, q, r);
    HandledLayers(ChunkKeys(saved, q, r), o, ChunkLayers(c, Rounds(rounds), s, q, r));
  }

  /** Without an empty chunk before it, a chunk's place is the counter. */
  lemma NoEmptyChunkAgrees<T>(saved: Saved<T>, o: Options, c: Pipeline, rounds: Option<nat>, s: Shares, q: nat, r: nat)
    requires SavedModel(saved, o, c, rounds, s) && NoEmptyChunk(c, rounds, s) && q < c.stages && r < Rounds(rounds)
    ensures Counter(saved, o, q, r) == ChunkStart(c, rounds, s, q, r)
  {
    forall x: nat, y: nat | x < c.stages && (y < r || (y == r && x < q))
      ensures Steps(saved, o)(x, y) == Sizes(c, rounds, s)(x, y)
    {
      StepIs(saved, o, c, rounds, s, x, y);
      assert !LastChunk(c, rounds, x, y);
    }
    SameStart(Steps(saved, o), Sizes(c, rounds, s), c.stages, q, r);
  }

  /** After an empty chunk that is not the last, the counter is off. */
  lemma AgreementShows<T>(saved: Saved<T>, o: Options, c: Pipeline, rounds: Option<nat>, s: Shares, q: nat, r: nat)
    requires SavedModel(saved, o, c, rounds, s) && CounterAgrees(saved, o, c, rounds, s)
    requires q < c.stages && r < Rounds(rounds) && !LastChunk(c, rounds, q, r)
    ensures ChunkLayers(c, Rounds(rounds), s, q, r) > 0
  {
    var q', r' := if q + 1 < c.stages then q + 1 else 0, if q + 1 < c.stages then r else r + 1;
    assert Counter(saved, o, q', r') == ChunkStart(c, rounds, s, q', r');
    assert Counter(saved, o, q, r) == ChunkStart(c, rounds, s, q, r);
    StepIs(saved, o, c, rounds, s, q, r);
  }

  /** The merger's counter is the place of every chunk exactly when no chunk but the last is without
      decoder layers. */
  lemma CounterIsStart<T>(saved: Saved<T>, o: Options, c: Pipeline, rounds: Option<nat>, s: Shares)
    requires SavedModel(saved, o, c, rounds, s)
    ensures CounterAgrees(saved, o, c, rounds, s) <==> NoEmptyChunk(c, rounds, s)
  {
    if NoEmptyChunk(c, rounds, s) {
      forall q: nat, r: nat | q < c.stages && r < Rounds(rounds)
        ensures Counter(saved, o, q, r) == ChunkStart(c, rounds, s, q, r)
      {
        NoEmptyChunkAgrees(saved, o, c, rounds, s, q, r);
      }
    }
    if CounterAgrees(saved, o, c, rounds, s) {
      forall q: nat, r: nat | q < c.stages && r < Rounds(rounds) && !LastChunk(c, rounds, q, r)
        ensures ChunkLayers(c, Rounds(rounds), s, q, r) > 0
      {
        AgreementShows(saved, o, c, rounds, s, q, r);
      }
    }
  }

  /** A stage that holds layer 0, or only the embedding. */
  function OneLayerStage(decoder: bool): seq<Dict<int>> {
    var key := if decoder then [Name("decoder"), Name("layers"), Number(0), Name("weight")] else [Name("embedding")];
    [Dict([key], map[key := 0])]
  }

  lemma LayerKeyKept(o: Options, key: Path)
    requires key == [Name("decoder"), Name("layers"), Number(0), Name("weight")]
    ensures Kept(key, o) && LocalLayer(key) == Ok(0)
  {
    assert !Mentions(key, "extra_state") && !Mentions(key, "output_layer");
    assert EndsIn(key[0], "decoder");
    assert MiddleAt(key, 0, "decoder", "layers");
  }

  lemma OneKeptHolds(o: Options, key: Path)
    requires Kept(key, o) && LocalLayer(key) == Ok(0)
    ensures HoldsLayers([key], o, 1)
  {
    assert key in [key];
    assert HasLayer([key], o, 0);
  }

  lemma OneLayerStageHolds(o: Options, keys: seq<Path>, decoder: bool)
    requires keys == OneLayerStage(decoder)[0].keys
    ensures HoldsLayers(keys, o, if decoder then 1 else 0)
  {
    if decoder {
      LayerKeyKept(o, keys[0]);
      OneKeptHolds(o, keys[0]);
    } else {
      assert |keys[0]| == 1;
    }
  }

  lemma {:induction false} CounterOfOnes(saved: Saved<int>, o: Options, stage: nat)
    requires 0 < |saved| && forall q: nat | q < stage :: Steps(saved, o)(q, 0) == 1
    ensures Counter(saved, o, stage, 0) == stage
  {
    if stage == 0 {
    } else {
      CounterOfOnes(saved, o, stage - 1);
    }
  }

  /** Three layers and the embedding on four stages: the first chunk is without decoder layers, and the
      counter numbers those of every later one a layer too high. */
  lemma EmbeddingStageMisnumbers(o: Options, saved: Saved<int>, c: Pipeline, rounds: Option<nat>, s: Shares, stage: nat)
    requires c == Pipeline(3, 4, None, None, true, false) && rounds == None && s == Shares(1, 1, 1)
    requires saved == [[OneLayerStage(false)], [OneLayerStage(true)], [OneLayerStage(true)], [OneLayerStage(true)]]
    requires 0 < stage < 4
    ensures SavedModel(saved, o, c, rounds, s) && !NoEmptyChunk(c, rounds, s)
    ensures ChunkStart(c, rounds, s, stage, 0) == stage - 1 && Counter(saved, o, stage, 0) == stage
  {
    assert ChunkLayers(c, 1, s, 0, 0) == 0;
    forall q: nat, r: nat | q < 4 && r < 1 ensures HoldsLayers(ChunkKeys(saved, q, r), o, ChunkLayers(c, 1, s, q, r)) {
      OneLayerStageHolds(o, ChunkKeys(saved, q, r), q > 0);
    }
    ChunkStartClosed(c, rounds, s, stage, 0);
    forall q: nat | q < stage ensures Steps(saved, o)(q, 0) == 1 {
      StepIs(saved, o, c, rounds, s, q, 0);
    }
    CounterOfOnes(saved, o, stage);
  }

  /** The two renumberings agree: for a checkpoint without an empty chunk, the merger's counter is the
      offset that the weight synchroniser computes, wherever that one is supported. */
  lemma CounterIsOffset<T>(saved: Saved<T>, o: Options, c: Pipeline, rounds: Option<nat>, s: Shares, stage: nat,
                           round: nat)
    requires SavedModel(saved, o, c, rounds, s) && NoEmptyChunk(c, rounds, s) && Supported(c, rounds)
    requires stage < c.stages && round < Rounds(rounds)
    ensures LayerOffset(c, stage, round, rounds, stage == 0 && round == 0) == Ok(Counter(saved, o, stage, round))
  {
    CounterIsStart(saved, o, c, rounds, s);
    OffsetsTile(c, rounds, s);
    assert Placed(c, rounds, s, stage, round);
  }

  // ----- names of the parts

  /** The name mentions the fused weights only as whole words, and none of the names of their parts. */
  ghost predicate Plain(key: Path) {
    forall w | w in key && w.Name? ::
      && (Within(QKV, w.text) ==> w.text == QKV) && (Within(FC1, w.text) ==> w.text == FC1)
      && w.text !in {Q, K, V, GATE, UP}
  }

  function RestoreWord(w: Word): Word {
    if w == Name(Q) || w == Name(K) || w == Name(V) then Name(QKV)
    else if w == Name(GATE) || w == Name(UP) then Name(FC1)
    else w
  }

  /** The name of the fused weight that a part came from. */
  function Restore(key: Path): Path {
    seq(|key|, i requires 0 <= i < |key| => RestoreWord(key[i]))
  }

  lemma RestorePlain(key: Path)
    requires Plain(key)
    ensures Restore(key) == key
  {
    assert forall i | 0 <= i < |key| :: key[i] in key;
  }

  lemma {:induction false} SuffixWithin(part: string, text: string)
    requires |part| <= |text| && text[|text| - |part|..] == part
    ensures Within(part, text)
  {
    if |part| == |text| {
      assert text[..|part|] == part;
    } else {
      SuffixWithin(part, text[1..]);
    }
  }

  lemma ReplacedWord(w: Word, from: string, to: string)
    requires from != [] && w.Name? && (Within(from, w.text) ==> w.text == from)
    ensures ReplaceWord(w, from, to) == if w.text == from then Name(to) else w
  {
    if w.text == from {
      ReplaceAll(from, to);
    } else {
      NothingToReplace(w.text, from, to);
    }
  }

  predicate PartOf(from: string, to: string) {
    (from == QKV && (to == Q || to == K || to == V)) || (from == FC1 && (to == GATE || to == UP))
  }

  lemma ReplacedIn(key: Path, from: string, to: string, i: nat)
    requires Plain(key) && PartOf(from, to) && i < |key|
    ensures ReplaceIn(key, from, to)[i] == if key[i] == Name(from) then Name(to) else key[i]
  {
    assert key[i] in key;
    if key[i].Name? {
      ReplacedWord(key[i], from, to);
    }
  }

  lemma RestoreReplaced(key: Path, from: string, to: string)
    requires Plain(key) && PartOf(from, to)
    ensures Restore(ReplaceIn(key, from, to)) == key
  {
    forall i | 0 <= i < |key| ensures Restore(ReplaceIn(key, from, to))[i] == key[i] {
      ReplacedIn(key, from, to, i);
      assert key[i] in key;
    }
  }

  /** A part's name leads back to the parameter it came from. */
  lemma JoinedRestores<T>(key: Path, data: seq<T>, join: Joiner<T>, valueModel: bool, w: Write<T>)
    requires Plain(key) && Joined(key, data, join, valueModel).Ok? && w in Joined(key, data, join, valueModel).value
    ensures Restore(w.key) == key
  {
    match KindOf(key, valueModel)
    case GateUp =>
      RestoreReplaced(key, FC1, GATE);
      RestoreReplaced(key, FC1, UP);
    case Qkv =>
      RestoreReplaced(key, QKV, Q);
      RestoreReplaced(key, QKV, K);
      RestoreReplaced(key, QKV, V);
    case _ =>
      RestorePlain(key);
  }

  lemma GateUpWord(key: Path) returns (i: nat)
    requires Plain(key) && Joint(key, FC1, "weight")
    ensures i < |key| && key[i] == Name(FC1)
  {
    i :| 0 <= i < |key| - 1 && EndsIn(key[i], FC1) && Begins(key[i + 1], "weight");
    assert key[i] in key;
    SuffixWithin(FC1, key[i].text);
  }

  lemma FusedWord(key: Path, valueModel: bool) returns (i: nat)
    requires Plain(key) && KindOf(key, valueModel) in {GateUp, Qkv}
    ensures i < |key| && key[i] == Name(if KindOf(key, valueModel) == GateUp then FC1 else QKV)
  {
    if KindOf(key, valueModel) == GateUp {
      i := GateUpWord(key);
    } else {
      var j :| 0 <= j < |key| && MiddleAt(key, j, "self_attention", "linear_qkv");
      i := j + 1;
    }
  }

  /** The parts of one parameter have names of their own. */
  lemma PartsDiffer<T>(key: Path, data: seq<T>, join: Joiner<T>, valueModel: bool, v: Write<T>, w: Write<T>)
    requires Plain(key) && Joined(key, data, join, valueModel).Ok?
    requires v in Joined(key, data, join, valueModel).value && w in Joined(key, data, join, valueModel).value
    requires v.key == w.key
    ensures v == w
  {
    var kind := KindOf(key, valueModel);
    if kind == GateUp {
      var i := FusedWord(key, valueModel);
      ReplacedIn(key, FC1, GATE, i);
      ReplacedIn(key, FC1, UP, i);
    } else if kind == Qkv {
      var i := FusedWord(key, valueModel);
      ReplacedIn(key, QKV, Q, i);
      ReplacedIn(key, QKV, K, i);
      ReplacedIn(key, QKV, V, i);
    }
  }

  // ----- no write is lost

  lemma NewKeyInDecoder(key: Path, cum: int)
    requires NewKey(key, cum).Ok?
    ensures InDecoder(NewKey(key, cum).value) <==> InDecoder(key)
  {
    if InDecoder(key) {
      var i :| 0 <= i < |key| && MiddleAt(key, i, "decoder", "layers");
      assert MiddleAt(NewKey(key, cum).value, i, "decoder", "layers");
    }
  }

  /** Every decoder key is numbered from 0 up, and every key keeps the names of the parts free. */
  ghost predicate WellNamed<T>(saved: Saved<T>, o: Options) {
    forall q: nat, r: nat, key | key in ChunkKeys(saved, q, r) && !Skipped(key, o) ::
      Plain(key) && (InDecoder(key) && LocalLayer(key).Ok? ==> LocalLayer(key).value >= 0)
  }

  lemma NamePlain<T>(saved: Saved<T>, o: Options, q: nat, r: nat, key: Path)
    requires WellNamed(saved, o) && key in ChunkKeys(saved, q, r) && !Skipped(key, o)
    ensures Plain(key)
  {
  }

  lemma NewKeyPlain(key: Path, cum: int)
    requires Plain(key) && NewKey(key, cum).Ok?
    ensures Plain(NewKey(key, cum).value)
  {
    var out := NewKey(key, cum).value;
    forall w | w in out && w.Name? ensures w in key {
      var i :| 0 <= i < |out| && out[i] == w;
      assert key[i] == w;
    }
  }

  lemma KeyRestores<T>(ranks: seq<Dict<T>>, key: Path, cum: int, join: Joiner<T>, o: Options, w: Write<T>)
    requires Plain(key) && !Skipped(key, o)
    requires KeyWrites(ranks, key, cum, join, o).Ok? && w in KeyWrites(ranks, key, cum, join, o).value
    ensures NewKey(key, cum) == Ok(Restore(w.key)) && Plain(Restore(w.key))
  {
    NewKeyPlain(key, cum);
    JoinedRestores(NewKey(key, cum).value, Gathered(ranks, key).value, join, o.valueModel, w);
  }

  datatype Origin = Origin(stage: nat, round: nat, key: Path)

  /** The write is made for this key of this chunk. */
  ghost predicate WrittenFor<T>(saved: Saved<T>, join: Joiner<T>, o: Options, from: Origin, w: Write<T>)
    requires |saved| > 0
  {
    match from
    case Origin(stage, round, key) =>
      && stage < |saved|
      && key in ChunkKeys(saved, stage, round) && !Skipped(key, o)
      && var here := KeyWrites(Ranks(saved, stage, round), key, Counter(saved, o, stage, round), join, o);
         here.Ok? && w in here.value
  }

  lemma {:induction false} ChunkOrigin<T>(ranks: seq<Dict<T>>, keys: seq<Path>, cum: int, join: Joiner<T>, o: Options,
                                          w: Write<T>) returns (key: Path)
    requires ChunkWrites(ranks, keys, cum, join, o).Ok? && w in ChunkWrites(ranks, keys, cum, join, o).value
    ensures key in keys && !Skipped(key, o)
    ensures KeyWrites(ranks, key, cum, join, o).Ok? && w in KeyWrites(ranks, key, cum, join, o).value
  {
    var init := keys[..|keys| - 1];
    if w in ChunkWrites(ranks, init, cum, join, o).value {
      key := ChunkOrigin(ranks, init, cum, join, o, w);
    } else {
      key := keys[|keys| - 1];
    }
  }

  lemma OriginInChunk<T>(saved: Saved<T>, q: nat, round: nat, join: Joiner<T>, o: Options, w: Write<T>)
    returns (from: Origin)
    requires q < |saved| && OfChunk(saved, q, round, join, o).Ok? && w in OfChunk(saved, q, round, join, o).value
    ensures from.stage == q && from.round == round
    ensures WrittenFor(saved, join, o, from, w)
  {
    var key := ChunkOrigin(Ranks(saved, q, round), ChunkKeys(saved, q, round), Counter(saved, o, q, round), join, o, w);
    from := Origin(q, round, key);
  }

  lemma LastWrites<T>(saved: Saved<T>, stage: nat, round: nat, join: Joiner<T>, o: Options)
    requires 0 < stage <= |saved| && WritesBefore(saved, stage, round, join, o).Ok?
    ensures WritesBefore(saved, stage - 1, round, join, o).Ok? && OfChunk(saved, stage - 1, round, join, o).Ok?
    ensures WritesBefore(saved, stage, round, join, o).value
            == WritesBefore(saved, stage - 1, round, join, o).value + OfChunk(saved, stage - 1, round, join, o).value
  {
  }

  /** The write is made by this chunk. */
  ghost predicate MadeBy<T>(saved: Saved<T>, q: nat, r: nat, join: Joiner<T>, o: Options, w: Write<T>)
    requires |saved| > 0
  {
    match OfChunk(saved, q, r, join, o)
    case Ok(writes) => w in writes
    case Err => false
  }

  /** The write is made by some chunk before this place. */
  ghost predicate MadeBefore<T>(saved: Saved<T>, stage: nat, round: nat, join: Joiner<T>, o: Options, w: Write<T>)
    requires |saved| > 0
  {
    match WritesBefore(saved, stage, round, join, o)
    case Ok(writes) => w in writes
    case Err => false
  }

  lemma MadeHereOrBefore<T>(saved: Saved<T>, stage: nat, round: nat, join: Joiner<T>, o: Options, w: Write<T>)
    requires 0 < stage <= |saved| && MadeBefore(saved, stage, round, join, o, w)
    ensures MadeBy(saved, stage - 1, round, join, o, w) || MadeBefore(saved, stage - 1, round, join, o, w)
  {
    LastWrites(saved, stage, round, join, o);
  }

  lemma MadeInEarlierRound<T>(saved: Saved<T>, round: nat, join: Joiner<T>, o: Options, w: Write<T>)
    requires |saved| > 0 && MadeBefore(saved, 0, round, join, o, w)
    ensures round > 0 && MadeBefore(saved, |saved|, round - 1, join, o, w)
  {
  }

  lemma {:induction false} ChunkOf<T>(saved: Saved<T>, stage: nat, round: nat, join: Joiner<T>, o: Options, w: Write<T>)
    returns (q: nat, r: nat)
    requires |saved| > 0 && stage <= |saved| && MadeBefore(saved, stage, round, join, o, w)
    ensures q < |saved| && (r < round || (r == round && q < stage)) && MadeBy(saved, q, r, join, o, w)
    decreases round, stage
  {
    if stage == 0 {
      MadeInEarlierRound(saved, round, join, o, w);
      q, r := ChunkOf(saved, |saved|, round - 1, join, o, w);
    } else {
      MadeHereOrBefore(saved, stage, round, join, o, w);
      if MadeBy(saved, stage - 1, round, join, o, w) {
        q, r := stage - 1, round;
      } else {
        q, r := ChunkOf(saved, stage - 1, round, join, o, w);
      }
    }
  }

  lemma OriginOf<T>(saved: Saved<T>, stage: nat, round: nat, join: Joiner<T>, o: Options, w: Write<T>)
    returns (from: Origin)
    requires |saved| > 0 && stage <= |saved|
    requires WritesBefore(saved, stage, round, join, o).Ok? && w in WritesBefore(saved, stage, round, join, o).value
    ensures from.round < round || (from.round == round && from.stage < stage)
    ensures WrittenFor(saved, join, o, from, w)
  {
    var q, r := ChunkOf(saved, stage, round, join, o, w);
    from := OriginInChunk(saved, q, r, join, o, w);
  }

  lemma {:induction false} KeyReached<T>(ranks: seq<Dict<T>>, keys: seq<Path>, cum: int, join: Joiner<T>, o: Options,
                                         key: Path)
    requires key in keys && ChunkWrites(ranks, keys, cum, join, o).Ok?
    ensures KeyWrites(ranks, key, cum, join, o).Ok?
    ensures forall w | w in KeyWrites(ranks, key, cum, join, o).value ::
              w in ChunkWrites(ranks, keys, cum, join, o).value
  {
    if key != keys[|keys| - 1] {
      KeyReached(ranks, keys[..|keys| - 1], cum, join, o, key);
    }
  }

  lemma {:induction false} ChunkReached<T>(saved: Saved<T>, stage: nat, round: nat, join: Joiner<T>, o: Options,
                                           q: nat, r: nat)
    requires |saved| > 0 && stage <= |saved| && q < |saved| && (r < round || (r == round && q < stage))
    requires WritesBefore(saved, stage, round, join, o).Ok?
    ensures OfChunk(saved, q, r, join, o).Ok?
    ensures forall w | w in OfChunk(saved, q, r, join, o).value :: w in WritesBefore(saved, stage, round, join, o).value
    decreases round, stage
  {
    if stage == 0 {
      ChunkReached(saved, |saved|, round - 1, join, o, q, r);
    } else {
      LastWrites(saved, stage, round, join, o);
      if stage - 1 != q || round != r {
        ChunkReached(saved, stage - 1, round, join, o, q, r);
      }
    }
  }

  /** Chunks use separate layer numbers. */
  lemma LayersApart<T>(saved: Saved<T>, o: Options, p: Origin, q: Origin)
    requires p.stage < |saved| && q.stage < |saved|
    requires p.round < q.round || (p.round == q.round && p.stage < q.stage)
    requires p.key in ChunkKeys(saved, p.stage, p.round) && Kept(p.key, o) && LocalLayer(p.key).Ok?
    ensures Counter(saved, o, p.stage, p.round) + LocalLayer(p.key).value < Counter(saved, o, q.stage, q.round)
  {
    LocalWithinHandled(ChunkKeys(saved, p.stage, p.round), o, p.key);
    EarlierEndsFirst(Steps(saved, o), |saved|, p.stage, p.round, q.stage, q.round);
  }

  /** The key in the whole model tells the chunk and the key in it. */
  lemma OneOrigin<T>(saved: Saved<T>, o: Options, p: Origin, q: Origin)
    requires WellNamed(saved, o) && p.stage < |saved| && q.stage < |saved|
    requires p.key in ChunkKeys(saved, p.stage, p.round) && Kept(p.key, o)
    requires q.key in ChunkKeys(saved, q.stage, q.round) && !Skipped(q.key, o)
    requires var n := NewKey(p.key, Counter(saved, o, p.stage, p.round));
             n.Ok? && n == NewKey(q.key, Counter(saved, o, q.stage, q.round))
    ensures p == q
  {
    var cp, cq := Counter(saved, o, p.stage, p.round), Counter(saved, o, q.stage, q.round);
    NewKeyInDecoder(p.key, cp);
    NewKeyInDecoder(q.key, cq);
    var out := NewKey(p.key, cp).value;
    assert out[2] == Number(LocalLayer(p.key).value + cp) == Number(LocalLayer(q.key).value + cq);
    if p.round < q.round || (p.round == q.round && p.stage < q.stage) {
      LayersApart(saved, o, p, q);
    } else if q.round < p.round || (p.round == q.round && q.stage < p.stage) {
      LayersApart(saved, o, q, p);
    } else {
      assert p.key == out[2 := p.key[2]] == out[2 := q.key[2]] == q.key;
    }
  }

  lemma WriteRestores<T>(saved: Saved<T>, join: Joiner<T>, o: Options, from: Origin, w: Write<T>)
    requires |saved| > 0 && WellNamed(saved, o)
    requires WrittenFor(saved, join, o, from, w)
    ensures NewKey(from.key, Counter(saved, o, from.stage, from.round)) == Ok(Restore(w.key))
    ensures Plain(Restore(w.key))
  {
    var ranks, cum := Ranks(saved, from.stage, from.round), Counter(saved, o, from.stage, from.round);
    NamePlain(saved, o, from.stage, from.round, from.key);
    KeyRestores(ranks, from.key, cum, join, o, w);
  }

  /** Two writes to one decoder-layer key are one and the same write. */
  lemma OneWritePerKey<T>(saved: Saved<T>, join: Joiner<T>, o: Options, p: Origin, v: Write<T>, q: Origin, w: Write<T>)
    requires |saved| > 0 && WellNamed(saved, o)
    requires WrittenFor(saved, join, o, p, v) && WrittenFor(saved, join, o, q, w)
    requires InDecoder(p.key) && v.key == w.key
    ensures p == q && v == w
  {
    WriteRestores(saved, join, o, p, v);
    WriteRestores(saved, join, o, q, w);
    OneOrigin(saved, o, p, q);
    var data := Gathered(Ranks(saved, p.stage, p.round), p.key).value;
    PartsDiffer(Restore(w.key), data, join, o.valueModel, v, w);
  }

  lemma {:induction false} LastValueStands<T>(state: map<Path, T>, writes: seq<Write<T>>, w: Write<T>)
    requires w in writes && forall v | v in writes && v.key == w.key :: v.value == w.value
    ensures w.key in Apply(state, writes) && Apply(state, writes)[w.key] == w.value
  {
    var last, init := writes[|writes| - 1], writes[..|writes| - 1];
    if last.key != w.key {
      LastValueStands(state, init, w);
    }
  }

  /** Every decoder-layer weight of every chunk is in the merged dictionary with its merged value,
      under the name with its layer number in the whole model: nothing is overwritten. */
  lemma DecoderWeightsSurvive<T>(saved: Saved<T>, join: Joiner<T>, o: Options, rounds: nat,
                                 stage: nat, round: nat, key: Path, w: Write<T>)
    requires |saved| > 0 && WellNamed(saved, o) && StateBefore(saved, 0, rounds, join, o).Ok?
    requires stage < |saved| && round < rounds && key in ChunkKeys(saved, stage, round) && Kept(key, o)
    ensures var cum := Counter(saved, o, stage, round);
            var here := KeyWrites(Ranks(saved, stage, round), key, cum, join, o);
            here.Ok? && LocalLayer(key).Ok?
            && (w in here.value ==>
                  var state := StateBefore(saved, 0, rounds, join, o).value;
                  w.key in state && state[w.key] == w.value && Restore(w.key) == Renumbered(key, 2, cum))
  {
    var all := WritesBefore(saved, 0, rounds, join, o).value;
    var cum := Counter(saved, o, stage, round);
    ChunkReached(saved, 0, rounds, join, o, stage, round);
    KeyReached(Ranks(saved, stage, round), ChunkKeys(saved, stage, round), cum, join, o, key);
    if w in KeyWrites(Ranks(saved, stage, round), key, cum, join, o).value {
      var from := Origin(stage, round, key);
      WriteRestores(saved, join, o, from, w);
      forall v | v in all && v.key == w.key ensures v.value == w.value {
        var other := OriginOf(saved, 0, rounds, join, o, v);
        OneWritePerKey(saved, join, o, from, w, other, v);
      }
      LastValueStands(map[], all, w);
    }
  }
}
