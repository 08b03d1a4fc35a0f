/** Which decoder layers each pipeline chunk holds. The weight synchroniser computes the first layer
    of a chunk in closed form; laying the chunks end to end is the reference it is compared with. */
module LayerOffsets {
  import opened Outcomes
  import opened Sequences

  /** The parts of the transformer configuration that decide the pipeline split. `first` and `last`
      are the sizes of an uneven first and last stage, when set. */
  datatype Pipeline = Pipeline(layers: nat, stages: nat, first: Option<nat>, last: Option<nat>,
                               embedding: bool, loss: bool)
  {
    predicate Uneven() {
      first.Some? || last.Some?
    }

    predicate CountsEmbedding() {
      stages > 1 && !Uneven() && embedding
    }

    predicate CountsLoss() {
      stages > 1 && !Uneven() && loss
    }
  }

  function Or0(size: Option<nat>): nat {
    if size.Some? then size.value else 0
  }

  function One(b: bool): nat {
    if b then 1 else 0
  }

  /** Python's floor division by a non-negative divisor. */
  function Div(x: int, y: nat): Result<int> {
    if y == 0 then Err else Ok(x / y)
  }

  function UnevenOffset(c: Pipeline, stage: nat, round: nat, rounds: Option<nat>): Result<int>
    requires c.stages > 1
  {
    var middleStages := c.stages - One(c.first.Some?) - One(c.last.Some?);
    var middle := c.layers - Or0(c.first) - Or0(c.last);
    match rounds
    case Some(size) =>
      var inFirst :- Div(Or0(c.first), size);
      var inLast :- Div(Or0(c.last), size);
      var inMiddle :- Div(middle, size);
      var total := inFirst + inMiddle + inLast;
      if stage == 0 then Ok(round * total)
      else
        var perStage :- Div(inMiddle, middleStages);
        Ok(round * total + inFirst + (stage - 1) * perStage)
    case None =>
      var perStage := if middleStages > 0 then middle / middleStages else 0;
      var middleRank := if c.first.None? then stage as int else stage - 1;
      Ok(if stage == 0 then 0 else middleRank * perStage + Or0(c.first))
  }

  /** The closed form. `rounds` is the virtual pipeline size of the calling process and `onFirst` its
      answer to being the first stage: both are read from the process, not from the arguments. */
  function LayerOffset(c: Pipeline, stage: nat, round: nat, rounds: Option<nat>, onFirst: bool): Result<int> {
    if c.stages <= 1 then Ok(0)
    else if c.Uneven() then UnevenOffset(c, stage, round, rounds)
    else
      var layers := c.layers + One(c.embedding) + One(c.loss);
      var perStage := layers / c.stages;
      var minus := One(c.embedding && !onFirst);
      match rounds
      case Some(size) =>
        var perChunk :- Div(perStage, size);
        var total :- Div(layers, size);
        Ok(Times(round, total) + stage * perChunk - minus)
      case None => Ok(stage * perStage - minus)
  }

  // ----- the reference: chunks laid end to end

  /** Layers per chunk of the first, the middle and the last stages, the embedding and loss counted
      as layers where the configuration says so. */
  datatype Shares = Shares(first: nat, middle: nat, last: nat)

  function Rounds(rounds: Option<nat>): nat {
    if rounds.Some? then rounds.value else 1
  }

  /** Layers of one round over all the stages. */
  function PerRound(c: Pipeline, s: Shares): nat {
    if c.stages <= 1 then s.first else s.first + Times(c.stages - 2, s.middle) + s.last
  }

  /** The configuration divides evenly into these shares. */
  ghost predicate Divides(c: Pipeline, rounds: Option<nat>, s: Shares) {
    && c.stages > 0 && Rounds(rounds) > 0 && (c.stages == 1 ==> rounds.None?)
    && (c.first.None? ==> s.first == s.middle) && (c.last.None? ==> s.last == s.middle)
    && (c.stages > 1 && c.first.Some? ==> c.first.value == Times(Rounds(rounds), s.first))
    && (c.stages > 1 && c.last.Some? ==> c.last.value == Times(Rounds(rounds), s.last))
    && c.layers + One(c.CountsEmbedding()) + One(c.CountsLoss()) == Times(Rounds(rounds), PerRound(c, s))
  }

  function Share(c: Pipeline, s: Shares, stage: nat): nat {
    if stage == 0 then s.first else if stage + 1 == c.stages then s.last else s.middle
  }

  function ChunkLayers(c: Pipeline, rounds: nat, s: Shares, stage: nat, round: nat): int {
    Share(c, s, stage) - One(c.CountsEmbedding() && stage == 0 && round == 0)
      - One(c.CountsLoss() && stage + 1 == c.stages && round + 1 == rounds)
  }

  /** The layers before a chunk, in the order of the merger: rounds outside, stages inside. */
  function Start(size: (nat, nat) -> int, stages: nat, stage: nat, round: nat): int
    requires stages > 0
    decreases round, stage
  {
    if stage > 0 then Start(size, stages, stage - 1, round) + size(stage - 1, round)
    else if round > 0 then Start(size, stages, stages - 1, round - 1) + size(stages - 1, round - 1)
    else 0
  }

  function Sizes(c: Pipeline, rounds: Option<nat>, s: Shares): (nat, nat) -> int {
    (stage: nat, round: nat) => ChunkLayers(c, Rounds(rounds), s, stage, round)
  }

  function ChunkStart(c: Pipeline, rounds: Option<nat>, s: Shares, stage: nat, round: nat): int
    requires c.stages > 0
  {
    Start(Sizes(c, rounds, s), c.stages, stage, round)
  }

  /** Layers of one round before a stage. */
  function Before(c: Pipeline, s: Shares, stage: nat): nat
  {
    if stage == 0 then 0 else s.first + Times(stage - 1, s.middle)
  }

  lemma BeforeNext(c: Pipeline, s: Shares, stage: nat)
    requires stage < c.stages
    ensures Before(c, s, stage) + Share(c, s, stage)
            == if stage + 1 == c.stages then PerRound(c, s) else Before(c, s, stage + 1)
  {
    if 0 < stage {
      Succ(stage - 1, s.middle);
    }
  }

  lemma {:induction false} ChunkStartClosed(c: Pipeline, rounds: Option<nat>, s: Shares, stage: nat, round: nat)
    requires stage < c.stages && round < Rounds(rounds)
    ensures ChunkStart(c, rounds, s, stage, round)
            == Times(round, PerRound(c, s)) + Before(c, s, stage)
               - One(c.CountsEmbedding() && !(stage == 0 && round == 0))
    decreases round, stage
  {
    if stage > 0 {
      ChunkStartClosed(c, rounds, s, stage - 1, round);
      BeforeNext(c, s, stage - 1);
    } else if round > 0 {
      ChunkStartClosed(c, rounds, s, c.stages - 1, round - 1);
      BeforeNext(c, s, c.stages - 1);
      Succ(round - 1, PerRound(c, s));
    }
  }

  // ----- the closed form meets the reference

  /** The closed form, asked by the chunk's own process, gives the chunk's place. */
  ghost predicate Placed(c: Pipeline, rounds: Option<nat>, s: Shares, stage: nat, round: nat)
    requires c.stages > 0
  {
    LayerOffset(c, stage, round, rounds, stage == 0 && round == 0) == Ok(ChunkStart(c, rounds, s, stage, round))
  }

  ghost predicate AllPlaced(c: Pipeline, rounds: Option<nat>, s: Shares)
    requires c.stages > 0
  {
    forall stage: nat, round: nat | stage < c.stages && round < Rounds(rounds) :: Placed(c, rounds, s, stage, round)
  }

  /** What the interleaved uneven branch takes for granted: there is a middle stage, and the first
      stage has its own size (or there are no middle layers to misplace). */
  predicate Supported(c: Pipeline, rounds: Option<nat>) {
    rounds.None? || c.stages <= 1 || !c.Uneven()
    || (c.stages > One(c.first.Some?) + One(c.last.Some?) && (c.first.Some? || c.layers <= Or0(c.last)))
  }

  lemma DivIs(x: nat, y: nat, q: nat)
    requires y > 0 && x == Times(y, q)
    ensures x / y == q && Div(x, y) == Ok(q)
  {
    QuotientIs(x, y, q, 0);
  }

  lemma TimesSwap(x: nat, y: nat, z: nat)
    ensures Times(x, y) == Times(y, x) && Times(x, Times(y, z)) == Times(y, Times(x, z))
  {
    assert x * (y * z) == y * (x * z);
  }

  lemma EvenRound(c: Pipeline, s: Shares)
    requires c.stages > 1 && s.first == s.middle == s.last
    ensures PerRound(c, s) == Times(c.stages, s.middle)
    ensures forall stage: nat | stage < c.stages :: Before(c, s, stage) == stage * s.middle
  {
    Succ(c.stages - 2, s.middle);
    Succ(c.stages - 1, s.middle);
    forall stage: nat | stage < c.stages ensures Before(c, s, stage) == stage * s.middle {
      if stage > 0 {
        Succ(stage - 1, s.middle);
      }
    }
  }

  /** The even split: correct from the chunk's own process, and only from there. */
  lemma EvenPlaced(c: Pipeline, rounds: Option<nat>, s: Shares, stage: nat, round: nat, onFirst: bool)
    requires Divides(c, rounds, s) && c.stages > 1 && !c.Uneven()
    requires stage < c.stages && round < Rounds(rounds)
    ensures LayerOffset(c, stage, round, rounds, onFirst) == Ok(ChunkStart(c, rounds, s, stage, round))
            <==> (c.embedding ==> onFirst == (stage == 0 && round == 0))
  {
    var n := Rounds(rounds);
    var all := c.layers + One(c.embedding) + One(c.loss);
    EvenRound(c, s);
    ChunkStartClosed(c, rounds, s, stage, round);
    TimesSwap(n, c.stages, s.middle);
    DivIs(all, c.stages, Times(n, s.middle));
    DivIs(all, n, PerRound(c, s));
    DivIs(Times(n, s.middle), n, s.middle);
    assert rounds.None? ==> n == 1 && Times(n, s.middle) == s.middle && Times(round, PerRound(c, s)) == 0;
  }

  lemma Distribute3(n: nat, x: nat, y: nat, z: nat)
    ensures Times(n, x + y + z) == Times(n, x) + Times(n, y) + Times(n, z) && Times(n, 0) == 0
  {
    assert n * (x + y + z) == n * x + n * y + n * z;
  }

  /** The number of middle stages and the layers they hold together. */
  lemma MiddleLayers(c: Pipeline, rounds: Option<nat>, s: Shares) returns (stages: nat, perRound: nat)
    requires Divides(c, rounds, s) && c.stages > 1 && c.Uneven()
    ensures stages == c.stages - One(c.first.Some?) - One(c.last.Some?) && perRound == Times(stages, s.middle)
    ensures c.layers - Or0(c.first) - Or0(c.last) == Times(Rounds(rounds), perRound)
    ensures PerRound(c, s) == perRound + (if c.first.Some? then s.first else 0) + (if c.last.Some? then s.last else 0)
  {
    stages := c.stages - One(c.first.Some?) - One(c.last.Some?);
    perRound := Times(stages, s.middle);
    var f, l := if c.first.Some? then s.first else 0, if c.last.Some? then s.last else 0;
    Succ(c.stages - 2, s.middle);
    Distribute3(Rounds(rounds), perRound, f, l);
  }

  lemma UnevenPlaced(c: Pipeline, rounds: Option<nat>, s: Shares, stage: nat, round: nat)
    requires Divides(c, rounds, s) && c.stages > 1 && c.Uneven() && rounds.None?
    requires stage < c.stages && round < Rounds(rounds)
    ensures Placed(c, rounds, s, stage, round)
  {
    ChunkStartClosed(c, rounds, s, stage, round);
    var stages, perRound := MiddleLayers(c, rounds, s);
    if stages > 0 {
      DivIs(perRound, stages, s.middle);
    }
    if stage > 0 {
      Succ(stage - 1, s.middle);
    }
  }

  /** The shares of the interleaved uneven branch, as it computes them. */
  lemma InterleavedShares(c: Pipeline, rounds: Option<nat>, s: Shares) returns (stages: nat, f: nat, perRound: nat)
    requires Divides(c, rounds, s) && c.stages > 1 && c.Uneven() && rounds.Some?
    ensures stages == c.stages - One(c.first.Some?) - One(c.last.Some?) && f == if c.first.Some? then s.first else 0
    ensures Div(Or0(c.first), rounds.value) == Ok(f)
    ensures Div(Or0(c.last), rounds.value) == Ok(PerRound(c, s) - f - perRound)
    ensures Div(c.layers - Or0(c.first) - Or0(c.last), rounds.value) == Ok(perRound)
    ensures stages > 0 ==> Div(perRound, stages) == Ok(s.middle)
  {
    var n := rounds.value;
    stages, perRound := MiddleLayers(c, rounds, s);
    f := if c.first.Some? then s.first else 0;
    var l := if c.last.Some? then s.last else 0;
    Distribute3(n, 0, 0, 0);
    DivIs(Or0(c.first), n, f);
    DivIs(Or0(c.last), n, l);
    DivIs(Times(n, perRound), n, perRound);
    if stages > 0 {
      DivIs(perRound, stages, s.middle);
    }
  }

  lemma Positions(c: Pipeline, s: Shares, stage: nat, f: nat)
    requires 0 < stage < c.stages && f == (if c.first.Some? then s.first else 0)
    requires c.first.None? ==> s.first == s.middle
    ensures f + (stage - 1) * s.middle == Before(c, s, stage) <==> c.first.Some? || s.middle == 0
  {
  }

  /** The interleaved uneven branch places a chunk exactly when it is on the first stage, or there is
      a middle stage to divide by and the first stage was not left to the even share. */
  lemma InterleavedPlaced(c: Pipeline, rounds: Option<nat>, s: Shares, stage: nat, round: nat)
    requires Divides(c, rounds, s) && c.stages > 1 && c.Uneven() && rounds.Some?
    requires stage < c.stages && round < Rounds(rounds)
    ensures Placed(c, rounds, s, stage, round)
            <==> stage == 0 || (c.stages > One(c.first.Some?) + One(c.last.Some?) && (c.first.Some? || s.middle == 0))
  {
    ChunkStartClosed(c, rounds, s, stage, round);
    var stages, f, perRound := InterleavedShares(c, rounds, s);
    var offset := UnevenOffset(c, stage, round, rounds);
    assert stage == 0 ==> offset == Ok(Times(round, PerRound(c, s)));
    if 0 < stage {
      Positions(c, s, stage, f);
      assert if stages == 0 then offset == Err
             else offset == Ok(Times(round, PerRound(c, s)) + f + (stage - 1) * s.middle);
    }
  }

  lemma NoMiddleLayers(c: Pipeline, rounds: Option<nat>, s: Shares)
    requires Divides(c, rounds, s) && c.stages > 1 && c.first.None? && c.last.Some?
    ensures s.middle == 0 <==> c.layers <= Or0(c.last)
  {
    var stages, perRound := MiddleLayers(c, rounds, s);
    if s.middle > 0 {
      Monotone(1, stages, s.middle);
      Monotone(1, Rounds(rounds), perRound);
    } else {
      assert perRound == 0 && Times(Rounds(rounds), perRound) == 0;
    }
  }

  lemma PlacedWhenSupported(c: Pipeline, rounds: Option<nat>, s: Shares, stage: nat, round: nat)
    requires Divides(c, rounds, s) && Supported(c, rounds) && c.stages > 1
    requires stage < c.stages && round < Rounds(rounds)
    ensures Placed(c, rounds, s, stage, round)
  {
    if !c.Uneven() {
      EvenPlaced(c, rounds, s, stage, round, stage == 0 && round == 0);
    } else if rounds.None? {
      UnevenPlaced(c, rounds, s, stage, round);
    } else {
      InterleavedPlaced(c, rounds, s, stage, round);
      if c.first.None? {
        NoMiddleLayers(c, rounds, s);
      }
    }
  }

  /** The closed form is the running sum of the chunk sizes, for every split of the configuration,
      exactly when the interleaved uneven branch is given a first-stage size and a middle stage. */
  lemma OffsetsTile(c: Pipeline, rounds: Option<nat>, s: Shares)
    requires Divides(c, rounds, s)
    ensures AllPlaced(c, rounds, s) <==> Supported(c, rounds)
  {
    if c.stages == 1 {
      ChunkStartClosed(c, rounds, s, 0, 0);
    } else if c.Uneven() && rounds.Some? {
      InterleavedPlaced(c, rounds, s, 1, 0);
      if c.first.None? {
        NoMiddleLayers(c, rounds, s);
      }
      assert Placed(c, rounds, s, 1, 0) <==> Supported(c, rounds);
    }
    if Supported(c, rounds) && c.stages > 1 {
      forall stage: nat, round: nat | stage < c.stages && round < Rounds(rounds)
        ensures Placed(c, rounds, s, stage, round)
      {
        PlacedWhenSupported(c, rounds, s, stage, round);
      }
    }
  }

  /** A process of the first stage that renumbers all its chunks answers `onFirst` once for all of
      them: with the embedding counted and more than one round, some chunk is misnumbered. */
  lemma OneAnswerMisplaces(c: Pipeline, rounds: Option<nat>, s: Shares, onFirst: bool)
    requires Divides(c, rounds, s) && c.CountsEmbedding()
    ensures (forall round: nat | round < Rounds(rounds) ::
               LayerOffset(c, 0, round, rounds, onFirst) == Ok(ChunkStart(c, rounds, s, 0, round)))
            <==> onFirst && Rounds(rounds) == 1
  {
    EvenPlaced(c, rounds, s, 0, 0, onFirst);
    if Rounds(rounds) > 1 {
      EvenPlaced(c, rounds, s, 0, 1, onFirst);
    }
  }

  // ----- configurations on which it fails

  /** Eight layers on four stages and two rounds, with only the last stage's size set: the first two
      stages are given the same offset, and the second one's chunk starts a layer later. */
  lemma FirstTwoStagesCollide(c: Pipeline, rounds: Option<nat>, s: Shares)
    requires c == Pipeline(8, 4, None, Some(2), false, false) && rounds == Some(2) && s == Shares(1, 1, 1)
    ensures Divides(c, rounds, s) && !Supported(c, rounds)
    ensures LayerOffset(c, 0, 0, rounds, true) == Ok(0) == LayerOffset(c, 1, 0, rounds, false)
    ensures ChunkStart(c, rounds, s, 0, 0) == 0 && ChunkStart(c, rounds, s, 1, 0) == 1
  {
    ChunkStartClosed(c, rounds, s, 1, 0);
  }

  /** No middle stage to divide by: the offset of the second stage is a division by zero. */
  lemma NoMiddleStageFails(c: Pipeline, rounds: Option<nat>, s: Shares)
    requires c == Pipeline(8, 2, Some(4), Some(4), false, false) && rounds == Some(2) && s == Shares(2, 0, 2)
    ensures Divides(c, rounds, s) && !Supported(c, rounds) && LayerOffset(c, 1, 0, rounds, false).Err?
  {
  }

  /** Seven layers and the embedding on four stages and two rounds: a process of the first stage that
      answers yes places its second chunk one layer late, and one that answers no its first before 0. */
  lemma FirstStageMisnumbers(c: Pipeline, rounds: Option<nat>, s: Shares)
    requires c == Pipeline(7, 4, None, None, true, false) && rounds == Some(2) && s == Shares(1, 1, 1)
    ensures Divides(c, rounds, s) && c.CountsEmbedding()
    ensures LayerOffset(c, 0, 1, rounds, true) == Ok(4) && ChunkStart(c, rounds, s, 0, 1) == 3
    ensures LayerOffset(c, 0, 0, rounds, false) == Ok(-1) && ChunkStart(c, rounds, s, 0, 0) == 0
  {
    ChunkStartClosed(c, rounds, s, 0, 1);
  }

  // ----- every layer lives in exactly one place

  lemma ChunkNonNegative(c: Pipeline, rounds: Option<nat>, s: Shares, stage: nat, round: nat)
    requires Divides(c, rounds, s) && stage < c.stages && round < Rounds(rounds)
    ensures ChunkLayers(c, Rounds(rounds), s, stage, round) >= 0
  {
    if c.stages > 1 && !c.Uneven() {
      EvenRound(c, s);
      if s.middle == 0 {
        assert PerRound(c, s) == 0 && Times(Rounds(rounds), 0) == 0;
      }
    }
  }

  /** The chunk after the last one would start at the number of layers. */
  lemma ChunksEndAtLayers(c: Pipeline, rounds: Option<nat>, s: Shares)
    requires Divides(c, rounds, s)
    ensures ChunkStart(c, rounds, s, 0, Rounds(rounds)) == c.layers
  {
    var n := Rounds(rounds);
    ChunkStartClosed(c, rounds, s, c.stages - 1, n - 1);
    BeforeNext(c, s, c.stages - 1);
    Succ(n - 1, PerRound(c, s));
  }

  /** A place for a layer: a chunk and a local number in it. */
  datatype Place = Place(stage: nat, round: nat, local: nat)

  ghost predicate PlaceOf(c: Pipeline, rounds: Option<nat>, s: Shares, p: Place, layer: int)
    requires c.stages > 0
  {
    && p.stage < c.stages && p.round < Rounds(rounds)
    && p.local < ChunkLayers(c, Rounds(rounds), s, p.stage, p.round)
    && ChunkStart(c, rounds, s, p.stage, p.round) + p.local == layer
  }

  lemma {:induction false} FindPlace(c: Pipeline, rounds: Option<nat>, s: Shares, stage: nat, round: nat, layer: nat)
    returns (p: Place)
    requires Divides(c, rounds, s)
    requires (stage < c.stages && round < Rounds(rounds)) || (stage == 0 && round == Rounds(rounds))
    requires layer < ChunkStart(c, rounds, s, stage, round)
    ensures PlaceOf(c, rounds, s, p, layer)
    decreases round, stage
  {
    var q, r := if stage > 0 then stage - 1 else c.stages - 1, if stage > 0 then round else round - 1;
    if layer < ChunkStart(c, rounds, s, q, r) {
      p := FindPlace(c, rounds, s, q, r, layer);
    } else {
      p := Place(q, r, layer - ChunkStart(c, rounds, s, q, r));
    }
  }

  /** Chunks earlier in the order end before later ones start, whatever their sizes. */
  lemma {:induction false} EarlierEndsFirst(size: (nat, nat) -> int, stages: nat,
                                            stage: nat, round: nat, later: nat, laterRound: nat)
    requires stage < stages && later < stages && (round < laterRound || (round == laterRound && stage < later))
    requires forall q: nat, r: nat | q < stages && r <= laterRound :: size(q, r) >= 0
    ensures Start(size, stages, stage, round) + size(stage, round) <= Start(size, stages, later, laterRound)
    decreases laterRound, later
  {
    var q, r := if later > 0 then later - 1 else stages - 1, if later > 0 then laterRound else laterRound - 1;
    assert size(q, r) >= 0;
    if round < r || (round == r && stage < q) {
      EarlierEndsFirst(size, stages, stage, round, q, r);
    }
  }

  lemma ChunkEndsFirst(c: Pipeline, rounds: Option<nat>, s: Shares, stage: nat, round: nat, later: nat, laterRound: nat)
    requires Divides(c, rounds, s) && stage < c.stages && later < c.stages && laterRound < Rounds(rounds)
    requires round < laterRound || (round == laterRound && stage < later)
    ensures ChunkStart(c, rounds, s, stage, round) + ChunkLayers(c, Rounds(rounds), s, stage, round)
            <= ChunkStart(c, rounds, s, later, laterRound)
  {
    forall q: nat, r: nat | q < c.stages && r <= laterRound ensures Sizes(c, rounds, s)(q, r) >= 0 {
      ChunkNonNegative(c, rounds, s, q, r);
    }
    EarlierEndsFirst(Sizes(c, rounds, s), c.stages, stage, round, later, laterRound);
  }

  lemma SamePlace(c: Pipeline, rounds: Option<nat>, s: Shares, p: Place, q: Place, layer: int)
    requires Divides(c, rounds, s) && PlaceOf(c, rounds, s, p, layer) && PlaceOf(c, rounds, s, q, layer)
    ensures p == q
  {
    if p.round < q.round || (p.round == q.round && p.stage < q.stage) {
      ChunkEndsFirst(c, rounds, s, p.stage, p.round, q.stage, q.round);
    } else if q.round < p.round || (p.round == q.round && q.stage < p.stage) {
      ChunkEndsFirst(c, rounds, s, q.stage, q.round, p.stage, p.round);
    }
  }

  lemma PlaceInRange(c: Pipeline, rounds: Option<nat>, s: Shares, p: Place, layer: int)
    requires Divides(c, rounds, s) && PlaceOf(c, rounds, s, p, layer)
    ensures 0 <= layer < c.layers
  {
    if !(p.stage == 0 && p.round == 0) {
      ChunkEndsFirst(c, rounds, s, 0, 0, p.stage, p.round);
      ChunkNonNegative(c, rounds, s, 0, 0);
    }
    var stage, round := c.stages - 1, Rounds(rounds) - 1;
    ChunksEndAtLayers(c, rounds, s);
    ChunkNonNegative(c, rounds, s, stage, round);
    if !(p.stage == stage && p.round == round) {
      ChunkEndsFirst(c, rounds, s, p.stage, p.round, stage, round);
    }
  }

  /** No gap and no overlap: every decoder layer has exactly one place. */
  lemma EveryLayerOnce(c: Pipeline, rounds: Option<nat>, s: Shares, layer: int)
    requires Divides(c, rounds, s)
    ensures 0 <= layer < c.layers <==> exists p :: PlaceOf(c, rounds, s, p, layer)
    ensures forall p, q | PlaceOf(c, rounds, s, p, layer) && PlaceOf(c, rounds, s, q, layer) :: p == q
  {
    ChunksEndAtLayers(c, rounds, s);
    if 0 <= layer < c.layers {
      var p := FindPlace(c, rounds, s, 0, Rounds(rounds), layer);
    }
    forall p | PlaceOf(c, rounds, s, p, layer) ensures 0 <= layer < c.layers {
      PlaceInRange(c, rounds, s, p, layer);
    }
    forall p, q | PlaceOf(c, rounds, s, p, layer) && PlaceOf(c, rounds, s, q, layer) ensures p == q {
      SamePlace(c, rounds, s, p, q, layer);
    }
  }
}
