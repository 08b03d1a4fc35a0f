/** The two ways to compute the token losses of supervised fine-tuning: on the padded batch, and
    packed without padding and cut over the sequence-parallel ranks. The model's forward pass and the
    loss of one token are parameters. */
module PaddingFreeLoss {
  import opened Sequences
  import opened Packing

  // ----- rows

  function Tail<T>(row: seq<T>): seq<T> {
    Drop(row, 1)
  }

  function DropLast<T>(row: seq<T>): seq<T> {
    if row == [] then [] else row[..|row| - 1]
  }

  function DropLasts<T>(rows: seq<seq<T>>): seq<seq<T>> {
    seq(|rows|, b requires 0 <= b < |rows| => DropLast(rows[b]))
  }

  /** The loss of each position, from its logits and its label. */
  function Losses<L, K>(logits: seq<L>, labels: seq<K>, loss: (L, K) -> real): seq<real>
    requires |logits| == |labels|
  {
    seq(|logits|, i requires 0 <= i < |logits| => loss(logits[i], labels[i]))
  }

  function Scaled(x: real, m: real): real {
    x * m
  }

  function Masked(losses: seq<real>, mask: seq<real>): seq<real>
    requires |losses| == |mask|
  {
    seq(|losses|, i requires 0 <= i < |losses| => Scaled(losses[i], mask[i]))
  }

  /** A batch: token ids and attention mask, one row per sample, all rows of one width. */
  datatype Batch<K> = Batch(ids: seq<seq<K>>, attention: seq<seq<bool>>, positions: seq<seq<nat>>, width: nat) {
    ghost predicate Valid() {
      && |ids| == |attention| == |positions|
      && Uniform(ids, width) && Uniform(attention, width) && Uniform(positions, width)
    }
  }

  // ----- the plain path

  ghost function PlainRows<L, K>(x: Batch<K>, logits: seq<seq<L>>, loss: (L, K) -> real): seq<seq<real>>
    requires x.Valid() && |logits| == |x.ids| && Uniform(logits, x.width)
  {
    seq(|x.ids|, b requires 0 <= b < |x.ids| =>
      assert logits[b] in logits && x.ids[b] in x.ids;
      Losses(DropLast(logits[b]), Tail(x.ids[b]), loss))
  }

  // ----- sequence parallelism on vectors

  /** `torch.roll(x, -1)`. */
  function Roll<T>(x: seq<T>): seq<T> {
    if x == [] then [] else x[1..] + [x[0]]
  }

  function PadSize(total: nat, ranks: nat): nat {
    if ranks <= 1 then 0 else (ranks - total % ranks) % ranks
  }

  /** The padding that makes the ranks divide the packed length. */
  function UlyssesPad<T>(x: seq<T>, ranks: nat, zero: T): seq<T> {
    x + seq(PadSize(|x|, ranks), _ => zero)
  }

  /** Padding positions count up from 0. */
  function UlyssesPadPositions(x: seq<nat>, ranks: nat): seq<nat> {
    x + seq(PadSize(|x|, ranks), i requires 0 <= i => i)
  }

  /** The part of one rank; a length the ranks do not divide loses its remainder. */
  function SliceInput<T>(x: seq<T>, ranks: nat, rank: nat): seq<T>
    requires rank < ranks
  {
    var part := |x| / ranks;
    Succ(rank, part);
    Slice(x, Times(rank, part), Times(rank + 1, part))
  }

  function Slices<T>(x: seq<T>, ranks: nat): seq<seq<T>> {
    seq(ranks, r requires 0 <= r < ranks => SliceInput(x, ranks, r))
  }

  function Unpad<T>(x: seq<T>, padding: nat): seq<T>
    requires padding <= |x|
  {
    if padding == 0 then x else x[..|x| - padding]
  }

  lemma PadDivides(total: nat, ranks: nat)
    requires ranks > 0
    ensures (total + PadSize(total, ranks)) % ranks == 0
  {
    var q, r := total / ranks, total % ranks;
    assert total == ranks * q + r;
    Succ(q, ranks);
    if ranks == 1 {
      QuotientIs(total, 1, total, 0);
    } else if r == 0 {
      QuotientIs(ranks, ranks, 1, 0);
      QuotientIs(total, ranks, q, 0);
    } else {
      QuotientIs(ranks - r, ranks, 0, ranks - r);
      QuotientIs(total + (ranks - r), ranks, q + 1, 0);
    }
  }

  lemma WholePart(x: nat, n: nat)
    requires n > 0 && x % n == 0
    ensures x == n * (x / n)
  {
  }

  lemma SliceAt<T>(x: seq<T>, from: nat, part: nat, r: nat, slice: seq<T>)
    requires from == Times(r, part) && from + part <= |x| && Times(r, part) <= Times(r + 1, part)
    requires slice == Slice(x, Times(r, part), Times(r + 1, part))
    ensures slice == x[from..from + part]
  {
    Succ(r, part);
  }

  /** The slices of all ranks are consecutive parts; together they are the whole. */
  lemma SlicesAreParts<T>(x: seq<T>, ranks: nat)
    requires ranks > 0 && |x| % ranks == 0
    ensures Concat(Slices(x, ranks)) == x
    ensures Uniform(Slices(x, ranks), |x| / ranks)
  {
    var part := |x| / ranks;
    WholePart(|x|, ranks);
    ProductSplits(x, ranks, part);
    ConcatOfParts(x, ranks, part);
    PartsUniform(x, ranks, part);
    PartsLength(x, ranks, part);
    forall r | 0 <= r < ranks ensures Slices(x, ranks)[r] == Parts(x, ranks, part)[r] {
      ConcatAt(Parts(x, ranks, part), part, r, Times(r, part));
      SliceAt(x, Times(r, part), part, r, SliceInput(x, ranks, r));
    }
    assert Slices(x, ranks) == Parts(x, ranks, part);
  }

  // ----- the packed path

  lemma SameLength<K>(x: Batch<K>)
    requires x.Valid()
    ensures |Concat(x.ids)| == |Concat(x.attention)| == |Concat(x.positions)| == |x.ids| * x.width
  {
    ConcatSize(x.ids, x.width);
    ConcatSize(x.attention, x.width);
    ConcatSize(x.positions, x.width);
  }

  /** What the forward pass is run on: the packed ids and positions, padded for the ranks. */
  ghost function PackedIds<K>(x: Batch<K>): seq<K>
    requires x.Valid()
  {
    SameLength(x);
    Select(Concat(x.ids), Indices(Concat(x.attention)))
  }

  ghost function PackedPositions<K>(x: Batch<K>): seq<nat>
    requires x.Valid()
  {
    SameLength(x);
    Select(Concat(x.positions), Indices(Concat(x.attention)))
  }

  lemma SameSlice<L, K>(logits: seq<L>, labels: seq<K>, ranks: nat, r: nat)
    requires r < ranks && |logits| == |labels|
    ensures |SliceInput(logits, ranks, r)| == |SliceInput(labels, ranks, r)|
  {
  }

  function RankLosses<L, K>(logits: seq<L>, labels: seq<K>, ranks: nat, loss: (L, K) -> real): seq<seq<real>>
    requires |logits| == |labels|
  {
    seq(ranks, r requires 0 <= r < ranks =>
      SameSlice(logits, labels, ranks, r);
      Losses(SliceInput(logits, ranks, r), SliceInput(labels, ranks, r), loss))
  }

  lemma LossesAppend<L, K>(a: seq<L>, x: seq<K>, b: seq<L>, y: seq<K>, loss: (L, K) -> real)
    requires |a| == |x| && |b| == |y|
    ensures Losses(a, x, loss) + Losses(b, y, loss) == Losses(a + b, x + y, loss)
  {
  }

  lemma {:induction false} LossesOfParts<L, K>(logits: seq<seq<L>>, labels: seq<seq<K>>, losses: seq<seq<real>>,
                                               loss: (L, K) -> real)
    requires |logits| == |labels| == |losses|
    requires forall r | 0 <= r < |logits| ::
               |logits[r]| == |labels[r]| && losses[r] == Losses(logits[r], labels[r], loss)
    ensures |Concat(logits)| == |Concat(labels)| && Concat(losses) == Losses(Concat(logits), Concat(labels), loss)
  {
    if logits == [] {
    } else {
      LossesOfParts(logits[1..], labels[1..], losses[1..], loss);
      LossesAppend(logits[0], labels[0], Concat(logits[1..]), Concat(labels[1..]), loss);
    }
  }

  /** The ranks' losses are the losses of the whole. */
  lemma RankLossesLength<L, K>(logits: seq<L>, labels: seq<K>, ranks: nat, loss: (L, K) -> real)
    requires ranks > 0 && |logits| == |labels|
    requires exists total: nat :: |logits| == total + PadSize(total, ranks)
    ensures Concat(RankLosses(logits, labels, ranks, loss)) == Losses(logits, labels, loss)
  {
    var total: nat :| |logits| == total + PadSize(total, ranks);
    PadDivides(total, ranks);
    SlicesAreParts(logits, ranks);
    SlicesAreParts(labels, ranks);
    forall r | 0 <= r < ranks ensures |Slices(logits, ranks)[r]| == |Slices(labels, ranks)[r]| {
      SameSlice(logits, labels, ranks, r);
    }
    LossesOfParts(Slices(logits, ranks), Slices(labels, ranks), RankLosses(logits, labels, ranks, loss), loss);
  }

  /** The losses that the ranks compute from their slices of logits and rolled labels, joined in rank
      order and unpadded. */
  function GatheredLoss<L, K>(logits: seq<L>, packed: seq<K>, ranks: nat, zero: K, loss: (L, K) -> real): seq<real>
    requires ranks > 0 && |logits| == |packed| + PadSize(|packed|, ranks)
  {
    var labels := UlyssesPad(Roll(packed), ranks, zero);
    RankLossesLength(logits, labels, ranks, loss);
    Unpad(Concat(RankLosses(logits, labels, ranks, loss)), PadSize(|packed|, ranks))
  }

  /** Unpadded, every packed position has its own logits against the next packed token. */
  lemma GatheredAt<L, K>(logits: seq<L>, packed: seq<K>, ranks: nat, zero: K, loss: (L, K) -> real)
    requires ranks > 0 && |logits| == |packed| + PadSize(|packed|, ranks)
    ensures |GatheredLoss(logits, packed, ranks, zero, loss)| == |packed|
    ensures forall k | 0 <= k < |packed| ::
              GatheredLoss(logits, packed, ranks, zero, loss)[k]
              == loss(logits[k], if k + 1 < |packed| then packed[k + 1] else packed[0])
  {
    RankLossesLength(logits, UlyssesPad(Roll(packed), ranks, zero), ranks, loss);
  }

  // ----- back to the padded batch

  /** The packed forward pass: the ranks pass on their slices of ids and positions. */
  ghost function PackedLogits<L, K>(x: Batch<K>, ranks: nat, zero: K, forward: (seq<K>, seq<nat>) -> seq<L>): seq<L>
    requires x.Valid()
  {
    forward(Concat(Slices(UlyssesPad(PackedIds(x), ranks, zero), ranks)),
            Concat(Slices(UlyssesPadPositions(PackedPositions(x), ranks), ranks)))
  }

  /** The model gives every attended token the same logits packed as in its row. */
  ghost predicate SamePerToken<L, K>(x: Batch<K>, logits: seq<seq<L>>, packed: seq<L>, ranks: nat)
    requires x.Valid()
  {
    var indices, flat := Indices(Concat(x.attention)), Concat(logits);
    && |packed| == |indices| + PadSize(|indices|, ranks)
    && forall k | 0 <= k < |indices| :: indices[k] < |flat| && packed[k] == flat[indices[k]]
  }

  function Zeros(n: nat): seq<real> {
    seq(n, _ => 0.0)
  }

  /** Values of the packed tokens at their places in the batch, zero elsewhere. */
  ghost function PadInput<K>(x: Batch<K>, values: seq<real>): seq<seq<real>>
    requires x.Valid() && |values| == |Indices(Concat(x.attention))|
  {
    var mask := Concat(x.attention);
    Parts(Scatter(Zeros(|mask|), Indices(mask), values), |x.ids|, x.width)
  }

  lemma FlatAt<T>(rows: seq<seq<T>>, width: nat, b: nat, s: nat, p: nat)
    requires Uniform(rows, width) && b < |rows| && s < width && p == Times(b, width) + s
    ensures p < |Concat(rows)| && |rows[b]| == width && Concat(rows)[p] == rows[b][s]
  {
    assert rows[b] in rows;
    var from := Times(b, width);
    ConcatAt(rows, width, b, from);
    assert Concat(rows)[from..from + width][s] == Concat(rows)[p];
  }

  lemma PadInputRows<K>(x: Batch<K>, values: seq<real>)
    requires x.Valid() && |values| == |Indices(Concat(x.attention))|
    ensures var rows := PadInput(x, values); var mask := Concat(x.attention);
            |rows| == |x.ids| && Uniform(rows, x.width) && Concat(rows) == Scatter(Zeros(|mask|), Indices(mask), values)
  {
    var mask := Concat(x.attention);
    var flat := Scatter(Zeros(|mask|), Indices(mask), values);
    SameLength(x);
    ProductSplits(flat, |x.ids|, x.width);
    ConcatOfParts(flat, |x.ids|, x.width);
    PartsUniform(flat, |x.ids|, x.width);
    PartsLength(flat, |x.ids|, x.width);
  }

  /** The token that follows in the packed sequence, the first one after the last. */
  ghost function NextPacked<K>(x: Batch<K>, p: nat): K
    requires x.Valid() && p < |Concat(x.attention)| && Concat(x.attention)[p]
  {
    RankIsPlace(Concat(x.attention), p);
    var k, packed := Rank(Concat(x.attention), p), PackedIds(x);
    if k + 1 < |packed| then packed[k + 1] else packed[0]
  }

  lemma NextInFlat<K>(x: Batch<K>, p: nat)
    requires x.Valid() && p + 1 < |Concat(x.attention)| == |Concat(x.ids)|
    requires Concat(x.attention)[p] && Concat(x.attention)[p + 1]
    ensures NextPacked(x, p) == Concat(x.ids)[p + 1]
  {
    RankIsPlace(Concat(x.attention), p);
    RankIsPlace(Concat(x.attention), p + 1);
    NextRank(Concat(x.attention), p);
  }

  /** Next to an attended token, the packed successor is the successor in the row. */
  lemma NextInRow<K>(x: Batch<K>, b: nat, s: nat, p: nat)
    requires x.Valid() && b < |x.ids| && s + 1 < x.width && p == Times(b, x.width) + s
    requires x.attention[b] in x.attention && x.ids[b] in x.ids && x.attention[b][s] && x.attention[b][s + 1]
    ensures p < |Concat(x.attention)| && Concat(x.attention)[p] && NextPacked(x, p) == x.ids[b][s + 1]
  {
    FlatAt(x.attention, x.width, b, s, p);
    FlatAt(x.attention, x.width, b, s + 1, p + 1);
    FlatAt(x.ids, x.width, b, s + 1, p + 1);
    SameLength(x);
    NextInFlat(x, p);
  }

  /** The gathered loss of an attended position. */
  lemma GatheredLossOf<L, K>(x: Batch<K>, flat: seq<L>, packed: seq<L>, ranks: nat, zero: K, loss: (L, K) -> real,
                             p: nat)
    requires x.Valid() && ranks > 0 && p < |Concat(x.attention)| == |flat| && Concat(x.attention)[p]
    requires |packed| == |Indices(Concat(x.attention))| + PadSize(|Indices(Concat(x.attention))|, ranks)
    requires forall k | 0 <= k < |Indices(Concat(x.attention))| :: packed[k] == flat[Indices(Concat(x.attention))[k]]
    ensures var values, k := GatheredLoss(packed, PackedIds(x), ranks, zero, loss), Rank(Concat(x.attention), p);
            k < |values| == |Indices(Concat(x.attention))| && values[k] == loss(flat[p], NextPacked(x, p))
  {
    RankIsPlace(Concat(x.attention), p);
    GatheredAt(packed, PackedIds(x), ranks, zero, loss);
  }

  /** The padded packed losses on the flattened batch. */
  lemma PackedLossInFlat<L, K>(x: Batch<K>, flat: seq<L>, packed: seq<L>, ranks: nat, zero: K, loss: (L, K) -> real,
                               p: nat)
    requires x.Valid() && ranks > 0 && p < |Concat(x.attention)| == |flat|
    requires |packed| == |Indices(Concat(x.attention))| + PadSize(|Indices(Concat(x.attention))|, ranks)
    requires forall k | 0 <= k < |Indices(Concat(x.attention))| :: packed[k] == flat[Indices(Concat(x.attention))[k]]
    ensures var values := GatheredLoss(packed, PackedIds(x), ranks, zero, loss);
            |values| == |Indices(Concat(x.attention))|
            && Scatter(Zeros(|flat|), Indices(Concat(x.attention)), values)[p]
               == if Concat(x.attention)[p] then loss(flat[p], NextPacked(x, p)) else 0.0
  {
    GatheredAt(packed, PackedIds(x), ranks, zero, loss);
    ScatterAt(Concat(x.attention), Zeros(|flat|), GatheredLoss(packed, PackedIds(x), ranks, zero, loss), p);
    if Concat(x.attention)[p] {
      GatheredLossOf(x, flat, packed, ranks, zero, loss, p);
    }
  }

  /** The loss of a position in packed form: its own logits against its packed successor when it is
      attended, and zero when it is not. */
  ghost function PackedValue<L, K>(x: Batch<K>, logits: seq<seq<L>>, loss: (L, K) -> real, b: nat, s: nat): real
    requires x.Valid() && |logits| == |x.ids| && Uniform(logits, x.width) && b < |x.ids| && s < x.width
  {
    FlatAt(x.attention, x.width, b, s, Times(b, x.width) + s);
    FlatAt(logits, x.width, b, s, Times(b, x.width) + s);
    var p := Times(b, x.width) + s;
    if Concat(x.attention)[p] then loss(logits[b][s], NextPacked(x, p)) else 0.0
  }

  /** The rows hold the packed value of every position. */
  ghost predicate ValueRows<L, K>(x: Batch<K>, logits: seq<seq<L>>, loss: (L, K) -> real, rows: seq<seq<real>>)
    requires x.Valid() && |logits| == |x.ids| && Uniform(logits, x.width)
  {
    && |rows| == |x.ids| && (forall b: nat | b < |rows| :: |rows[b]| == x.width)
    && forall b: nat, s: nat | b < |rows| && s < x.width :: rows[b][s] == PackedValue(x, logits, loss, b, s)
  }

  lemma PaddedValueAt<L, K>(x: Batch<K>, logits: seq<seq<L>>, packed: seq<L>, ranks: nat, zero: K, loss: (L, K) -> real,
                            b: nat, s: nat, rows: seq<seq<real>>)
    requires x.Valid() && ranks > 0 && |logits| == |x.ids| && Uniform(logits, x.width)
    requires SamePerToken(x, logits, packed, ranks) && b < |x.ids| && s < x.width
    requires |rows| == |x.ids| && Uniform(rows, x.width)
    requires var mask := Concat(x.attention); var values := GatheredLoss(packed, PackedIds(x), ranks, zero, loss);
             |values| == |Indices(mask)| && Concat(rows) == Scatter(Zeros(|mask|), Indices(mask), values)
    ensures |rows[b]| == x.width && rows[b][s] == PackedValue(x, logits, loss, b, s)
  {
    var p := Times(b, x.width) + s;
    SameLength(x);
    ConcatSize(logits, x.width);
    FlatAt(logits, x.width, b, s, p);
    FlatAt(rows, x.width, b, s, p);
    PackedLossInFlat(x, Concat(logits), packed, ranks, zero, loss, p);
  }

  /** Gathered, unpadded and padded back, the losses are the packed values. */
  lemma PaddedValues<L, K>(x: Batch<K>, logits: seq<seq<L>>, packed: seq<L>, ranks: nat, zero: K, loss: (L, K) -> real)
    requires x.Valid() && ranks > 0 && |logits| == |x.ids| && Uniform(logits, x.width)
    requires SamePerToken(x, logits, packed, ranks)
    ensures var values := GatheredLoss(packed, PackedIds(x), ranks, zero, loss);
            |values| == |Indices(Concat(x.attention))| && ValueRows(x, logits, loss, PadInput(x, values))
  {
    GatheredAt(packed, PackedIds(x), ranks, zero, loss);
    var values := GatheredLoss(packed, PackedIds(x), ranks, zero, loss);
    var rows := PadInput(x, values);
    PadInputRows(x, values);
    forall b: nat | b < |rows| ensures |rows[b]| == x.width {
      assert rows[b] in rows;
    }
    forall b: nat, s: nat | b < |rows| && s < x.width ensures rows[b][s] == PackedValue(x, logits, loss, b, s) {
      PaddedValueAt(x, logits, packed, ranks, zero, loss, b, s, rows);
    }
  }
}
