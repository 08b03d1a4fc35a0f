/** The padding-free sequence-parallel loss against the plain one, and packed response
    log-probabilities against padded ones: when they agree, exactly. */
module PaddingFreeLaws {
  import opened Sequences
  import opened Packing
  import opened PaddingFreeLoss

  // ----- masked losses

  lemma MaskedAppend(a: seq<real>, m: seq<real>, c: seq<real>, n: seq<real>)
    requires |a| == |m| && |c| == |n|
    ensures Masked(a + c, m + n) == Masked(a, m) + Masked(c, n)
  {
    forall i | 0 <= i < |a + c| ensures Masked(a + c, m + n)[i] == (Masked(a, m) + Masked(c, n))[i] {
      assert (m + n)[i] == if i < |a| then m[i] else n[i - |a|];
    }
  }

  lemma {:induction false} MaskedConcat(losses: seq<seq<real>>, mask: seq<seq<real>>, products: seq<seq<real>>)
    requires |losses| == |mask| == |products|
    requires forall b | 0 <= b < |losses| :: |losses[b]| == |mask[b]| && products[b] == Masked(losses[b], mask[b])
    ensures |Concat(losses)| == |Concat(mask)| && Masked(Concat(losses), Concat(mask)) == Concat(products)
  {
    if losses == [] {
    } else {
      MaskedConcat(losses[1..], mask[1..], products[1..]);
      MaskedAppend(losses[0], mask[0], Concat(losses[1..]), Concat(mask[1..]));
    }
  }

  /** Row by row products. */
  function Products(losses: seq<seq<real>>, mask: seq<seq<real>>): seq<seq<real>>
    requires |losses| == |mask| && forall b | 0 <= b < |losses| :: |losses[b]| == |mask[b]|
  {
    seq(|losses|, b requires 0 <= b < |losses| => Masked(losses[b], mask[b]))
  }

  function Shorter(width: nat): nat {
    if width == 0 then 0 else width - 1
  }

  ghost predicate SameShapeRows(losses: seq<seq<real>>, mask: seq<seq<real>>, width: nat) {
    |losses| == |mask| && forall b | 0 <= b < |losses| :: |losses[b]| == |mask[b]| == width
  }

  /** The losses agree wherever the mask selects. */
  ghost predicate AgreeWhere(a: seq<real>, c: seq<real>, mask: seq<real>)
    requires |a| == |c| == |mask|
  {
    forall s | 0 <= s < |mask| && mask[s] != 0.0 :: a[s] == c[s]
  }

  lemma CancelReal(x: real, y: real, m: real)
    ensures Scaled(x, m) == Scaled(y, m) <==> (m != 0.0 ==> x == y)
  {
    if m != 0.0 && x * m == y * m {
      assert (x - y) * m == 0.0;
    }
  }

  lemma MaskedRowsEqual(a: seq<real>, c: seq<real>, mask: seq<real>)
    requires |a| == |c| == |mask|
    ensures Masked(a, mask) == Masked(c, mask) <==> AgreeWhere(a, c, mask)
  {
    forall s | 0 <= s < |mask| ensures Masked(a, mask)[s] == Masked(c, mask)[s] <==> (mask[s] != 0.0 ==> a[s] == c[s]) {
      CancelReal(a[s], c[s], mask[s]);
    }
  }

  lemma ProductsEqual(a: seq<seq<real>>, c: seq<seq<real>>, mask: seq<seq<real>>, width: nat)
    requires SameShapeRows(a, mask, width) && SameShapeRows(c, mask, width)
    ensures Products(a, mask) == Products(c, mask) <==> forall b | 0 <= b < |mask| :: AgreeWhere(a[b], c[b], mask[b])
  {
    var pa, pc := Products(a, mask), Products(c, mask);
    forall b | 0 <= b < |mask| ensures pa[b] == pc[b] <==> AgreeWhere(a[b], c[b], mask[b]) {
      MaskedRowsEqual(a[b], c[b], mask[b]);
    }
    if forall b | 0 <= b < |mask| :: AgreeWhere(a[b], c[b], mask[b]) {
      assert forall b | 0 <= b < |mask| :: pa[b] == pc[b];
    }
  }

  lemma ProductsFlat(a: seq<seq<real>>, mask: seq<seq<real>>, width: nat)
    requires SameShapeRows(a, mask, width)
    ensures |Concat(a)| == |Concat(mask)| && Masked(Concat(a), Concat(mask)) == Concat(Products(a, mask))
    ensures Uniform(Products(a, mask), width)
  {
    MaskedConcat(a, mask, Products(a, mask));
    forall row | row in Products(a, mask) ensures |row| == width {
      var b :| 0 <= b < |a| && row == Products(a, mask)[b];
    }
  }

  /** The rows flattened and masked. */
  ghost function MaskedFlat(losses: seq<seq<real>>, mask: seq<seq<real>>, width: nat): seq<real>
    requires SameShapeRows(losses, mask, width)
  {
    ProductsFlat(losses, mask, width);
    Masked(Concat(losses), Concat(mask))
  }

  /** Two masked, flattened losses are equal exactly when they are equal wherever the mask selects. */
  lemma MaskedEqual(a: seq<seq<real>>, c: seq<seq<real>>, mask: seq<seq<real>>, width: nat)
    requires SameShapeRows(a, mask, width) && SameShapeRows(c, mask, width)
    ensures MaskedFlat(a, mask, width) == MaskedFlat(c, mask, width)
            <==> forall b | 0 <= b < |mask| :: AgreeWhere(a[b], c[b], mask[b])
  {
    ProductsFlat(a, mask, width);
    ProductsFlat(c, mask, width);
    ProductsEqual(a, c, mask, width);
    if Concat(Products(a, mask)) == Concat(Products(c, mask)) {
      OneWayToCut(Products(a, mask), Products(c, mask), width);
    }
  }

  // ----- the two paths

  /** Logits and a loss mask in the shape of the batch. */
  ghost predicate Fits<L, K>(x: Batch<K>, logits: seq<seq<L>>, lossMask: seq<seq<real>>) {
    match x
    case Batch(ids, _, _, width) =>
      x.Valid() && |logits| == |ids| == |lossMask| && Uniform(logits, width) && Uniform(lossMask, width)
  }

  /** A selected position: its loss counts. The last column never does. */
  predicate Selected(lossMask: seq<seq<real>>, width: nat, b: nat, s: nat) {
    b < |lossMask| && s + 1 < width && s < |lossMask[b]| && lossMask[b][s] != 0.0
  }

  lemma DropLastsShape(rows: seq<seq<real>>, mask: seq<seq<real>>, width: nat)
    requires |rows| == |mask| && (forall b | 0 <= b < |rows| :: |rows[b]| == width) && Uniform(mask, width)
    ensures SameShapeRows(DropLasts(rows), DropLasts(mask), Shorter(width))
  {
    forall b | 0 <= b < |rows| ensures |DropLasts(rows)[b]| == |DropLasts(mask)[b]| == Shorter(width) {
      assert mask[b] in mask;
    }
  }

  lemma PlainShape<L, K>(x: Batch<K>, logits: seq<seq<L>>, lossMask: seq<seq<real>>, loss: (L, K) -> real)
    requires Fits(x, logits, lossMask)
    ensures SameShapeRows(PlainRows(x, logits, loss), DropLasts(lossMask), Shorter(x.width))
  {
    forall b | 0 <= b < |x.ids| ensures |x.ids[b]| == |logits[b]| == |lossMask[b]| == x.width {
      assert x.ids[b] in x.ids && logits[b] in logits && lossMask[b] in lossMask;
    }
  }

  /** The masked token losses of the standard forward pass. */
  ghost function PlainLoss<L, K>(x: Batch<K>, logits: seq<seq<L>>, lossMask: seq<seq<real>>,
                                 loss: (L, K) -> real): seq<real>
    requires Fits(x, logits, lossMask)
  {
    PlainShape(x, logits, lossMask, loss);
    MaskedFlat(PlainRows(x, logits, loss), DropLasts(lossMask), Shorter(x.width))
  }

  /** Token losses of the padded batch, without the last column, flattened and masked. */
  ghost function MaskedRows<K>(x: Batch<K>, rows: seq<seq<real>>, lossMask: seq<seq<real>>): seq<real>
    requires |rows| == |x.ids| == |lossMask| && (forall b | 0 <= b < |rows| :: |rows[b]| == x.width)
    requires Uniform(lossMask, x.width)
  {
    DropLastsShape(rows, lossMask, x.width);
    MaskedFlat(DropLasts(rows), DropLasts(lossMask), Shorter(x.width))
  }

  /** The masked token losses of the padding-free sequence-parallel forward pass. */
  ghost function SequenceParallelLoss<L, K>(x: Batch<K>, logits: seq<seq<L>>, ranks: nat, zero: K,
                                            lossMask: seq<seq<real>>, loss: (L, K) -> real,
                                            forward: (seq<K>, seq<nat>) -> seq<L>): seq<real>
    requires Fits(x, logits, lossMask) && ranks > 0
    requires SamePerToken(x, logits, PackedLogits(x, ranks, zero, forward), ranks)
  {
    PaddedValues(x, logits, PackedLogits(x, ranks, zero, forward), ranks, zero, loss);
    var losses := GatheredLoss(PackedLogits(x, ranks, zero, forward), PackedIds(x), ranks, zero, loss);
    MaskedRows(x, PadInput(x, losses), lossMask)
  }

  /** The position is attended, and the next attended token of the packed batch is the next token of
      its row. */
  ghost predicate KeepsLabel<K>(x: Batch<K>, b: nat, s: nat)
    requires x.Valid() && b < |x.ids| && s + 1 < x.width
  {
    var p := Times(b, x.width) + s;
    && p < |Concat(x.attention)| && Concat(x.attention)[p]
    && x.ids[b] in x.ids && NextPacked(x, p) == x.ids[b][s + 1]
  }

  lemma PlainAt<L, K>(x: Batch<K>, logits: seq<seq<L>>, loss: (L, K) -> real, b: nat, s: nat)
    requires x.Valid() && |logits| == |x.ids| && Uniform(logits, x.width) && b < |x.ids| && s + 1 < x.width
    ensures |logits[b]| == |x.ids[b]| == x.width && |PlainRows(x, logits, loss)[b]| == x.width - 1
    ensures PlainRows(x, logits, loss)[b][s] == loss(logits[b][s], x.ids[b][s + 1])
  {
    assert x.ids[b] in x.ids && logits[b] in logits;
  }

  /** The two losses of one position are the same. */
  ghost predicate SameAt<L, K>(x: Batch<K>, logits: seq<seq<L>>, loss: (L, K) -> real, b: nat, s: nat)
    requires x.Valid() && |logits| == |x.ids| && Uniform(logits, x.width) && b < |x.ids| && s + 1 < x.width
  {
    PlainAt(x, logits, loss, b, s);
    PackedValue(x, logits, loss, b, s) == loss(logits[b][s], x.ids[b][s + 1])
  }

  /** Every selected position of one row has the same loss on both paths. */
  ghost predicate RowSame<L, K>(x: Batch<K>, logits: seq<seq<L>>, lossMask: seq<seq<real>>, loss: (L, K) -> real,
                                b: nat)
    requires Fits(x, logits, lossMask)
  {
    forall s: nat | Selected(lossMask, x.width, b, s) :: SameAt(x, logits, loss, b, s)
  }

  lemma PositionAgrees<L, K>(x: Batch<K>, logits: seq<seq<L>>, loss: (L, K) -> real, rows: seq<seq<real>>, b: nat,
                             s: nat)
    requires x.Valid() && |logits| == |x.ids| && Uniform(logits, x.width) && b < |x.ids| && s + 1 < x.width
    requires ValueRows(x, logits, loss, rows)
    ensures |DropLasts(rows)[b]| == |PlainRows(x, logits, loss)[b]| == x.width - 1
    ensures DropLasts(rows)[b][s] == PlainRows(x, logits, loss)[b][s] <==> SameAt(x, logits, loss, b, s)
  {
    PlainAt(x, logits, loss, b, s);
    assert rows[b][s] == PackedValue(x, logits, loss, b, s);
  }

  lemma MaskEntry(lossMask: seq<seq<real>>, width: nat, b: nat, s: nat)
    requires Uniform(lossMask, width) && b < |lossMask| && s + 1 < width
    ensures |lossMask[b]| == width && |DropLasts(lossMask)[b]| == width - 1
    ensures DropLasts(lossMask)[b][s] == lossMask[b][s]
  {
    assert lossMask[b] in lossMask;
  }

  lemma RowShape<L, K>(x: Batch<K>, logits: seq<seq<L>>, lossMask: seq<seq<real>>, loss: (L, K) -> real,
                       rows: seq<seq<real>>, b: nat)
    requires Fits(x, logits, lossMask) && ValueRows(x, logits, loss, rows) && b < |x.ids|
    ensures |DropLasts(rows)[b]| == |PlainRows(x, logits, loss)[b]| == |DropLasts(lossMask)[b]| == Shorter(x.width)
  {
    assert lossMask[b] in lossMask;
    PlainShape(x, logits, lossMask, loss);
  }

  lemma AgreeingRowSame<L, K>(x: Batch<K>, logits: seq<seq<L>>, lossMask: seq<seq<real>>, loss: (L, K) -> real,
                              rows: seq<seq<real>>, b: nat, a: seq<real>, c: seq<real>, mask: seq<real>)
    requires Fits(x, logits, lossMask) && ValueRows(x, logits, loss, rows) && b < |x.ids|
    requires a == DropLasts(rows)[b] && c == PlainRows(x, logits, loss)[b] && mask == DropLasts(lossMask)[b]
    requires |a| == |c| == |mask| && AgreeWhere(a, c, mask)
    ensures RowSame(x, logits, lossMask, loss, b)
  {
    forall s: nat | Selected(lossMask, x.width, b, s) ensures SameAt(x, logits, loss, b, s) {
      PositionAgrees(x, logits, loss, rows, b, s);
      MaskEntry(lossMask, x.width, b, s);
    }
  }

  lemma SameRowAgrees<L, K>(x: Batch<K>, logits: seq<seq<L>>, lossMask: seq<seq<real>>, loss: (L, K) -> real,
                            rows: seq<seq<real>>, b: nat, a: seq<real>, c: seq<real>, mask: seq<real>)
    requires Fits(x, logits, lossMask) && ValueRows(x, logits, loss, rows) && b < |x.ids|
    requires a == DropLasts(rows)[b] && c == PlainRows(x, logits, loss)[b] && mask == DropLasts(lossMask)[b]
    requires |a| == |c| == |mask| == Shorter(x.width) && RowSame(x, logits, lossMask, loss, b)
    ensures AgreeWhere(a, c, mask)
  {
    forall s | 0 <= s < |mask| && mask[s] != 0.0 ensures a[s] == c[s] {
      PositionAgrees(x, logits, loss, rows, b, s);
      MaskEntry(lossMask, x.width, b, s);
      assert Selected(lossMask, x.width, b, s);
    }
  }

  lemma RowAgrees<L, K>(x: Batch<K>, logits: seq<seq<L>>, lossMask: seq<seq<real>>, loss: (L, K) -> real,
                        rows: seq<seq<real>>, b: nat)
    requires Fits(x, logits, lossMask) && ValueRows(x, logits, loss, rows) && b < |x.ids|
    ensures |DropLasts(rows)[b]| == |PlainRows(x, logits, loss)[b]| == |DropLasts(lossMask)[b]|
    ensures AgreeWhere(DropLasts(rows)[b], PlainRows(x, logits, loss)[b], DropLasts(lossMask)[b])
            <==> RowSame(x, logits, lossMask, loss, b)
  {
    var a, c, mask := DropLasts(rows)[b], PlainRows(x, logits, loss)[b], DropLasts(lossMask)[b];
    RowShape(x, logits, lossMask, loss, rows, b);
    if AgreeWhere(a, c, mask) {
      AgreeingRowSame(x, logits, lossMask, loss, rows, b, a, c, mask);
    } else if RowSame(x, logits, lossMask, loss, b) {
      SameRowAgrees(x, logits, lossMask, loss, rows, b, a, c, mask);
    }
  }

  /** For one loss function, the two masked losses are equal exactly when they are the same at every
      selected position. */
  lemma EqualLosses<L, K>(x: Batch<K>, logits: seq<seq<L>>, lossMask: seq<seq<real>>, loss: (L, K) -> real,
                          rows: seq<seq<real>>)
    requires Fits(x, logits, lossMask) && ValueRows(x, logits, loss, rows)
    ensures MaskedRows(x, rows, lossMask) == PlainLoss(x, logits, lossMask, loss)
            <==> forall b: nat | b < |x.ids| :: RowSame(x, logits, lossMask, loss, b)
  {
    DropLastsShape(rows, lossMask, x.width);
    PlainShape(x, logits, lossMask, loss);
    MaskedEqual(DropLasts(rows), PlainRows(x, logits, loss), DropLasts(lossMask), Shorter(x.width));
    forall b: nat | b < |x.ids|
      ensures AgreeWhere(DropLasts(rows)[b], PlainRows(x, logits, loss)[b], DropLasts(lossMask)[b])
              <==> RowSame(x, logits, lossMask, loss, b)
    {
      RowAgrees(x, logits, lossMask, loss, rows, b);
    }
  }

  ghost predicate KeepsLabels<K>(x: Batch<K>, lossMask: seq<seq<real>>)
    requires x.Valid() && |lossMask| == |x.ids|
  {
    forall b: nat, s: nat | Selected(lossMask, x.width, b, s) :: KeepsLabel(x, b, s)
  }

  lemma KeptLabelsSuffice<L, K>(x: Batch<K>, logits: seq<seq<L>>, lossMask: seq<seq<real>>, loss: (L, K) -> real,
                                b: nat)
    requires Fits(x, logits, lossMask) && KeepsLabels(x, lossMask)
    ensures RowSame(x, logits, lossMask, loss, b)
  {
    forall s: nat | Selected(lossMask, x.width, b, s) ensures SameAt(x, logits, loss, b, s) {
      assert KeepsLabel(x, b, s);
    }
  }

  /** A loss function that is 1 on one token and 0 on all others. */
  function Spike<L, K(==)>(target: K): (L, K) -> real {
    (l: L, k: K) => if k == target then 1.0 else 0.0
  }

  lemma KeptLabelNeeded<L, K>(x: Batch<K>, logits: seq<seq<L>>, lossMask: seq<seq<real>>, b: nat, s: nat)
    requires Fits(x, logits, lossMask) && Selected(lossMask, x.width, b, s) && |x.ids[b]| == x.width
    requires SameAt(x, logits, Spike(x.ids[b][s + 1]), b, s)
    ensures KeepsLabel(x, b, s)
  {
    assert x.ids[b] in x.ids;
    PlainAt(x, logits, Spike(x.ids[b][s + 1]), b, s);
    FlatAt(x.attention, x.width, b, s, Times(b, x.width) + s);
  }

  /** The two paths compute the same masked losses for this loss function. */
  ghost predicate PathsEqual<L, K>(x: Batch<K>, logits: seq<seq<L>>, ranks: nat, zero: K, lossMask: seq<seq<real>>,
                                   loss: (L, K) -> real, forward: (seq<K>, seq<nat>) -> seq<L>)
    requires Fits(x, logits, lossMask) && ranks > 0
    requires SamePerToken(x, logits, PackedLogits(x, ranks, zero, forward), ranks)
  {
    SequenceParallelLoss(x, logits, ranks, zero, lossMask, loss, forward) == PlainLoss(x, logits, lossMask, loss)
  }

  lemma PathsEqualByRow<L, K>(x: Batch<K>, logits: seq<seq<L>>, ranks: nat, zero: K, lossMask: seq<seq<real>>,
                              loss: (L, K) -> real, forward: (seq<K>, seq<nat>) -> seq<L>)
    requires Fits(x, logits, lossMask) && ranks > 0
    requires SamePerToken(x, logits, PackedLogits(x, ranks, zero, forward), ranks)
    ensures PathsEqual(x, logits, ranks, zero, lossMask, loss, forward)
            <==> forall b: nat | b < |x.ids| :: RowSame(x, logits, lossMask, loss, b)
  {
    var packed := PackedLogits(x, ranks, zero, forward);
    PaddedValues(x, logits, packed, ranks, zero, loss);
    EqualLosses(x, logits, lossMask, loss, PadInput(x, GatheredLoss(packed, PackedIds(x), ranks, zero, loss)));
  }

  lemma KeptLabelsAgree<L, K>(x: Batch<K>, logits: seq<seq<L>>, ranks: nat, zero: K, lossMask: seq<seq<real>>,
                              loss: (L, K) -> real, forward: (seq<K>, seq<nat>) -> seq<L>)
    requires Fits(x, logits, lossMask) && ranks > 0 && KeepsLabels(x, lossMask)
    requires SamePerToken(x, logits, PackedLogits(x, ranks, zero, forward), ranks)
    ensures PathsEqual(x, logits, ranks, zero, lossMask, loss, forward)
  {
    forall b: nat | b < |x.ids| ensures RowSame(x, logits, lossMask, loss, b) {
      KeptLabelsSuffice(x, logits, lossMask, loss, b);
    }
    PathsEqualByRow(x, logits, ranks, zero, lossMask, loss, forward);
  }

  /** The exact condition: the two paths compute the same masked losses, whatever the loss function,
      if and only if every selected position is attended and keeps its label when packed. */
  lemma PathsAgreeExactly<L, K>(x: Batch<K>, logits: seq<seq<L>>, ranks: nat, zero: K, lossMask: seq<seq<real>>,
                                forward: (seq<K>, seq<nat>) -> seq<L>)
    requires Fits(x, logits, lossMask) && ranks > 0
    requires SamePerToken(x, logits, PackedLogits(x, ranks, zero, forward), ranks)
    ensures (forall loss :: PathsEqual(x, logits, ranks, zero, lossMask, loss, forward)) <==> KeepsLabels(x, lossMask)
  {
    if KeepsLabels(x, lossMask) {
      forall loss ensures PathsEqual(x, logits, ranks, zero, lossMask, loss, forward) {
        KeptLabelsAgree(x, logits, ranks, zero, lossMask, loss, forward);
      }
    }
    if forall loss :: PathsEqual(x, logits, ranks, zero, lossMask, loss, forward) {
      forall b: nat, s: nat | Selected(lossMask, x.width, b, s) ensures KeepsLabel(x, b, s) {
        assert x.ids[b] in x.ids;
        var loss: (L, K) -> real := Spike(x.ids[b][s + 1]);
        assert PathsEqual(x, logits, ranks, zero, lossMask, loss, forward);
        PathsEqualByRow(x, logits, ranks, zero, lossMask, loss, forward);
        assert RowSame(x, logits, lossMask, loss, b);
        KeptLabelNeeded(x, logits, lossMask, b, s);
      }
    }
  }

  /** The mask selects only positions attended together with their successor. */
  ghost predicate SelectsAttended<K>(x: Batch<K>, lossMask: seq<seq<real>>)
    requires x.Valid() && |lossMask| == |x.ids|
  {
    forall b: nat, s: nat | Selected(lossMask, x.width, b, s) ::
      |x.attention[b]| == x.width && x.attention[b][s] && x.attention[b][s + 1]
  }

  lemma AttendedKeepLabels<K>(x: Batch<K>, lossMask: seq<seq<real>>)
    requires x.Valid() && |lossMask| == |x.ids| && SelectsAttended(x, lossMask)
    ensures KeepsLabels(x, lossMask)
  {
    forall b: nat, s: nat | Selected(lossMask, x.width, b, s) ensures KeepsLabel(x, b, s) {
      assert x.attention[b] in x.attention && x.ids[b] in x.ids;
      NextInRow(x, b, s, Times(b, x.width) + s);
    }
  }

  /** The promise: a loss mask that selects only positions attended together with their successor
      gives the same masked losses on both paths, for any batch, attention mask and number of ranks. */
  lemma PathsAgree<L, K>(x: Batch<K>, logits: seq<seq<L>>, ranks: nat, zero: K, lossMask: seq<seq<real>>,
                         loss: (L, K) -> real, forward: (seq<K>, seq<nat>) -> seq<L>)
    requires Fits(x, logits, lossMask) && ranks > 0
    requires SamePerToken(x, logits, PackedLogits(x, ranks, zero, forward), ranks)
    requires SelectsAttended(x, lossMask)
    ensures PathsEqual(x, logits, ranks, zero, lossMask, loss, forward)
  {
    AttendedKeepLabels(x, lossMask);
    KeptLabelsAgree(x, logits, ranks, zero, lossMask, loss, forward);
  }

  lemma PaddedSlices<T>(x: seq<T>, padded: seq<T>, ranks: nat)
    requires ranks > 0 && |padded| == |x| + PadSize(|x|, ranks)
    ensures Concat(Slices(padded, ranks)) == padded
  {
    PadDivides(|x|, ranks);
    SlicesAreParts(padded, ranks);
  }

  /** The padding is the least that makes the ranks divide the length. */
  lemma PadLeast(total: nat, ranks: nat, length: nat)
    requires ranks > 0 && length == total + PadSize(total, ranks)
    ensures length % ranks == 0 && length < total + ranks
  {
    PadDivides(total, ranks);
  }

  /** An attended token and its position are found at the rank of their place in the flattened batch. */
  ghost predicate PackedHere<K>(x: Batch<K>, ids: seq<K>, positions: seq<nat>, b: nat, s: nat)
    requires b < |x.ids| == |x.attention| == |x.positions|
  {
    match x
    case Batch(rows, attention, places, width) =>
      && |attention[b]| == |rows[b]| == |places[b]| == width && s < width
      && Times(b, width) + s < |Concat(attention)|
      && (attention[b][s] ==>
            var k := Rank(Concat(attention), Times(b, width) + s);
            k < |ids| == |positions| && ids[k] == rows[b][s] && positions[k] == places[b][s])
  }

  ghost predicate AllPacked<K>(x: Batch<K>, ids: seq<K>, positions: seq<nat>) {
    match x
    case Batch(rows, attention, places, width) =>
      && |rows| == |attention| == |places|
      && forall b: nat, s: nat | b < |rows| && s < width :: PackedHere(x, ids, positions, b, s)
  }

  lemma PackedAt<K>(x: Batch<K>, ids: seq<K>, positions: seq<nat>, b: nat, s: nat)
    requires x.Valid() && b < |x.ids| && s < x.width
    requires PackedIds(x) <= ids && PackedPositions(x) <= positions && |ids| == |positions|
    ensures PackedHere(x, ids, positions, b, s)
  {
    var p := Times(b, x.width) + s;
    SameLength(x);
    FlatAt(x.attention, x.width, b, s, p);
    FlatAt(x.ids, x.width, b, s, p);
    FlatAt(x.positions, x.width, b, s, p);
    if x.attention[b][s] {
      RankIsPlace(Concat(x.attention), p);
    }
  }

  lemma EveryTokenPacked<K>(x: Batch<K>, ids: seq<K>, positions: seq<nat>)
    requires x.Valid() && PackedIds(x) <= ids && PackedPositions(x) <= positions && |ids| == |positions|
    ensures AllPacked(x, ids, positions)
  {
    forall b: nat, s: nat | b < |x.ids| && s < x.width ensures PackedHere(x, ids, positions, b, s) {
      PackedAt(x, ids, positions, b, s);
    }
  }

  /** Beyond the attended tokens, the ids are padding and the positions count up from 0. */
  ghost predicate PaddedFrom<K>(ids: seq<K>, positions: seq<nat>, count: nat, zero: K) {
    && count <= |ids| == |positions|
    && forall k | count <= k < |ids| :: ids[k] == zero && positions[k] == k - count
  }

  lemma PaddingOf<K>(packed: seq<K>, places: seq<nat>, ranks: nat, zero: K)
    requires ranks > 0 && |packed| == |places|
    ensures PaddedFrom(UlyssesPad(packed, ranks, zero), UlyssesPadPositions(places, ranks), |packed|, zero)
    ensures packed <= UlyssesPad(packed, ranks, zero) && places <= UlyssesPadPositions(places, ranks)
  {
  }

  /** What the model is run on, put together from the slices of all ranks: every attended token with its
      position in the batch, in order, then the least padding that the ranks divide. */
  lemma RanksSeeAll<L, K>(x: Batch<K>, ranks: nat, zero: K, forward: (seq<K>, seq<nat>) -> seq<L>, logits: seq<L>)
    returns (ids: seq<K>, positions: seq<nat>)
    requires x.Valid() && ranks > 0 && logits == PackedLogits(x, ranks, zero, forward)
    ensures logits == forward(ids, positions)
    ensures |ids| % ranks == 0 && |ids| < |Indices(Concat(x.attention))| + ranks
    ensures PaddedFrom(ids, positions, |Indices(Concat(x.attention))|, zero)
    ensures AllPacked(x, ids, positions)
  {
    ids, positions := UlyssesPad(PackedIds(x), ranks, zero), UlyssesPadPositions(PackedPositions(x), ranks);
    PaddedSlices(PackedIds(x), ids, ranks);
    PaddedSlices(PackedPositions(x), positions, ranks);
    PadLeast(|PackedIds(x)|, ranks, |ids|);
    PaddingOf(PackedIds(x), PackedPositions(x), ranks, zero);
    EveryTokenPacked(x, ids, positions);
  }

  // ----- the entries of the two losses

  lemma ShapeIsUniform(losses: seq<seq<real>>, mask: seq<seq<real>>, width: nat)
    requires SameShapeRows(losses, mask, width)
    ensures Uniform(losses, width) && Uniform(mask, width)
  {
    forall row | row in losses ensures |row| == width {
      var r :| 0 <= r < |losses| && row == losses[r];
    }
    forall row | row in mask ensures |row| == width {
      var r :| 0 <= r < |mask| && row == mask[r];
    }
  }

  lemma FlatPair(losses: seq<seq<real>>, mask: seq<seq<real>>, width: nat, b: nat, s: nat, at: nat)
    requires SameShapeRows(losses, mask, width) && b < |mask| && s < width && at == Times(b, width) + s
    ensures at < |Concat(losses)| == |Concat(mask)|
    ensures Concat(losses)[at] == losses[b][s] && Concat(mask)[at] == mask[b][s]
  {
    ProductsFlat(losses, mask, width);
    ShapeIsUniform(losses, mask, width);
    FlatAt(losses, width, b, s, at);
    FlatAt(mask, width, b, s, at);
  }

  lemma MaskedEntry(losses: seq<real>, mask: seq<real>, at: nat, x: real, m: real)
    requires at < |losses| == |mask| && losses[at] == x && mask[at] == m
    ensures Masked(losses, mask)[at] == x * m
  {
  }

  /** The entry of a position in a flattened loss, and the product it should be. */
  predicate EntryIs(all: seq<real>, at: nat, value: real, mask: real) {
    at < |all| && all[at] == value * mask
  }

  lemma MaskedAt(losses: seq<seq<real>>, mask: seq<seq<real>>, width: nat, b: nat, s: nat, at: nat, x: real, m: real,
                 all: seq<real>)
    requires SameShapeRows(losses, mask, width) && b < |mask| && s < width && at == Times(b, width) + s
    requires losses[b][s] == x && mask[b][s] == m
    requires all == MaskedFlat(losses, mask, width)
    ensures EntryIs(all, at, x, m)
  {
    FlatPair(losses, mask, width, b, s, at);
    MaskedEntry(Concat(losses), Concat(mask), at, x, m);
  }

  lemma DroppedRowsAt(rows: seq<seq<real>>, lossMask: seq<seq<real>>, width: nat, b: nat, s: nat, at: nat,
                      all: seq<real>)
    requires SameShapeRows(rows, DropLasts(lossMask), Shorter(width)) && Uniform(lossMask, width)
    requires b < |lossMask| && s + 1 < width && at == Times(b, width - 1) + s
    requires all == MaskedFlat(rows, DropLasts(lossMask), Shorter(width))
    ensures |lossMask[b]| == width && EntryIs(all, at, rows[b][s], lossMask[b][s])
  {
    MaskEntry(lossMask, width, b, s);
    MaskedAt(rows, DropLasts(lossMask), Shorter(width), b, s, at, rows[b][s], lossMask[b][s], all);
  }

  lemma PlainLossRows<L, K>(x: Batch<K>, logits: seq<seq<L>>, lossMask: seq<seq<real>>, loss: (L, K) -> real,
                            all: seq<real>)
    requires Fits(x, logits, lossMask) && all == PlainLoss(x, logits, lossMask, loss)
    ensures SameShapeRows(PlainRows(x, logits, loss), DropLasts(lossMask), Shorter(x.width))
    ensures all == MaskedFlat(PlainRows(x, logits, loss), DropLasts(lossMask), Shorter(x.width))
  {
    PlainShape(x, logits, lossMask, loss);
  }

  lemma PlainEntry<L, K>(x: Batch<K>, logits: seq<seq<L>>, lossMask: seq<seq<real>>, rows: seq<seq<real>>,
                         b: nat, s: nat, at: nat, all: seq<real>)
    requires Fits(x, logits, lossMask) && b < |x.ids| && s + 1 < x.width && at == Times(b, x.width - 1) + s
    requires SameShapeRows(rows, DropLasts(lossMask), Shorter(x.width))
    requires all == MaskedFlat(rows, DropLasts(lossMask), Shorter(x.width))
    ensures |lossMask[b]| == x.width && b < |rows| && s < |rows[b]| && EntryIs(all, at, rows[b][s], lossMask[b][s])
  {
    DroppedRowsAt(rows, lossMask, x.width, b, s, at, all);
  }

  /** An entry of the standard loss: the loss of the logits against the next token, times the mask. */
  lemma PlainLossAt<L, K>(x: Batch<K>, logits: seq<seq<L>>, lossMask: seq<seq<real>>, loss: (L, K) -> real,
                          b: nat, s: nat, at: nat, all: seq<real>)
    requires Fits(x, logits, lossMask) && b < |x.ids| && s + 1 < x.width && at == Times(b, x.width - 1) + s
    requires all == PlainLoss(x, logits, lossMask, loss)
    ensures |logits[b]| == |x.ids[b]| == |lossMask[b]| == x.width
    ensures EntryIs(all, at, loss(logits[b][s], x.ids[b][s + 1]), lossMask[b][s])
  {
    var rows := PlainRows(x, logits, loss);
    PlainLossRows(x, logits, lossMask, loss, all);
    PlainEntry(x, logits, lossMask, rows, b, s, at, all);
    PlainAt(x, logits, loss, b, s);
  }

  lemma MaskedRowsAt<K>(x: Batch<K>, rows: seq<seq<real>>, lossMask: seq<seq<real>>, b: nat, s: nat, at: nat,
                        all: seq<real>)
    requires |rows| == |x.ids| == |lossMask| && (forall r | 0 <= r < |rows| :: |rows[r]| == x.width)
    requires Uniform(lossMask, x.width) && b < |rows| && s + 1 < x.width && at == Times(b, x.width - 1) + s
    requires all == MaskedRows(x, rows, lossMask)
    ensures |lossMask[b]| == x.width && EntryIs(all, at, rows[b][s], lossMask[b][s])
  {
    DropLastsShape(rows, lossMask, x.width);
    DroppedRowsAt(DropLasts(rows), lossMask, x.width, b, s, at, all);
  }

  /** An entry of the padding-free loss: that of an attended token is the loss of its logits against the
      token that follows it when packed, times the mask; the others are zero. */
  lemma SequenceParallelLossAt<L, K>(x: Batch<K>, logits: seq<seq<L>>, ranks: nat, zero: K, lossMask: seq<seq<real>>,
                                     loss: (L, K) -> real, forward: (seq<K>, seq<nat>) -> seq<L>,
                                     b: nat, s: nat, at: nat, all: seq<real>)
    requires Fits(x, logits, lossMask) && ranks > 0
    requires SamePerToken(x, logits, PackedLogits(x, ranks, zero, forward), ranks)
    requires b < |x.ids| && s + 1 < x.width && at == Times(b, x.width - 1) + s
    requires all == SequenceParallelLoss(x, logits, ranks, zero, lossMask, loss, forward)
    ensures |lossMask[b]| == x.width && EntryIs(all, at, PackedValue(x, logits, loss, b, s), lossMask[b][s])
  {
    var packed := PackedLogits(x, ranks, zero, forward);
    PaddedValues(x, logits, packed, ranks, zero, loss);
    var rows := PadInput(x, GatheredLoss(packed, PackedIds(x), ranks, zero, loss));
    MaskedRowsAt(x, rows, lossMask, b, s, at, all);
  }

  // ----- response log-probabilities

  function ResponseColumnsOf(row: seq<real>, length: nat): seq<real> {
    if length < |row| then row[|row| - length - 1..|row| - 1] else DropLast(row)
  }

  /** `rows[:, -length - 1:-1]`; the start is clipped when the response is as long as the rows. */
  function ResponseColumns(rows: seq<seq<real>>, length: nat): seq<seq<real>> {
    seq(|rows|, b requires 0 <= b < |rows| => ResponseColumnsOf(rows[b], length))
  }

  /** The response log-probabilities from packed logits. */
  ghost function ResponseLogProbsRmpad<L, K>(x: Batch<K>, packed: seq<L>, length: nat,
                                             logProb: (L, K) -> real): seq<seq<real>>
    requires x.Valid() && |packed| == |Indices(Concat(x.attention))|
  {
    ResponseColumns(PadInput(x, Losses(packed, Roll(PackedIds(x)), logProb)), length)
  }

  lemma OneRank<L, K>(logits: seq<L>, packed: seq<K>, zero: K, loss: (L, K) -> real)
    requires |logits| == |packed|
    ensures GatheredLoss(logits, packed, 1, zero, loss) == Losses(logits, Roll(packed), loss)
  {
    GatheredAt(logits, packed, 1, zero, loss);
  }

  /** The columns of a response: its length, or all but one when the rows are no longer. */
  function Shown(length: nat, width: nat): nat {
    if length < width then length else Shorter(width)
  }

  lemma ResponseAt(row: seq<real>, length: nat, j: nat, s: nat)
    requires j < Shown(length, |row|) && s + Shown(length, |row|) + 1 == |row| + j
    ensures |ResponseColumnsOf(row, length)| == Shown(length, |row|) && ResponseColumnsOf(row, length)[j] == row[s]
  {
  }

  lemma PackedResponseAt<L, K>(x: Batch<K>, logits: seq<seq<L>>, packed: seq<L>, length: nat, zero: K,
                               logProb: (L, K) -> real, b: nat, j: nat, s: nat)
    requires x.Valid() && |logits| == |x.ids| && Uniform(logits, x.width) && SamePerToken(x, logits, packed, 1)
    requires b < |x.ids| && j < Shown(length, x.width) && s + Shown(length, x.width) + 1 == x.width + j
    ensures var out := ResponseLogProbsRmpad(x, packed, length, logProb);
            |out| == |x.ids| && |out[b]| == Shown(length, x.width) && out[b][j] == PackedValue(x, logits, logProb, b, s)
  {
    OneRank(packed, PackedIds(x), zero, logProb);
    PaddedValues(x, logits, packed, 1, zero, logProb);
    var rows := PadInput(x, Losses(packed, Roll(PackedIds(x)), logProb));
    assert ValueRows(x, logits, logProb, rows);
    ResponseAt(rows[b], length, j, s);
  }

  /** The packed log-probability of a response token: that of the plain computation when the token
      and its predecessor are attended, and zero when the predecessor is not. Place j of the response is
      predicted at position s of the row. */
  lemma ResponseLogProbsAgree<L, K>(x: Batch<K>, logits: seq<seq<L>>, packed: seq<L>, length: nat, zero: K,
                                    logProb: (L, K) -> real, b: nat, j: nat, s: nat)
    requires x.Valid() && |logits| == |x.ids| && Uniform(logits, x.width) && SamePerToken(x, logits, packed, 1)
    requires b < |x.ids| && j < Shown(length, x.width) && s + Shown(length, x.width) + 1 == x.width + j
    ensures |x.attention[b]| == |x.ids[b]| == |logits[b]| == x.width
    ensures var out := ResponseLogProbsRmpad(x, packed, length, logProb);
            && |out| == |x.ids| && |out[b]| == Shown(length, x.width)
            && (x.attention[b][s] && x.attention[b][s + 1] ==> out[b][j] == logProb(logits[b][s], x.ids[b][s + 1]))
            && (!x.attention[b][s] ==> out[b][j] == 0.0)
  {
    assert x.attention[b] in x.attention && x.ids[b] in x.ids && logits[b] in logits;
    PackedResponseAt(x, logits, packed, length, zero, logProb, b, j, s);
    FlatAt(x.attention, x.width, b, s, Times(b, x.width) + s);
    if x.attention[b][s] && x.attention[b][s + 1] {
      NextInRow(x, b, s, Times(b, x.width) + s);
    }
  }
}
