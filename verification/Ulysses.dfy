/** Ulysses sequence parallelism seen from all ranks at once: a distributed tensor is the list of the
    ranks' local tensors, and the collectives are functions on such lists. */
module Ulysses {
  import opened Outcomes
  import opened Sequences

  /** A tensor with a sequence and a head dimension; the others are inside the entries. */
  datatype Tensor<T> = Tensor(rows: nat, cols: nat, at: seq<seq<T>>) {
    ghost predicate Valid() {
      |at| == rows && Uniform(at, cols)
    }
  }

  /** Rows are sequence positions, columns are heads. */
  datatype Dim = Positions | Heads

  function Size<T>(x: Tensor<T>, d: Dim): nat {
    if d == Positions then x.rows else x.cols
  }

  predicate SameShape<T>(xs: seq<Tensor<T>>) {
    forall i | 0 <= i < |xs| :: xs[i].rows == xs[0].rows && xs[i].cols == xs[0].cols
  }

  ghost predicate AllValid<T>(xs: seq<Tensor<T>>) {
    SameShape(xs) && forall i | 0 <= i < |xs| :: xs[i].Valid()
  }

  // ----- cutting and joining along a dimension

  /** Part r of n parts of the given size. */
  function Part<T>(s: seq<T>, n: nat, size: nat, r: nat): (p: seq<T>)
    requires r < n
  {
    PartsLength(s, n, size);
    Parts(s, n, size)[r]
  }

  function PartOfEach<T>(rows: seq<seq<T>>, n: nat, size: nat, r: nat): seq<seq<T>>
    requires r < n
  {
    seq(|rows|, i requires 0 <= i < |rows| => Part(rows[i], n, size, r))
  }

  /** One of n consecutive pieces of the given size along a dimension. */
  function Piece<T>(x: Tensor<T>, n: nat, size: nat, d: Dim, r: nat): Tensor<T>
    requires r < n
  {
    if d == Positions then Tensor(size, x.cols, Part(x.at, n, size, r))
    else Tensor(x.rows, size, PartOfEach(x.at, n, size, r))
  }

  function Pieces<T>(x: Tensor<T>, n: nat, size: nat, d: Dim): seq<Tensor<T>> {
    seq(n, r requires 0 <= r < n => Piece(x, n, size, d, r))
  }

  /** The rows with a given number, of all the parts. */
  function RowOfEach<T>(parts: seq<Tensor<T>>, i: nat): seq<seq<T>> {
    seq(|parts|, q requires 0 <= q < |parts| => if i < |parts[q].at| then parts[q].at[i] else [])
  }

  function RowsOf<T>(parts: seq<Tensor<T>>): seq<seq<seq<T>>> {
    seq(|parts|, q requires 0 <= q < |parts| => parts[q].at)
  }

  /** Equal parts side by side along a dimension. */
  function Join<T>(parts: seq<Tensor<T>>, d: Dim): Tensor<T>
    requires parts != []
  {
    if d == Positions then Tensor(Times(|parts|, parts[0].rows), parts[0].cols, Concat(RowsOf(parts)))
    else
      Tensor(parts[0].rows, Times(|parts|, parts[0].cols),
             seq(parts[0].rows, i requires 0 <= i => Concat(RowOfEach(parts, i))))
  }

  lemma {:induction false} PartsFit<T>(s: seq<T>, n: nat, size: nat)
    requires |s| == n * size
    ensures Concat(Parts(s, n, size)) == s && Uniform(Parts(s, n, size), size) && |Parts(s, n, size)| == n
  {
    ProductSplits(s, n, size);
    ConcatOfParts(s, n, size);
    PartsUniform(s, n, size);
    PartsLength(s, n, size);
  }

  lemma CutJoined<T>(parts: seq<seq<T>>, size: nat)
    requires Uniform(parts, size)
    ensures Parts(Concat(parts), |parts|, size) == parts
  {
    ConcatSize(parts, size);
    PartsFit(Concat(parts), |parts|, size);
    OneWayToCut(parts, Parts(Concat(parts), |parts|, size), size);
  }

  lemma {:induction false} PartKeepsRows<T>(s: seq<T>, n: nat, size: nat, r: nat, x: T)
    requires r < n && x in Part(s, n, size, r)
    ensures x in s
  {
    PartsLength(s, n, size);
    PartsWithin(s, n, size, Part(s, n, size, r), x);
  }

  lemma PieceValid<T>(x: Tensor<T>, n: nat, size: nat, d: Dim, r: nat)
    requires x.Valid() && r < n && Size(x, d) == n * size
    ensures Piece(x, n, size, d, r).Valid()
  {
    var p := Piece(x, n, size, d, r);
    if d == Positions {
      PartsFit(x.at, n, size);
      forall row | row in p.at ensures |row| == p.cols {
        PartKeepsRows(x.at, n, size, r, row);
      }
    } else {
      forall i | 0 <= i < |x.at| ensures |p.at[i]| == size {
        assert x.at[i] in x.at;
        PartsFit(x.at[i], n, size);
      }
    }
  }

  lemma PiecesValid<T>(x: Tensor<T>, n: nat, size: nat, d: Dim)
    requires x.Valid() && Size(x, d) == n * size
    ensures AllValid(Pieces(x, n, size, d))
  {
    forall r | 0 <= r < n ensures Piece(x, n, size, d, r).Valid() {
      PieceValid(x, n, size, d, r);
    }
  }

  lemma RowsOfPieces<T>(x: Tensor<T>, n: nat, size: nat)
    ensures RowsOf(Pieces(x, n, size, Positions)) == Parts(x.at, n, size)
  {
    PartsLength(x.at, n, size);
  }

  lemma RowOfPieces<T>(x: Tensor<T>, n: nat, size: nat, i: nat)
    requires i < |x.at|
    ensures RowOfEach(Pieces(x, n, size, Heads), i) == Parts(x.at[i], n, size)
  {
    PartsLength(x.at[i], n, size);
  }

  lemma JoinRowBlocks<T>(x: Tensor<T>, n: nat, size: nat)
    requires x.Valid() && n > 0 && x.rows == n * size
    ensures Join(Pieces(x, n, size, Positions), Positions) == x
  {
    PartsFit(x.at, n, size);
    RowsOfPieces(x, n, size);
  }

  lemma JoinedRow<T>(x: Tensor<T>, n: nat, size: nat, i: nat)
    requires x.Valid() && x.cols == n * size && i < x.rows
    ensures Concat(RowOfEach(Pieces(x, n, size, Heads), i)) == x.at[i]
  {
    assert x.at[i] in x.at;
    PartsFit(x.at[i], n, size);
    RowOfPieces(x, n, size, i);
  }

  /** The pieces of a tensor join to the tensor. */
  lemma JoinPieces<T>(x: Tensor<T>, n: nat, size: nat, d: Dim)
    requires x.Valid() && n > 0 && Size(x, d) == n * size
    ensures Join(Pieces(x, n, size, d), d) == x
  {
    if d == Positions {
      JoinRowBlocks(x, n, size);
    } else {
      var joined := Join(Pieces(x, n, size, Heads), Heads);
      forall i | 0 <= i < x.rows ensures joined.at[i] == x.at[i] {
        JoinedRow(x, n, size, i);
      }
      assert joined.at == x.at;
    }
  }

  lemma RowOfEachUniform<T>(parts: seq<Tensor<T>>, i: nat)
    requires parts != [] && AllValid(parts) && i < parts[0].rows
    ensures Uniform(RowOfEach(parts, i), parts[0].cols)
  {
    forall row | row in RowOfEach(parts, i) ensures |row| == parts[0].cols {
      var q :| 0 <= q < |parts| && row == RowOfEach(parts, i)[q];
      assert parts[q].at[i] in parts[q].at;
    }
  }

  /** Joined parts are cut into the parts again. */
  lemma PiecesOfJoin<T>(parts: seq<Tensor<T>>, d: Dim)
    requires parts != [] && AllValid(parts)
    ensures Pieces(Join(parts, d), |parts|, Size(parts[0], d), d) == parts
  {
    var n, size, x := |parts|, Size(parts[0], d), Join(parts, d);
    forall r | 0 <= r < n ensures Piece(x, n, size, d, r) == parts[r] {
      if d == Positions {
        forall p | p in RowsOf(parts) ensures |p| == size {
          var q :| 0 <= q < n && p == parts[q].at;
        }
        CutJoined(RowsOf(parts), size);
      } else {
        forall i | 0 <= i < x.rows ensures Part(x.at[i], n, size, r) == parts[r].at[i] {
          RowOfEachUniform(parts, i);
          CutJoined(RowOfEach(parts, i), size);
        }
        assert Piece(x, n, size, d, r).at == parts[r].at;
      }
    }
  }

  lemma {:induction false} ConcatFrom<T>(parts: seq<seq<T>>, x: T) returns (q: nat)
    requires x in Concat(parts)
    ensures q < |parts| && x in parts[q]
  {
    if x in parts[0] {
      q := 0;
    } else {
      q := ConcatFrom(parts[1..], x);
      q := q + 1;
    }
  }

  lemma JoinValid<T>(parts: seq<Tensor<T>>, d: Dim)
    requires parts != [] && AllValid(parts)
    ensures Join(parts, d).Valid()
  {
    var x := Join(parts, d);
    if d == Positions {
      forall p | p in RowsOf(parts) ensures |p| == parts[0].rows {
        var q :| 0 <= q < |parts| && p == parts[q].at;
      }
      ConcatSize(RowsOf(parts), parts[0].rows);
      forall row | row in x.at ensures |row| == x.cols {
        var q := ConcatFrom(RowsOf(parts), row);
      }
    } else {
      forall i | 0 <= i < x.rows ensures |x.at[i]| == x.cols {
        RowOfEachUniform(parts, i);
        ConcatSize(RowOfEach(parts, i), parts[0].cols);
      }
    }
  }

  // ----- all-to-all

  /** Piece r of every tensor. */
  function Received<T>(xs: seq<Tensor<T>>, size: nat, scatter: Dim, r: nat): seq<Tensor<T>>
    requires r < |xs|
  {
    seq(|xs|, q requires 0 <= q < |xs| => Piece(xs[q], |xs|, size, scatter, r))
  }

  function Exchange<T>(xs: seq<Tensor<T>>, size: nat, scatter: Dim, gather: Dim): seq<Tensor<T>> {
    seq(|xs|, r requires 0 <= r < |xs| => Join(Received(xs, size, scatter, r), gather))
  }

  /** Each rank cuts its tensor along one dimension, sends piece r to rank r, and joins what it
      receives along another. The exchange needs pieces of one shape on all ranks. */
  function AllToAll<T>(xs: seq<Tensor<T>>, scatter: Dim, gather: Dim): Result<seq<Tensor<T>>> {
    if xs == [] || !SameShape(xs) || Size(xs[0], scatter) % |xs| != 0 then Err
    else Ok(Exchange(xs, Size(xs[0], scatter) / |xs|, scatter, gather))
  }

  lemma ReceivedValid<T>(xs: seq<Tensor<T>>, size: nat, scatter: Dim, r: nat)
    requires AllValid(xs) && r < |xs| && Size(xs[0], scatter) == |xs| * size
    ensures AllValid(Received(xs, size, scatter, r))
    ensures var first := Received(xs, size, scatter, r)[0];
            first.rows == (if scatter == Positions then size else xs[0].rows)
            && first.cols == (if scatter == Heads then size else xs[0].cols)
  {
    forall q | 0 <= q < |xs| ensures Piece(xs[q], |xs|, size, scatter, r).Valid() {
      PieceValid(xs[q], |xs|, size, scatter, r);
    }
  }

  lemma ExchangeValid<T>(xs: seq<Tensor<T>>, size: nat, scatter: Dim, gather: Dim)
    requires xs != [] && AllValid(xs) && Size(xs[0], scatter) == |xs| * size
    ensures AllValid(Exchange(xs, size, scatter, gather))
    ensures Size(Exchange(xs, size, scatter, gather)[0], gather)
            == Times(|xs|, if gather == scatter then size else Size(xs[0], gather))
  {
    var ys := Exchange(xs, size, scatter, gather);
    forall r | 0 <= r < |xs| ensures ys[r].Valid() && ys[r].rows == ys[0].rows && ys[r].cols == ys[0].cols {
      ReceivedValid(xs, size, scatter, r);
      ReceivedValid(xs, size, scatter, 0);
      JoinValid(Received(xs, size, scatter, r), gather);
    }
    ReceivedValid(xs, size, scatter, 0);
  }

  lemma ExchangeBack<T>(xs: seq<Tensor<T>>, size: nat, scatter: Dim, gather: Dim, back: nat)
    requires xs != [] && AllValid(xs) && Size(xs[0], scatter) == |xs| * size
    requires back == if gather == scatter then size else Size(xs[0], gather)
    ensures Exchange(Exchange(xs, size, scatter, gather), back, gather, scatter) == xs
  {
    var n, ys := |xs|, Exchange(xs, size, scatter, gather);
    forall q | 0 <= q < n ensures Join(Received(ys, back, gather, q), scatter) == xs[q] {
      forall r | 0 <= r < n ensures Piece(ys[r], n, back, gather, q) == Piece(xs[q], n, size, scatter, r) {
        var parts := Received(xs, size, scatter, r);
        ReceivedValid(xs, size, scatter, r);
        PiecesOfJoin(parts, gather);
        assert Pieces(ys[r], n, back, gather)[q] == parts[q];
      }
      assert Received(ys, back, gather, q) == Pieces(xs[q], n, size, scatter);
      JoinPieces(xs[q], n, size, scatter);
    }
  }

  lemma Divided(x: nat, n: nat)
    requires n > 0 && x % n == 0
    ensures x == n * (x / n)
  {
  }

  /** The backward pass of the all-to-all, an exchange with the two dimensions swapped, undoes its
      forward pass, for any local tensors and any dimensions. */
  lemma BackwardIsInverse<T>(xs: seq<Tensor<T>>, scatter: Dim, gather: Dim)
    requires AllValid(xs) && AllToAll(xs, scatter, gather).Ok?
    ensures AllValid(AllToAll(xs, scatter, gather).value)
    ensures AllToAll(AllToAll(xs, scatter, gather).value, gather, scatter) == Ok(xs)
  {
    var n, size, ys := |xs|, Size(xs[0], scatter) / |xs|, AllToAll(xs, scatter, gather).value;
    Divided(Size(xs[0], scatter), n);
    var back := if gather == scatter then size else Size(xs[0], gather);
    ExchangeValid(xs, size, scatter, gather);
    QuotientIs(Times(n, back), n, back, 0);
    ExchangeBack(xs, size, scatter, gather, back);
  }

  // ----- resharding

  function Shards<T>(x: Tensor<T>, n: nat, d: Dim): seq<Tensor<T>>
    requires n > 0
  {
    Pieces(x, n, Size(x, d) / n, d)
  }

  function PartsOfEach<T>(blocks: seq<seq<seq<T>>>, n: nat, size: nat, r: nat): seq<seq<seq<T>>>
    requires r < n
  {
    seq(|blocks|, q requires 0 <= q < |blocks| => PartOfEach(blocks[q], n, size, r))
  }

  lemma {:induction false} CutRowsOfConcat<T>(blocks: seq<seq<seq<T>>>, n: nat, size: nat, r: nat)
    requires r < n
    ensures Concat(PartsOfEach(blocks, n, size, r)) == PartOfEach(Concat(blocks), n, size, r)
  {
    if blocks == [] {
    } else {
      CutRowsOfConcat(blocks[1..], n, size, r);
      assert PartsOfEach(blocks, n, size, r)[1..] == PartsOfEach(blocks[1..], n, size, r);
      assert PartOfEach(blocks[0] + Concat(blocks[1..]), n, size, r)
          == PartOfEach(blocks[0], n, size, r) + PartOfEach(Concat(blocks[1..]), n, size, r);
    }
  }

  lemma RowsOfReceived<T>(x: Tensor<T>, n: nat, h: nat, w: nat, r: nat)
    requires r < n
    ensures RowsOf(Received(Pieces(x, n, h, Positions), w, Heads, r)) == PartsOfEach(Parts(x.at, n, h), n, w, r)
  {
    PartsLength(x.at, n, h);
  }

  lemma ReshardPiece<T>(x: Tensor<T>, n: nat, h: nat, w: nat, r: nat)
    requires x.Valid() && r < n && x.rows == n * h
    ensures Join(Received(Pieces(x, n, h, Positions), w, Heads, r), Positions) == Piece(x, n, w, Heads, r)
  {
    PartsFit(x.at, n, h);
    RowsOfReceived(x, n, h, w, r);
    CutRowsOfConcat(Parts(x.at, n, h), n, w, r);
    assert Concat(Parts(x.at, n, h)) == x.at;
  }

  lemma ReshardPieces<T>(x: Tensor<T>, n: nat, h: nat, w: nat)
    requires x.Valid() && x.rows == n * h
    ensures Exchange(Pieces(x, n, h, Positions), w, Heads, Positions) == Pieces(x, n, w, Heads)
  {
    forall r | 0 <= r < n
      ensures Exchange(Pieces(x, n, h, Positions), w, Heads, Positions)[r] == Pieces(x, n, w, Heads)[r]
    {
      ReshardPiece(x, n, h, w, r);
    }
  }

  /** All-to-all turns the sequence shards of a tensor into its head shards, and head shards back into
      sequence shards. */
  lemma Reshards<T>(x: Tensor<T>, n: nat)
    requires x.Valid() && n > 0 && x.rows % n == 0 && x.cols % n == 0
    ensures AllToAll(Shards(x, n, Positions), Heads, Positions) == Ok(Shards(x, n, Heads))
    ensures AllToAll(Shards(x, n, Heads), Positions, Heads) == Ok(Shards(x, n, Positions))
  {
    var xs := Shards(x, n, Positions);
    Divided(x.rows, n);
    PiecesValid(x, n, x.rows / n, Positions);
    ReshardPieces(x, n, x.rows / n, x.cols / n);
    assert AllToAll(xs, Heads, Positions) == Ok(Shards(x, n, Heads));
    BackwardIsInverse(xs, Heads, Positions);
  }

  // ----- padding

  /** Rows of zeros appended to the sequence. */
  function PadRows<T>(x: Tensor<T>, padding: nat, zero: T): Tensor<T> {
    Tensor(x.rows + padding, x.cols, x.at + seq(padding, _ => seq(x.cols, _ => zero)))
  }

  /** `x[0:-padding]` along the sequence: nothing is left when the padding is 0. */
  function UnpadRows<T>(x: Tensor<T>, padding: int): Tensor<T> {
    var end := if padding < 0 then -padding else if padding == 0 then 0 else x.rows - padding;
    var rows := if end < 0 then 0 else if end > x.rows then x.rows else end;
    Tensor(rows, x.cols, Take(x.at, rows))
  }

  function Padding(size: nat, n: nat): nat
    requires n > 0
  {
    if size % n == 0 then 0 else n - size % n
  }

  lemma PaddedSize(size: nat, n: nat)
    requires n > 0
    ensures (size + Padding(size, n)) % n == 0 && Padding(size, n) < n
  {
    var q, r := size / n, size % n;
    assert size == n * q + r;
    Succ(q, n);
    if r == 0 {
      QuotientIs(size, n, q, 0);
    } else {
      QuotientIs(size + Padding(size, n), n, q + 1, 0);
    }
  }

  function PadAll<T>(xs: seq<Tensor<T>>, zero: T): seq<Tensor<T>> {
    seq(|xs|, r requires 0 <= r < |xs| => PadRows(xs[r], Padding(xs[r].rows, |xs|), zero))
  }

  /** From head shards to sequence shards; the sequence is padded to a multiple of the ranks. */
  function GatherHeadsScatterSeq<T>(xs: seq<Tensor<T>>, zero: T): Result<seq<Tensor<T>>> {
    AllToAll(PadAll(xs, zero), Positions, Heads)
  }

  function UnpadAll<T>(xs: seq<Tensor<T>>, unpadded: nat): seq<Tensor<T>> {
    seq(|xs|, r requires 0 <= r < |xs| => UnpadRows(xs[r], xs[r].rows - unpadded))
  }

  /** From sequence shards to head shards, removing the padding of a sequence of known length. */
  function GatherSeqScatterHeads<T>(xs: seq<Tensor<T>>, unpadded: nat): Result<seq<Tensor<T>>> {
    var ys :- AllToAll(xs, Heads, Positions);
    Ok(if unpadded != 0 && ys != [] && unpadded % |ys| != 0 then UnpadAll(ys, unpadded) else ys)
  }

  lemma PadRowsValid<T>(x: Tensor<T>, padding: nat, zero: T)
    requires x.Valid()
    ensures PadRows(x, padding, zero).Valid()
    ensures padding == 0 ==> PadRows(x, padding, zero) == x
  {
  }

  lemma PadAllValid<T>(xs: seq<Tensor<T>>, zero: T)
    requires xs != [] && AllValid(xs)
    ensures AllValid(PadAll(xs, zero))
    ensures PadAll(xs, zero)[0].rows % |PadAll(xs, zero)| == 0
  {
    var padding := Padding(xs[0].rows, |xs|);
    PaddedSize(xs[0].rows, |xs|);
    forall r | 0 <= r < |xs|
      ensures PadAll(xs, zero)[r] == PadRows(xs[r], padding, zero) && PadAll(xs, zero)[r].Valid()
    {
      PadRowsValid(xs[r], padding, zero);
    }
  }

  lemma NothingPadded<T>(xs: seq<Tensor<T>>, zero: T)
    requires xs != [] && AllValid(xs) && xs[0].rows % |xs| == 0
    ensures PadAll(xs, zero) == xs
  {
    forall r | 0 <= r < |xs| ensures PadAll(xs, zero)[r] == xs[r] {
      PadRowsValid(xs[r], 0, zero);
    }
  }

  lemma UnpadPadded<T>(xs: seq<Tensor<T>>, zero: T)
    requires xs != [] && AllValid(xs) && xs[0].rows % |xs| != 0
    ensures UnpadAll(PadAll(xs, zero), xs[0].rows) == xs
  {
    PaddedSize(xs[0].rows, |xs|);
    forall r | 0 <= r < |xs| ensures UnpadAll(PadAll(xs, zero), xs[0].rows)[r] == xs[r] {
      assert PadAll(xs, zero)[r].at[..xs[r].rows] == xs[r].at;
    }
  }

  lemma Unpadded<T>(ys: seq<Tensor<T>>, zs: seq<Tensor<T>>, unpadded: nat, n: nat)
    requires AllToAll(ys, Heads, Positions) == Ok(zs) && |zs| == n > 0
    ensures GatherSeqScatterHeads(ys, unpadded) == Ok(if unpadded % n != 0 then UnpadAll(zs, unpadded) else zs)
  {
    if unpadded == 0 {
      QuotientIs(0, n, 0, 0);
    }
  }

  /** For any sequence length, gathering the sequence with its unpadded size undoes gathering the heads. */
  lemma GatherSeqUndoesGatherHeads<T>(xs: seq<Tensor<T>>, zero: T)
    requires xs != [] && AllValid(xs)
    ensures var there := GatherHeadsScatterSeq(xs, zero);
            there.Ok? && GatherSeqScatterHeads(there.value, xs[0].rows) == Ok(xs)
  {
    var padded := PadAll(xs, zero);
    PadAllValid(xs, zero);
    BackwardIsInverse(padded, Positions, Heads);
    Unpadded(AllToAll(padded, Positions, Heads).value, padded, xs[0].rows, |xs|);
    if xs[0].rows % |xs| != 0 {
      UnpadPadded(xs, zero);
    } else {
      NothingPadded(xs, zero);
    }
  }

  lemma PartOfZeros<T>(row: seq<T>, zero: T, n: nat, size: nat, r: nat)
    requires r < n && |row| == n * size && forall k | 0 <= k < |row| :: row[k] == zero
    ensures Part(row, n, size, r) == seq(size, _ => zero)
  {
    var part := Part(row, n, size, r);
    PartsFit(row, n, size);
    forall k | 0 <= k < |part| ensures part[k] == zero {
      PartKeepsRows(row, n, size, r, part[k]);
    }
  }

  lemma PaddedPiece<T>(x: Tensor<T>, n: nat, size: nat, r: nat, padding: nat, zero: T)
    requires x.Valid() && r < n && x.cols == n * size
    ensures Piece(PadRows(x, padding, zero), n, size, Heads, r) == PadRows(Piece(x, n, size, Heads, r), padding, zero)
  {
    var y := PadRows(x, padding, zero);
    forall i | 0 <= i < y.rows
      ensures Part(y.at[i], n, size, r) == if i < x.rows then Part(x.at[i], n, size, r) else seq(size, _ => zero)
    {
      if i >= x.rows {
        PartOfZeros(y.at[i], zero, n, size, r);
      }
    }
  }

  /** A row of zeros. */
  ghost predicate ZeroRow<T>(row: seq<T>, zero: T) {
    forall k | 0 <= k < |row| :: row[k] == zero
  }

  /** From the head shards of a tensor to the sequence shards of the same tensor, with rows of zeros
      appended up to the least multiple of the ranks. */
  lemma GatherHeadsOfShards<T>(x: Tensor<T>, n: nat, zero: T) returns (y: Tensor<T>)
    requires x.Valid() && n > 0 && x.cols % n == 0
    ensures y.Valid() && y.cols == x.cols && x.rows <= y.rows < x.rows + n && y.rows % n == 0
    ensures y.at[..x.rows] == x.at && forall i | x.rows <= i < y.rows :: ZeroRow(y.at[i], zero)
    ensures GatherHeadsScatterSeq(Shards(x, n, Heads), zero) == Ok(Shards(y, n, Positions))
  {
    var padding := Padding(x.rows, n);
    y := PadRows(x, padding, zero);
    PaddedSize(x.rows, n);
    Divided(x.cols, n);
    PadRowsValid(x, padding, zero);
    forall r | 0 <= r < n ensures PadAll(Shards(x, n, Heads), zero)[r] == Shards(y, n, Heads)[r] {
      PaddedPiece(x, n, x.cols / n, r, padding, zero);
    }
    assert PadAll(Shards(x, n, Heads), zero) == Shards(y, n, Heads);
    Reshards(y, n);
  }
}
