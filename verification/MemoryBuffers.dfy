/** Weights in contiguous buffers, one per element type: one pass sizes the buffers, a second hands
    out aligned views into them, and the parameters are moved into their views. */
module MemoryBuffers {
  import opened Outcomes
  import opened Sequences

  datatype Dtype = Float8 | Float16 | BFloat16 | Float32 | Float64

  /** `torch.finfo(dtype).bits`. */
  function Bits(d: Dtype): nat {
    match d
    case Float8 => 8
    case Float16 => 16
    case BFloat16 => 16
    case Float32 => 32
    case Float64 => 64
  }

  type Shape = seq<nat>

  function Numel(shape: Shape): nat {
    if shape == [] then 1 else Times(shape[0], Numel(shape[1..]))
  }

  /** Elements in 128 bits. */
  function Alignment(d: Dtype): (n: nat)
    ensures n > 0
  {
    128 / Bits(d)
  }

  function CalcPaddedNumel(shape: Shape, d: Dtype): nat {
    Times((Numel(shape) + Alignment(d) - 1) / Alignment(d), Alignment(d))
  }

  lemma Division(x: nat, a: nat)
    requires a > 0
    ensures Times(x / a, a) <= x < Times(x / a, a) + a
  {
    assert x == a * (x / a) + x % a;
  }

  /** The padded size is the smallest multiple of the alignment that holds the tensor. */
  lemma PaddedIsLeastAligned(shape: Shape, d: Dtype)
    ensures CalcPaddedNumel(shape, d) % Alignment(d) == 0
    ensures Numel(shape) <= CalcPaddedNumel(shape, d) < Numel(shape) + Alignment(d)
  {
    var n, a := Numel(shape), Alignment(d);
    var q := (n + a - 1) / a;
    Division(n + a - 1, a);
    QuotientIs(Times(q, a), a, q, 0);
  }

  // ----- buffers and views

  /** A tensor inside an array. */
  datatype View = View(data: array<real>, start: nat, shape: Shape) {
    ghost predicate Valid() {
      start + Numel(shape) <= data.Length
    }

    ghost function Read(): seq<real>
      requires Valid()
      reads data
    {
      data[start..start + Numel(shape)]
    }
  }

  ghost predicate AllZero(data: array<real>)
    reads data
  {
    forall k | 0 <= k < data.Length :: data[k] == 0.0
  }

  class MemoryBuffer {
    const numel: nat
    const numelPadded: nat
    const dtype: Dtype
    const data: array<real>

    ghost predicate Valid() {
      numel <= data.Length
    }

    /** A buffer over an existing tensor, or over a new one of the padded size that is zero. */
    constructor (numel: nat, numelPadded: nat, dtype: Dtype, source: Option<array<real>>)
      requires numel <= if source.Some? then source.value.Length else numelPadded
      ensures Valid() && this.numel == numel && this.numelPadded == numelPadded && this.dtype == dtype
      ensures if source.Some? then data == source.value
              else fresh(data) && data.Length == numelPadded && AllZero(data)
    {
      this.numel := numel;
      this.numelPadded := numelPadded;
      this.dtype := dtype;
      if source.Some? {
        this.data := source.value;
      } else {
        this.data := new real[numelPadded](_ => 0.0);
      }
    }

    /** Reset the buffer to zero. */
    method Zero()
      modifies data
      ensures AllZero(data)
    {
      for i := 0 to data.Length
        invariant forall k | 0 <= k < i :: data[k] == 0.0
      {
        data[i] := 0.0;
      }
    }

    /** A view of the given shape; an error exactly when it leaves the buffer. */
    method Get(shape: Shape, startIndex: nat) returns (r: Result<View>)
      requires Valid()
      ensures r.Ok? <==> startIndex + Numel(shape) <= numel
      ensures r.Ok? ==> r.value == View(data, startIndex, shape) && r.value.Valid()
    {
      if startIndex + Numel(shape) > numel {
        return Err;
      }
      return Ok(View(data, startIndex, shape));
    }
  }

  /** `dst.copy_(src)`, between tensors of one size in different arrays. */
  method Copy(dst: View, src: View)
    requires dst.Valid() && src.Valid() && dst.data != src.data && Numel(dst.shape) == Numel(src.shape)
    modifies dst.data
    ensures dst.Read() == src.Read()
    ensures dst.data[..dst.start] == old(dst.data[..dst.start])
    ensures dst.data[dst.start + Numel(dst.shape)..] == old(dst.data[dst.start + Numel(dst.shape)..])
  {
    var n, to, from := Numel(dst.shape), dst.start, src.start;
    while to < dst.start + n
      invariant dst.start <= to <= dst.start + n && from == src.start + (to - dst.start)
      invariant dst.data[..dst.start] == old(dst.data[..dst.start])
      invariant dst.data[dst.start..to] == src.data[src.start..from]
      invariant dst.data[to..] == old(dst.data[to..])
    {
      ghost var copied := dst.data[dst.start..to];
      ghost var rest := dst.data[to..];
      dst.data[to] := src.data[from];
      assert dst.data[dst.start..to + 1] == copied + [src.data[from]];
      assert src.data[src.start..from + 1] == src.data[src.start..from] + [src.data[from]];
      assert dst.data[to + 1..] == rest[1..];
      to, from := to + 1, from + 1;
    }
  }

  // ----- sizing

  datatype Meta = Meta(name: string, shape: Shape, dtype: Dtype)

  /** The elements that the first k tensors of a type take, padding included. */
  function Placed(metas: seq<Meta>, d: Dtype, k: nat): nat
    requires k <= |metas|
  {
    if k == 0 then 0
    else Placed(metas, d, k - 1) + if metas[k - 1].dtype == d then CalcPaddedNumel(metas[k - 1].shape, d) else 0
  }

  function Used(metas: seq<Meta>, k: nat): set<Dtype>
    requires k <= |metas|
  {
    if k == 0 then {} else Used(metas, k - 1) + {metas[k - 1].dtype}
  }

  /** One buffer for every type in use, of exactly the size that placing all its tensors takes. */
  ghost predicate Sized(buffers: map<Dtype, MemoryBuffer>, metas: seq<Meta>) {
    && buffers.Keys == Used(metas, |metas|)
    && (forall d | d in buffers ::
          buffers[d].dtype == d && buffers[d].data.Length == buffers[d].numelPadded
          && buffers[d].numel == buffers[d].numelPadded == Placed(metas, d, |metas|))
    && forall d, e | d in buffers && e in buffers && d != e :: buffers[d].data != buffers[e].data
  }

  /** The sizing pass over the sorted entries. */
  method CalcTotals(metas: seq<Meta>) returns (totals: map<Dtype, nat>)
    ensures totals.Keys == Used(metas, |metas|) && forall d | d in totals :: totals[d] == Placed(metas, d, |metas|)
  {
    totals := map[];
    for i := 0 to |metas|
      invariant totals.Keys == Used(metas, i)
      invariant forall d | d in totals :: totals[d] == Placed(metas, d, i)
      invariant forall d | d !in totals :: Placed(metas, d, i) == 0
    {
      var d := metas[i].dtype;
      if d !in totals {
        totals := totals[d := 0];
      }
      totals := totals[d := totals[d] + CalcPaddedNumel(metas[i].shape, d)];
    }
  }

  method BuildMemoryBuffer(metas: seq<Meta>) returns (buffers: map<Dtype, MemoryBuffer>)
    ensures Sized(buffers, metas)
    ensures forall d | d in buffers :: fresh(buffers[d].data) && AllZero(buffers[d].data)
  {
    var totals := CalcTotals(metas);
    buffers := map[];
    var todo := totals.Keys;
    while todo != {}
      invariant todo <= totals.Keys && buffers.Keys == totals.Keys - todo
      invariant forall d | d in buffers ::
        buffers[d].dtype == d && buffers[d].data.Length == buffers[d].numelPadded
        && buffers[d].numel == buffers[d].numelPadded == totals[d] && fresh(buffers[d].data)
      invariant forall d | d in buffers :: AllZero(buffers[d].data)
      invariant forall d, e | d in buffers && e in buffers && d != e :: buffers[d].data != buffers[e].data
      decreases |todo|
    {
      var d :| d in todo;
      var buffer := new MemoryBuffer(totals[d], totals[d], d, None);
      buffers := buffers[d := buffer];
      todo := todo - {d};
    }
  }

  // ----- placing

  /** Where the i-th tensor starts in the buffer of its type. */
  function StartOf(metas: seq<Meta>, i: nat): nat
    requires i < |metas|
  {
    Placed(metas, metas[i].dtype, i)
  }

  function EndOf(metas: seq<Meta>, i: nat): nat
    requires i < |metas|
  {
    StartOf(metas, i) + Numel(metas[i].shape)
  }

  lemma {:induction false} PlacedGrows(metas: seq<Meta>, d: Dtype, j: nat, k: nat)
    requires j <= k <= |metas|
    ensures Placed(metas, d, j) <= Placed(metas, d, k)
  {
    if j < k {
      PlacedGrows(metas, d, j, k - 1);
    }
  }

  lemma SumOfMultiples(x: nat, y: nat, n: nat)
    requires n > 0 && x % n == 0 && y % n == 0
    ensures (x + y) % n == 0
  {
    var p, q := x / n, y / n;
    assert x == n * p && y == n * q;
    assert n * p + n * q == n * (p + q);
    QuotientIs(x + y, n, p + q, 0);
  }

  lemma PaddedStaysAligned(shape: Shape, d: Dtype, x: nat)
    requires x % Alignment(d) == 0
    ensures (x + CalcPaddedNumel(shape, d)) % Alignment(d) == 0
  {
    PaddedIsLeastAligned(shape, d);
    SumOfMultiples(x, CalcPaddedNumel(shape, d), Alignment(d));
  }

  lemma {:induction false} PlacedAligned(metas: seq<Meta>, d: Dtype, k: nat)
    requires k <= |metas|
    ensures Placed(metas, d, k) % Alignment(d) == 0
  {
    if k == 0 {
    } else {
      PlacedAligned(metas, d, k - 1);
      PaddedStaysAligned(metas[k - 1].shape, d, Placed(metas, d, k - 1));
    }
  }

  lemma {:induction false} NothingPlaced(metas: seq<Meta>, d: Dtype, j: nat, k: nat)
    requires j <= k <= |metas| && forall i | j <= i < k :: metas[i].dtype != d
    ensures Placed(metas, d, k) == Placed(metas, d, j)
  {
    if j < k {
      NothingPlaced(metas, d, j, k - 1);
    }
  }

  /** Every tensor starts at an aligned index, the first of its type at zero, and ends within what its type
      takes altogether. */
  lemma StartsAligned(metas: seq<Meta>, i: nat)
    requires i < |metas|
    ensures StartOf(metas, i) % Alignment(metas[i].dtype) == 0
    ensures (forall k | 0 <= k < i :: metas[k].dtype != metas[i].dtype) ==> StartOf(metas, i) == 0
    ensures EndOf(metas, i) <= Placed(metas, metas[i].dtype, i + 1) <= Placed(metas, metas[i].dtype, |metas|)
  {
    PlacedAligned(metas, metas[i].dtype, i);
    PaddedIsLeastAligned(metas[i].shape, metas[i].dtype);
    PlacedGrows(metas, metas[i].dtype, i + 1, |metas|);
    if forall k | 0 <= k < i :: metas[k].dtype != metas[i].dtype {
      NothingPlaced(metas, metas[i].dtype, 0, i);
    }
  }

  /** Two tensors of one type never overlap. */
  lemma RegionsDisjoint(metas: seq<Meta>, i: nat, j: nat)
    requires i < j < |metas| && metas[i].dtype == metas[j].dtype
    ensures EndOf(metas, i) <= StartOf(metas, j)
  {
    StartsAligned(metas, i);
    PlacedGrows(metas, metas[i].dtype, i + 1, j);
  }

  /** No room is wasted: the next tensor of a type, or the end of all of them, is at the least aligned index
      after the one before it. */
  lemma PlacedTightly(metas: seq<Meta>, i: nat, j: nat)
    requires i < j <= |metas| && forall k | i < k < j :: metas[k].dtype != metas[i].dtype
    ensures Placed(metas, metas[i].dtype, j) % Alignment(metas[i].dtype) == 0
    ensures EndOf(metas, i) <= Placed(metas, metas[i].dtype, j) < EndOf(metas, i) + Alignment(metas[i].dtype)
  {
    PlacedAligned(metas, metas[i].dtype, j);
    PaddedIsLeastAligned(metas[i].shape, metas[i].dtype);
    NothingPlaced(metas, metas[i].dtype, i + 1, j);
  }

  /** There is a buffer for the i-th tensor, and its region is within it. */
  predicate HasRoom(buffers: map<Dtype, MemoryBuffer>, metas: seq<Meta>, i: nat)
    requires i < |metas|
  {
    metas[i].dtype in buffers && EndOf(metas, i) <= buffers[metas[i].dtype].numel
  }

  ghost predicate ViewOf(v: View, buffers: map<Dtype, MemoryBuffer>, metas: seq<Meta>, i: nat)
    requires i < |metas|
  {
    HasRoom(buffers, metas, i) && v == View(buffers[metas[i].dtype].data, StartOf(metas, i), metas[i].shape)
  }

  lemma {:induction false} UsedHolds(metas: seq<Meta>, i: nat, k: nat)
    requires i < k <= |metas|
    ensures metas[i].dtype in Used(metas, k)
  {
    if i < k - 1 {
      UsedHolds(metas, i, k - 1);
    }
  }

  /** Buffers in arrays of their own, none claiming more than its array has. */
  ghost predicate Backed(buffers: map<Dtype, MemoryBuffer>) {
    && (forall d | d in buffers :: buffers[d].Valid())
    && forall d, e | d in buffers && e in buffers && d != e :: buffers[d].data != buffers[e].data
  }

  /** The buffers of the sizing pass have room for every tensor. */
  lemma SizedHasRoom(buffers: map<Dtype, MemoryBuffer>, metas: seq<Meta>)
    requires Sized(buffers, metas)
    ensures Backed(buffers) && forall i: nat | i < |metas| :: HasRoom(buffers, metas, i)
  {
    forall i: nat | i < |metas| ensures HasRoom(buffers, metas, i) {
      UsedHolds(metas, i, |metas|);
      StartsAligned(metas, i);
    }
  }

  /** The next free index of every buffer once the first i tensors are placed. */
  ghost predicate Starts(startIndex: map<Dtype, nat>, metas: seq<Meta>, i: nat)
    requires i <= |metas|
  {
    forall d | d in startIndex :: startIndex[d] == Placed(metas, d, i)
  }

  /** Every buffer starts empty. */
  method ZeroStarts(buffers: map<Dtype, MemoryBuffer>, ghost metas: seq<Meta>) returns (startIndex: map<Dtype, nat>)
    ensures startIndex.Keys == buffers.Keys && Starts(startIndex, metas, 0)
  {
    startIndex := map d | d in buffers :: 0;
  }

  /** Advances the start of a type by the padded size of a tensor. */
  method Advance(startIndex: map<Dtype, nat>, meta: Meta, ghost metas: seq<Meta>, ghost i: nat)
    returns (next: map<Dtype, nat>)
    requires i < |metas| && meta == metas[i] && Starts(startIndex, metas, i) && meta.dtype in startIndex
    ensures Starts(next, metas, i + 1) && next.Keys == startIndex.Keys
  {
    next := startIndex[meta.dtype := startIndex[meta.dtype] + CalcPaddedNumel(meta.shape, meta.dtype)];
  }

  /** The placement without parameters: every name gets its view, and it fails exactly when some tensor
      has no buffer or its region leaves it. */
  method BuildMemoryReference(metas: seq<Meta>, buffers: map<Dtype, MemoryBuffer>) returns (r: Result<seq<View>>)
    requires Backed(buffers)
    ensures r.Ok? <==> forall i: nat | i < |metas| :: HasRoom(buffers, metas, i)
    ensures r.Ok? ==> |r.value| == |metas|
                      && forall i: nat | i < |metas| :: ViewOf(r.value[i], buffers, metas, i) && r.value[i].Valid()
    ensures Sized(buffers, metas) ==> r.Ok?
  {
    if Sized(buffers, metas) {
      SizedHasRoom(buffers, metas);
    }
    var startIndex: map<Dtype, nat> := ZeroStarts(buffers, metas);
    var views := [];
    for i := 0 to |metas|
      invariant startIndex.Keys == buffers.Keys && Starts(startIndex, metas, i)
      invariant |views| == i
      invariant forall j: nat | j < i :: ViewOf(views[j], buffers, metas, j) && views[j].Valid()
    {
      var d := metas[i].dtype;
      if d !in buffers {
        assert !HasRoom(buffers, metas, i);
        return Err;
      }
      var view := buffers[d].Get(metas[i].shape, startIndex[d]);
      if view.Err? {
        assert !HasRoom(buffers, metas, i);
        return Err;
      }
      startIndex := Advance(startIndex, metas[i], metas, i);
      views := views + [view.value];
    }
    forall i: nat | i < |metas| ensures HasRoom(buffers, metas, i) {
      assert ViewOf(views[i], buffers, metas, i);
    }
    return Ok(views);
  }

  // ----- moving the parameters

  /** A module's parameter: its data is a tensor that can be exchanged. */
  class Parameter {
    const meta: Meta
    var data: View

    constructor (meta: Meta, data: View)
      ensures this.meta == meta && this.data == data
    {
      this.meta := meta;
      this.data := data;
    }
  }

  ghost function Metas(params: seq<Parameter>): (metas: seq<Meta>)
    ensures |metas| == |params|
  {
    seq(|params|, i requires 0 <= i < |params| => params[i].meta)
  }

  ghost function Arrays(buffers: map<Dtype, MemoryBuffer>): set<array<real>> {
    set d | d in buffers :: buffers[d].data
  }

  ghost predicate Distinct(params: seq<Parameter>) {
    params == [] || (params[|params| - 1] !in params[..|params| - 1] && Distinct(params[..|params| - 1]))
  }

  lemma {:induction false} DistinctAt(params: seq<Parameter>, i: nat)
    requires Distinct(params) && i < |params|
    ensures forall j: nat | j < |params| && j != i :: params[j] != params[i]
  {
    var last := |params| - 1;
    if i < last {
      DistinctAt(params[..last], i);
    }
  }

  /** The parameters before they are moved: distinct, with data of their shape, outside the buffers if
      it is to be copied. */
  ghost predicate Separate(params: seq<Parameter>, buffers: map<Dtype, MemoryBuffer>, maintainWeight: bool)
    reads params
  {
    && Distinct(params)
    && forall i | 0 <= i < |params| ::
         && params[i].data.Valid() && params[i].data.shape == params[i].meta.shape
         && (maintainWeight ==> params[i].data.data !in Arrays(buffers))
  }

  /** Region i of a buffer's contents. */
  ghost function Region(contents: seq<real>, metas: seq<Meta>, i: nat): seq<real>
    requires i < |metas|
  {
    Slice(contents, StartOf(metas, i), EndOf(metas, i))
  }

  lemma SliceOfTake(s: seq<real>, n: nat, x: nat, y: nat)
    requires x <= y <= n <= |s|
    ensures Slice(s, x, y) == s[..n][x..y]
  {
  }

  lemma SliceOfDrop(s: seq<real>, n: nat, x: nat, y: nat)
    requires n <= x <= y <= |s|
    ensures Slice(s, x, y) == s[n..][x - n..y - n]
  {
  }

  /** A write between two bounds leaves the regions on either side alone. */
  lemma RegionKept(before: seq<real>, after: seq<real>, from: nat, to: nat, x: nat, y: nat)
    requires |before| == |after| && from <= to <= |before| && x <= y <= |before|
    requires before[..from] == after[..from] && before[to..] == after[to..]
    requires y <= from || to <= x
    ensures Slice(before, x, y) == Slice(after, x, y)
  {
    if y <= from {
      SliceOfTake(before, from, x, y);
      SliceOfTake(after, from, x, y);
    } else {
      SliceOfDrop(before, to, x, y);
      SliceOfDrop(after, to, x, y);
    }
  }

  /** What the buffers hold. */
  ghost function Contents(buffers: map<Dtype, MemoryBuffer>): map<Dtype, seq<real>>
    reads Arrays(buffers)
  {
    map d | d in buffers :: buffers[d].data[..]
  }

  ghost predicate Holds(contents: map<Dtype, seq<real>>, metas: seq<Meta>, j: nat, values: seq<real>)
    requires j < |metas|
  {
    metas[j].dtype in contents && Region(contents[metas[j].dtype], metas, j) == values
  }

  /** The first i regions hold these values. */
  ghost predicate HoldsUpTo(contents: map<Dtype, seq<real>>, metas: seq<Meta>, values: seq<seq<real>>, i: nat)
    requires |metas| == |values|
  {
    forall j: nat | j < i && j < |metas| :: Holds(contents, metas, j, values[j])
  }

  /** The new contents of a buffer differ from the old ones in region i only. */
  ghost predicate OnlyRegionWritten(before: seq<real>, after: seq<real>, metas: seq<Meta>, i: nat)
    requires i < |metas|
  {
    && |before| == |after| && EndOf(metas, i) <= |before|
    && before[..StartOf(metas, i)] == after[..StartOf(metas, i)]
    && before[EndOf(metas, i)..] == after[EndOf(metas, i)..]
  }

  /** The regions moved before keep their values when the next one is written. */
  lemma EarlierRegionKept(metas: seq<Meta>, j: nat, i: nat, before: seq<real>, after: seq<real>)
    requires j < i < |metas| && metas[j].dtype == metas[i].dtype && OnlyRegionWritten(before, after, metas, i)
    ensures Region(before, metas, j) == Region(after, metas, j)
  {
    RegionsDisjoint(metas, j, i);
    RegionKept(before, after, StartOf(metas, i), EndOf(metas, i), StartOf(metas, j), EndOf(metas, j));
  }

  lemma StillHolds(contents: map<Dtype, seq<real>>, metas: seq<Meta>, values: seq<real>, i: nat, j: nat,
                   after: seq<real>)
    requires j < i < |metas| && Holds(contents, metas, j, values) && metas[i].dtype in contents
    requires OnlyRegionWritten(contents[metas[i].dtype], after, metas, i)
    ensures Holds(contents[metas[i].dtype := after], metas, j, values)
  {
    if metas[j].dtype == metas[i].dtype {
      EarlierRegionKept(metas, j, i, contents[metas[i].dtype], after);
    }
  }

  /** Writing the next region, and nothing outside it, keeps the earlier ones. */
  lemma HoldsNext(contents: map<Dtype, seq<real>>, metas: seq<Meta>, values: seq<seq<real>>, i: nat, after: seq<real>)
    requires i < |metas| == |values| && HoldsUpTo(contents, metas, values, i) && metas[i].dtype in contents
    requires OnlyRegionWritten(contents[metas[i].dtype], after, metas, i) && Region(after, metas, i) == values[i]
    ensures HoldsUpTo(contents[metas[i].dtype := after], metas, values, i + 1)
  {
    forall j: nat | j < i ensures Holds(contents[metas[i].dtype := after], metas, j, values[j]) {
      StillHolds(contents, metas, values[j], i, j, after);
    }
  }

  /** The parameters from i on are as they were. */
  ghost predicate Unmoved(params: seq<Parameter>, init: seq<View>, values: seq<seq<real>>, i: nat)
    requires |params| == |init| == |values|
    reads params, set v | v in init :: v.data
  {
    forall j: nat | i <= j < |params| :: params[j].data == init[j] && init[j].Valid() && init[j].Read() == values[j]
  }

  ghost predicate Viewed(params: seq<Parameter>, buffers: map<Dtype, MemoryBuffer>, metas: seq<Meta>, i: nat)
    requires |params| == |metas|
    reads params
  {
    forall j: nat | j < i && j < |params| :: ViewOf(params[j].data, buffers, metas, j)
  }

  lemma Snapshot(params: seq<Parameter>) returns (init: seq<View>, values: seq<seq<real>>)
    requires forall i | 0 <= i < |params| :: params[i].data.Valid()
    ensures |params| == |init| == |values| && Unmoved(params, init, values, 0)
  {
    init, values := [], [];
    for i := 0 to |params|
      invariant |init| == |values| == i
      invariant forall j: nat | j < i :: params[j].data == init[j] && init[j].Valid() && init[j].Read() == values[j]
    {
      init, values := init + [params[i].data], values + [params[i].data.Read()];
    }
  }

  /** The data of the parameters, before they are moved: outside the buffers if it is to be copied. */
  ghost predicate Outside(init: seq<View>, metas: seq<Meta>, buffers: map<Dtype, MemoryBuffer>, maintainWeight: bool) {
    && |init| == |metas|
    && forall i | 0 <= i < |init| ::
         init[i].shape == metas[i].shape && (maintainWeight ==> init[i].data !in Arrays(buffers))
  }

  /** When the weights are not maintained, the buffers hold what they held. */
  ghost predicate Kept(buffers: map<Dtype, MemoryBuffer>, contents: map<Dtype, seq<real>>, maintainWeight: bool)
    reads Arrays(buffers)
  {
    !maintainWeight ==> Contents(buffers) == contents
  }

  /** What is known before the parameters are moved: their entries, their data and values, and what the
      buffers hold. */
  datatype Plan = Plan(metas: seq<Meta>, init: seq<View>, values: seq<seq<real>>, contents: map<Dtype, seq<real>>)

  /** The plan is that of these parameters. */
  ghost predicate PlanFor(plan: Plan, params: seq<Parameter>, buffers: map<Dtype, MemoryBuffer>, maintainWeight: bool) {
    match plan
    case Plan(metas, init, values, contents) =>
      && |params| == |metas| == |init| == |values| && Distinct(params)
      && (forall i | 0 <= i < |params| :: params[i].meta == metas[i])
      && Backed(buffers) && Outside(init, metas, buffers, maintainWeight)
  }

  /** The first i parameters are moved, the others untouched. */
  ghost predicate Progress(plan: Plan, params: seq<Parameter>, buffers: map<Dtype, MemoryBuffer>,
                           maintainWeight: bool, i: nat)
    reads params, Arrays(buffers), set v | v in plan.init :: v.data
  {
    match plan
    case Plan(metas, init, values, contents) =>
      && |params| == |metas| == |init| == |values|
      && Unmoved(params, init, values, i) && Viewed(params, buffers, metas, i)
      && (maintainWeight ==> HoldsUpTo(Contents(buffers), metas, values, i))
      && Kept(buffers, contents, maintainWeight)
  }

  /** A region is written, and of what the buffers hold nothing else changes. */
  method CopyRegion(view: View, source: View, buffers: map<Dtype, MemoryBuffer>, i: nat, ghost metas: seq<Meta>)
    requires Backed(buffers) && i < |metas| && ViewOf(view, buffers, metas, i) && view.Valid()
    requires source.Valid() && source.data !in Arrays(buffers) && Numel(source.shape) == Numel(view.shape)
    modifies view.data
    ensures view.Read() == source.Read() == old(source.Read())
    ensures OnlyRegionWritten(old(view.data[..]), view.data[..], metas, i)
    ensures Region(view.data[..], metas, i) == view.Read()
    ensures Contents(buffers) == old(Contents(buffers))[metas[i].dtype := view.data[..]]
  {
    assert view.data in Arrays(buffers);
    Copy(view, source);
  }

  /** The data of a parameter is copied into its region, and nothing else is written. */
  method CopyIn(params: seq<Parameter>, buffers: map<Dtype, MemoryBuffer>, view: View, i: nat, ghost plan: Plan)
    requires PlanFor(plan, params, buffers, true) && i < |params| == |plan.metas| == |plan.values|
    requires ViewOf(view, buffers, plan.metas, i) && view.Valid() && Progress(plan, params, buffers, true, i)
    modifies view.data
    ensures Progress(plan, params, buffers, true, i)
    ensures HoldsUpTo(Contents(buffers), plan.metas, plan.values, i + 1)
  {
    ghost var before := Contents(buffers);
    assert params[i].data == plan.init[i];
    CopyRegion(view, params[i].data, buffers, i, plan.metas);
    HoldsNext(before, plan.metas, plan.values, i, view.data[..]);
  }

  /** A parameter is given its view. */
  method Rebind(params: seq<Parameter>, buffers: map<Dtype, MemoryBuffer>, view: View, maintainWeight: bool, i: nat,
                ghost plan: Plan)
    requires PlanFor(plan, params, buffers, maintainWeight) && i < |params| == |plan.metas| == |plan.values|
    requires ViewOf(view, buffers, plan.metas, i) && Progress(plan, params, buffers, maintainWeight, i)
    requires maintainWeight ==> HoldsUpTo(Contents(buffers), plan.metas, plan.values, i + 1)
    modifies params[i]
    ensures Progress(plan, params, buffers, maintainWeight, i + 1)
  {
    DistinctAt(params, i);
    params[i].data := view;
  }

  /** One more parameter: the moved ones and the waiting ones are left alone. */
  method MoveStep(params: seq<Parameter>, buffers: map<Dtype, MemoryBuffer>, view: View, maintainWeight: bool, i: nat,
                  ghost plan: Plan)
    requires PlanFor(plan, params, buffers, maintainWeight) && i < |params| == |plan.metas| == |plan.values|
    requires ViewOf(view, buffers, plan.metas, i) && view.Valid() && Progress(plan, params, buffers, maintainWeight, i)
    modifies params[i], view.data
    ensures Progress(plan, params, buffers, maintainWeight, i + 1)
  {
    if maintainWeight {
      CopyIn(params, buffers, view, i, plan);
    }
    Rebind(params, buffers, view, maintainWeight, i, plan);
  }

  lemma ViewReads(params: seq<Parameter>, buffers: map<Dtype, MemoryBuffer>, metas: seq<Meta>, i: nat, n: nat)
    requires |params| == |metas| && i < n <= |params| && Backed(buffers)
    requires Viewed(params, buffers, metas, n)
    ensures params[i].data.Valid() && params[i].data.Read() == Region(buffers[metas[i].dtype].data[..], metas, i)
  {
    assert ViewOf(params[i].data, buffers, metas, i);
  }

  /** The view of the next tensor, if there is room for it. */
  method NextView(buffers: map<Dtype, MemoryBuffer>, startIndex: map<Dtype, nat>, meta: Meta, ghost metas: seq<Meta>,
                  ghost i: nat)
    returns (view: Option<View>)
    requires Backed(buffers) && i < |metas| && meta == metas[i]
    requires startIndex.Keys == buffers.Keys && Starts(startIndex, metas, i)
    ensures view.Some? <==> HasRoom(buffers, metas, i)
    ensures view.Some? ==> ViewOf(view.value, buffers, metas, i) && view.value.Valid()
  {
    if meta.dtype !in buffers {
      return None;
    }
    var v := buffers[meta.dtype].Get(meta.shape, startIndex[meta.dtype]);
    return if v.Ok? then Some(v.value) else None;
  }

  /** Before turn i of the loop over the parameters. */
  ghost predicate AtTurn(plan: Plan, params: seq<Parameter>, buffers: map<Dtype, MemoryBuffer>,
                         startIndex: map<Dtype, nat>, maintainWeight: bool, i: nat)
    reads params, Arrays(buffers), set v | v in plan.init :: v.data
  {
    match plan
    case Plan(metas, _, _, _) =>
      && i <= |params| == |metas|
      && startIndex.Keys == buffers.Keys && Starts(startIndex, metas, i)
      && Progress(plan, params, buffers, maintainWeight, i)
  }

  /** The loop stops after the first `moved` parameters: they are all, or the next one has no room. */
  ghost predicate StopsAt(plan: Plan, buffers: map<Dtype, MemoryBuffer>, moved: nat) {
    match plan
    case Plan(metas, _, _, _) => moved <= |metas| && (moved < |metas| ==> !HasRoom(buffers, metas, moved))
  }

  /** One turn of the loop over the parameters. */
  method MoveTurn(params: seq<Parameter>, buffers: map<Dtype, MemoryBuffer>, startIndex: map<Dtype, nat>,
                  maintainWeight: bool, i: nat, ghost plan: Plan)
    returns (next: Option<map<Dtype, nat>>)
    requires PlanFor(plan, params, buffers, maintainWeight) && i < |params|
    requires AtTurn(plan, params, buffers, startIndex, maintainWeight, i)
    modifies params, Arrays(buffers)
    ensures next.Some? ==> AtTurn(plan, params, buffers, next.value, maintainWeight, i + 1)
    ensures next.None? ==> StopsAt(plan, buffers, i) && Progress(plan, params, buffers, maintainWeight, i)
  {
    var view := NextView(buffers, startIndex, params[i].meta, plan.metas, i);
    if view.None? {
      return None;
    }
    assert view.value.data in Arrays(buffers);
    MoveStep(params, buffers, view.value, maintainWeight, i, plan);
    var advanced := Advance(startIndex, params[i].meta, plan.metas, i);
    return Some(advanced);
  }

  /** The loop over the parameters, up to the first without room. */
  method MoveAll(params: seq<Parameter>, buffers: map<Dtype, MemoryBuffer>, startIndex: map<Dtype, nat>,
                 maintainWeight: bool, ghost plan: Plan)
    returns (moved: nat)
    requires PlanFor(plan, params, buffers, maintainWeight)
    requires AtTurn(plan, params, buffers, startIndex, maintainWeight, 0)
    modifies params, Arrays(buffers)
    ensures StopsAt(plan, buffers, moved) && Progress(plan, params, buffers, maintainWeight, moved)
  {
    var index := startIndex;
    for i := 0 to |params|
      invariant AtTurn(plan, params, buffers, index, maintainWeight, i)
    {
      var next := MoveTurn(params, buffers, index, maintainWeight, i, plan);
      if next.None? {
        return i;
      }
      index := next.value;
    }
    return |params|;
  }

  lemma StillRead(plan: Plan, params: seq<Parameter>, buffers: map<Dtype, MemoryBuffer>, maintainWeight: bool,
                  moved: nat, i: nat)
    requires PlanFor(plan, params, buffers, maintainWeight) && i < |params| == |plan.metas| == |plan.values|
    requires moved <= |params| && Progress(plan, params, buffers, maintainWeight, moved)
    ensures params[i].data.Valid() && (maintainWeight || i >= moved ==> params[i].data.Read() == plan.values[i])
  {
    if i < moved {
      ViewReads(params, buffers, plan.metas, i, moved);
      assert maintainWeight ==> Holds(Contents(buffers), plan.metas, i, plan.values[i]);
    }
  }

  /** The parameters are moved into their buffers, up to the first that has no buffer or whose region
      leaves it, where the original stops in an error. Every one moved ends as a view of its own region
      and the others are left alone; each still reads its original value, or, when the weights are not
      maintained, the buffers are as they were. */
  method BuildMemoryReferenceFromModule(params: seq<Parameter>, buffers: map<Dtype, MemoryBuffer>, maintainWeight: bool)
    returns (moved: nat)
    requires Separate(params, buffers, maintainWeight) && Backed(buffers)
    modifies params, Arrays(buffers)
    ensures moved <= |params| && Viewed(params, buffers, Metas(params), moved)
    ensures moved < |params| ==> !HasRoom(buffers, Metas(params), moved)
    ensures Sized(buffers, Metas(params)) ==> moved == |params|
    ensures forall i: nat | moved <= i < |params| :: params[i].data == old(params[i].data)
    ensures forall i: nat | i < |params| :: params[i].data.Valid()
    ensures maintainWeight ==> forall i: nat | i < |params| :: params[i].data.Read() == old(params[i].data.Read())
    ensures !maintainWeight ==> Contents(buffers) == old(Contents(buffers))
  {
    ghost var init, values := Snapshot(params);
    assert forall j: nat | j < |params| :: values[j] == old(params[j].data.Read()) && init[j] == old(params[j].data);
    ghost var plan := Plan(Metas(params), init, values, Contents(buffers));
    assert PlanFor(plan, params, buffers, maintainWeight);
    assert Progress(plan, params, buffers, maintainWeight, 0);
    var startIndex: map<Dtype, nat> := ZeroStarts(buffers, Metas(params));
    moved := MoveAll(params, buffers, startIndex, maintainWeight, plan);
    if Sized(buffers, Metas(params)) {
      SizedHasRoom(buffers, Metas(params));
    }
    forall i: nat | i < |params|
      ensures params[i].data.Valid() && (maintainWeight ==> params[i].data.Read() == values[i])
    {
      StillRead(plan, params, buffers, maintainWeight, moved, i);
    }
  }

  lemma OtherRegionKept(metas: seq<Meta>, j: nat, i: nat, before: seq<real>, after: seq<real>)
    requires i < |metas| && j < |metas| && i != j && metas[j].dtype == metas[i].dtype
    requires OnlyRegionWritten(before, after, metas, i) && EndOf(metas, j) <= |before|
    ensures Region(before, metas, j) == Region(after, metas, j)
  {
    if j < i {
      RegionsDisjoint(metas, j, i);
    } else {
      RegionsDisjoint(metas, i, j);
    }
    RegionKept(before, after, StartOf(metas, i), EndOf(metas, i), StartOf(metas, j), EndOf(metas, j));
  }

  /** A write through one parameter is seen by it and by no other. */
  method WriteThrough(params: seq<Parameter>, buffers: map<Dtype, MemoryBuffer>, i: nat, source: View,
                      ghost metas: seq<Meta>)
    requires i < |params| == |metas| && Backed(buffers) && Viewed(params, buffers, metas, |params|)
    requires source.Valid() && source.data !in Arrays(buffers) && Numel(source.shape) == Numel(metas[i].shape)
    modifies params[i].data.data
    ensures forall j: nat | j < |params| :: params[j].data.Valid()
    ensures params[i].data.Read() == source.Read()
    ensures forall j: nat | j < |params| && j != i :: params[j].data.Read() == old(params[j].data.Read())
  {
    forall j: nat | j < |params|
      ensures params[j].data.Valid()
      ensures EndOf(metas, j) <= buffers[metas[j].dtype].data.Length
      ensures params[j].data.Read() == Region(buffers[metas[j].dtype].data[..], metas, j)
    {
      ViewReads(params, buffers, metas, j, |params|);
    }
    CopyRegion(params[i].data, source, buffers, i, metas);
    forall j: nat | j < |params| && j != i ensures params[j].data.Read() == old(params[j].data.Read()) {
      ViewReads(params, buffers, metas, j, |params|);
      if metas[j].dtype == metas[i].dtype {
        OtherRegionKept(metas, j, i, old(params[i].data.data[..]), params[i].data.data[..]);
      } else {
        assert params[j].data.data != params[i].data.data;
      }
    }
  }
}
