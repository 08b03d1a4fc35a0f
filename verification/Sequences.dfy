/** Cutting sequences into parts and joining them again, and the products and quotients of sizes
    that this needs. */
module Sequences {
  // ----- products and quotients

  function Times(x: nat, y: nat): nat {
    x * y
  }

  lemma Succ(n: nat, size: nat)
    ensures (n + 1) * size == n * size + size && size * (n + 1) == size * n + size
  {
  }

  lemma Monotone(x: nat, y: nat, n: nat)
    requires x <= y
    ensures n * x <= n * y && x * n <= y * n
  {
  }

  lemma QuotientIs(x: nat, n: nat, q: nat, r: nat)
    requires r < n && x == n * q + r
    ensures x / n == q && x % n == r
  {
    var d := x / n;
    assert x == n * d + x % n;
    if d > q {
      Monotone(q + 1, d, n);
      Succ(q, n);
    } else if d < q {
      Monotone(d + 1, q, n);
      Succ(d, n);
    }
  }

  lemma Cancel(n: nat, x: nat, y: nat)
    requires n > 0 && n * x == n * y
    ensures x == y
  {
    if x < y {
      Monotone(x + 1, y, n);
      Succ(x, n);
    } else if y < x {
      Monotone(y + 1, x, n);
      Succ(y, n);
    }
  }

  // ----- cutting and joining

  function Concat<T>(parts: seq<seq<T>>): seq<T> {
    if parts == [] then [] else parts[0] + Concat(parts[1..])
  }

  /** The entries at the given indices, in their order. */
  function Select<T>(s: seq<T>, indices: seq<nat>): seq<T>
    requires forall k | 0 <= k < |indices| :: indices[k] < |s|
  {
    seq(|indices|, k requires 0 <= k < |indices| => s[indices[k]])
  }

  function Take<T>(s: seq<T>, n: nat): seq<T> {
    if n <= |s| then s[..n] else s
  }

  function Drop<T>(s: seq<T>, n: nat): seq<T> {
    if n <= |s| then s[n..] else []
  }

  /** s[from:to] with the bounds clipped to the sequence. */
  function Slice<T>(s: seq<T>, from: nat, to: nat): seq<T>
    requires from <= to
  {
    Take(Drop(s, from), to - from)
  }

  /** The first n consecutive parts of the given size. */
  function Parts<T>(s: seq<T>, n: nat, size: nat): seq<seq<T>>
    decreases n
  {
    if n == 0 then [] else [Take(s, size)] + Parts(Drop(s, size), n - 1, size)
  }

  ghost predicate Uniform<T>(parts: seq<seq<T>>, size: nat) {
    forall p | p in parts :: |p| == size
  }

  function SplitBy<T>(s: seq<T>, size: nat): seq<seq<T>>
    decreases |s|
  {
    if s == [] || size == 0 then [] else [Take(s, size)] + SplitBy(Drop(s, size), size)
  }

  /** Cutting a tensor along its rows into n parts: equal sizes rounded up, the last one shorter;
      an empty tensor gives n empty parts. */
  function Chunk<T>(s: seq<T>, n: nat): seq<seq<T>>
    requires n > 0
  {
    if s == [] then Parts(s, n, 0) else SplitBy(s, (|s| + n - 1) / n)
  }

  // ----- parts and concatenation are inverse

  lemma {:induction false} ConcatSize<T>(parts: seq<seq<T>>, size: nat)
    requires Uniform(parts, size)
    ensures |Concat(parts)| == |parts| * size
  {
    if parts == [] {
    } else {
      assert parts[0] in parts && forall p | p in parts[1..] :: p in parts;
      ConcatSize(parts[1..], size);
      Succ(|parts| - 1, size);
    }
  }

  /** The sequence is n times `size` long, one part at a time. */
  ghost predicate Splits<T>(s: seq<T>, n: nat, size: nat)
    decreases n
  {
    if n == 0 then s == [] else |s| >= size && Splits(s[size..], n - 1, size)
  }

  lemma {:induction false} ProductSplits<T>(s: seq<T>, n: nat, size: nat)
    requires |s| == n * size
    ensures Splits(s, n, size)
    decreases n
  {
    if n == 0 {
    } else {
      Succ(n - 1, size);
      assert (n - 1) * size >= 0;
      ProductSplits(s[size..], n - 1, size);
    }
  }

  lemma PartsStep<T>(s: seq<T>, n: nat, size: nat, rest: seq<T>)
    requires n > 0 && size <= |s| && rest == s[size..]
    ensures Parts(s, n, size) == [s[..size]] + Parts(rest, n - 1, size)
  {
  }

  lemma ConcatCons<T>(first: seq<T>, tail: seq<seq<T>>)
    ensures Concat([first] + tail) == first + Concat(tail)
  {
    assert ([first] + tail)[1..] == tail;
  }

  lemma {:induction false} ConcatOfParts<T>(s: seq<T>, n: nat, size: nat)
    requires Splits(s, n, size)
    ensures Concat(Parts(s, n, size)) == s
    decreases n
  {
    if n == 0 {
    } else {
      var rest := s[size..];
      ConcatOfParts(rest, n - 1, size);
      PartsStep(s, n, size, rest);
      ConcatCons(s[..size], Parts(rest, n - 1, size));
    }
  }

  lemma UniformCons<T>(first: seq<T>, tail: seq<seq<T>>, size: nat)
    requires |first| == size && Uniform(tail, size)
    ensures Uniform([first] + tail, size)
  {
  }

  lemma {:induction false} PartsUniform<T>(s: seq<T>, n: nat, size: nat)
    requires Splits(s, n, size)
    ensures Uniform(Parts(s, n, size), size)
    decreases n
  {
    if n == 0 {
    } else {
      var rest := s[size..];
      PartsUniform(rest, n - 1, size);
      PartsStep(s, n, size, rest);
      UniformCons(s[..size], Parts(rest, n - 1, size), size);
    }
  }

  /** A sequence is cut into parts of a given size in one way only. */
  lemma {:induction false} OneWayToCut<T>(a: seq<seq<T>>, b: seq<seq<T>>, size: nat)
    requires Uniform(a, size) && Uniform(b, size) && |a| == |b| && Concat(a) == Concat(b)
    ensures a == b
  {
    if a == [] {
    } else {
      assert a[0] in a && b[0] in b && (forall p | p in a[1..] :: p in a) && (forall p | p in b[1..] :: p in b);
      var whole := Concat(a);
      assert a[0] == whole[..size] == b[0];
      assert Concat(a[1..]) == whole[size..] == Concat(b[1..]);
      OneWayToCut(a[1..], b[1..], size);
    }
  }

  lemma {:induction false} ConcatAppend<T>(a: seq<seq<T>>, b: seq<seq<T>>)
    ensures Concat(a + b) == Concat(a) + Concat(b)
  {
    if a == [] {
      assert a + b == b;
    } else {
      assert (a + b)[1..] == a[1..] + b;
      ConcatAppend(a[1..], b);
    }
  }

  lemma ConcatMiddle<T>(before: seq<T>, middle: seq<T>, after: seq<T>, all: seq<T>, from: nat, size: nat)
    requires |before| == from && |middle| == size && all == before + (middle + after)
    ensures from + size <= |all| && all[from..from + size] == middle
  {
  }

  /** The i-th of the concatenated parts is found at i times their size. */
  lemma ConcatAt<T>(parts: seq<seq<T>>, size: nat, i: nat, from: nat)
    requires Uniform(parts, size) && i < |parts| && from == i * size
    ensures from + size <= |Concat(parts)| && Concat(parts)[from..from + size] == parts[i]
  {
    var before, after := parts[..i], parts[i + 1..];
    assert |Concat(before)| == from by {
      ConcatSize(before, size);
    }
    assert |parts[i]| == size;
    assert parts == before + ([parts[i]] + after);
    ConcatAppend(before, [parts[i]] + after);
    assert ([parts[i]] + after)[1..] == after;
    ConcatMiddle(Concat(before), parts[i], Concat(after), Concat(parts), from, size);
  }

  lemma {:induction false} SplitOfConcat<T>(parts: seq<seq<T>>, size: nat)
    requires Uniform(parts, size) && size > 0
    ensures SplitBy(Concat(parts), size) == parts
  {
    if parts == [] {
    } else {
      assert parts[0] in parts && forall p | p in parts[1..] :: p in parts;
      SplitOfConcat(parts[1..], size);
      assert Take(Concat(parts), size) == parts[0] && Drop(Concat(parts), size) == Concat(parts[1..]);
    }
  }

  lemma RoundedUp(n: nat, size: nat, total: nat)
    requires n > 0 && total == n * size
    ensures (total + n - 1) / n == size
  {
    QuotientIs(total + n - 1, n, size, n - 1);
  }

  lemma ChunkBySize<T>(s: seq<T>, n: nat, size: nat)
    requires s != [] && n > 0 && |s| == n * size
    ensures Chunk(s, n) == SplitBy(s, size)
  {
    RoundedUp(n, size, |s|);
  }

  /** Cutting a concatenation of n equal parts into n chunks gives the parts back. */
  lemma ChunkOfConcat<T>(parts: seq<seq<T>>, size: nat)
    requires Uniform(parts, size) && size > 0 && parts != []
    ensures Chunk(Concat(parts), |parts|) == parts
  {
    ConcatSize(parts, size);
    SplitOfConcat(parts, size);
    assert parts[0] in parts;
    ChunkBySize(Concat(parts), |parts|, size);
  }

  lemma {:induction false} PartsLength<T>(s: seq<T>, n: nat, size: nat)
    ensures |Parts(s, n, size)| == n
    decreases n
  {
    if n == 0 {
    } else {
      PartsLength(Drop(s, size), n - 1, size);
    }
  }

  lemma {:induction false} PartsWithin<T>(s: seq<T>, n: nat, size: nat, p: seq<T>, x: T)
    requires p in Parts(s, n, size) && x in p
    ensures x in s
    decreases n
  {
    if p == Take(s, size) {
    } else {
      assert Parts(s, n, size) == [Take(s, size)] + Parts(Drop(s, size), n - 1, size);
      PartsWithin(Drop(s, size), n - 1, size, p, x);
    }
  }
}
