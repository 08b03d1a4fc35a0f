/** Dotted parameter names as lists of words, the text tests that the source makes on them, and the
    renumbering of a name from its chunk to the whole model. */
module ParameterNames {
  import opened Outcomes
  import opened LayerOffsets

  /** A word of a name; a word of digits is a number, and so is one that a renumbering wrote. */
  datatype Word = Name(text: string) | Number(value: int)

  type Path = seq<Word>

  function Renumbered(path: Path, i: nat, shift: int): Path
    requires i < |path| && path[i].Number?
  {
    path[i := Number(path[i].value + shift)]
  }

  /** `part in text`. */
  predicate Within(part: string, text: string) {
    |part| <= |text| && (text[..|part|] == part || Within(part, text[1..]))
  }

  predicate Mentions(path: Path, part: string) {
    exists w :: w in path && w.Name? && Within(part, w.text)
  }

  /** `text.replace(from, to)`. */
  function Replace(text: string, from: string, to: string): string
    requires from != []
  {
    if |text| < |from| then text
    else if text[..|from|] == from then to + Replace(text[|from|..], from, to)
    else [text[0]] + Replace(text[1..], from, to)
  }

  function ReplaceWord(w: Word, from: string, to: string): Word
    requires from != []
  {
    if w.Name? then Name(Replace(w.text, from, to)) else w
  }

  function ReplaceIn(path: Path, from: string, to: string): Path
    requires from != []
  {
    seq(|path|, i requires 0 <= i < |path| => ReplaceWord(path[i], from, to))
  }

  lemma {:induction false} NothingToReplace(text: string, from: string, to: string)
    requires from != [] && !Within(from, text)
    ensures Replace(text, from, to) == text
  {
    if |text| >= |from| {
      NothingToReplace(text[1..], from, to);
    }
  }

  lemma ReplaceAll(from: string, to: string)
    requires from != []
    ensures Replace(from, from, to) == to
  {
    assert from[..|from|] == from && from[|from|..] == [];
  }

  /** The position of the first occurrence of a word; the length of the path when there is none. */
  function IndexOf(path: Path, w: Word): (i: nat)
    ensures i <= |path|
    ensures i < |path| ==> path[i] == w
    ensures w !in path[..i]
  {
    if path == [] then 0
    else if path[0] == w then 0
    else
      var i := 1 + IndexOf(path[1..], w);
      assert path[..i] == [path[0]] + path[1..][..i - 1];
      i
  }

  // ----- normalize_model_name

  /** The name in the whole model of a parameter of a chunk that starts at layer `offset`. */
  function Normalized(name: Path, offset: int, layerName: string): Result<Path> {
    if !Mentions(name, layerName) then Ok(name)
    else
      var i := IndexOf(name, Name(layerName)) + 1;
      if i >= |name| || !name[i].Number? || name[i].value < 0 then Err else Ok(Renumbered(name, i, offset))
  }

  /** A scan that stops at the first occurrence, or at the last word, has found the index. */
  lemma FirstIndex(path: Path, w: Word, i: nat)
    requires i < |path| && w !in path[..i] && (path[i] == w || i == |path| - 1)
    ensures IndexOf(path, w) == if path[i] == w then i else |path|
  {
    var j := IndexOf(path, w);
    assert forall k | 0 <= k < i :: path[k] == path[..i][k];
    assert i < j ==> path[..j][i] == path[i];
  }

  /** The first layer word of a name is followed by a local layer number. */
  predicate NumberedAt(name: Path, layerName: string, at: nat, local: nat) {
    && 0 < at < |name| && name[at - 1] == Name(layerName) && name[at] == Number(local)
    && Name(layerName) !in name[..at - 1]
  }

  /** The layer word need not stand alone to be mentioned, but a word mentions itself. */
  lemma NumberedIsMentioned(name: Path, layerName: string, at: nat, local: nat)
    requires NumberedAt(name, layerName, at, local)
    ensures Mentions(name, layerName) && IndexOf(name, Name(layerName)) == at - 1
  {
    assert Within(layerName, layerName) by {
      assert layerName[..|layerName|] == layerName;
    }
    assert name[at - 1] in name;
    FirstIndex(name, Name(layerName), at - 1);
  }

  lemma OffsetOfPlace(c: Pipeline, rounds: Option<nat>, s: Shares, p: Place, layer: int)
    requires Divides(c, rounds, s) && Supported(c, rounds) && PlaceOf(c, rounds, s, p, layer)
    ensures LayerOffset(c, p.stage, p.round, rounds, p.stage == 0 && p.round == 0) == Ok(layer - p.local)
  {
    OffsetsTile(c, rounds, s);
    assert Placed(c, rounds, s, p.stage, p.round);
  }

  /** Renumbers a name. Asked by the process of the chunk, of a configuration that the offset supports,
      it puts the layer's number in the whole model for its number in the chunk; a name without the
      layer word comes back as it is. It fails exactly when there is no offset, or the word after the
      first layer word is missing or not a number. */
  method NormalizeModelName(name: Path, stage: nat, round: nat, c: Pipeline, rounds: Option<nat>, onFirst: bool,
                            layerName: string, ghost s: Shares, ghost p: Place, ghost layer: int, ghost at: nat)
    returns (r: Result<Path>)
    requires name != []
    ensures r == match LayerOffset(c, stage, round, rounds, onFirst)
                 case Ok(offset) => Normalized(name, offset, layerName)
                 case Err => Err
    ensures r.Err? <==> LayerOffset(c, stage, round, rounds, onFirst).Err?
                        || (Mentions(name, layerName)
                            && var i := IndexOf(name, Name(layerName)) + 1;
                               i >= |name| || !name[i].Number? || name[i].value < 0)
    ensures r.Ok? && !Mentions(name, layerName) ==> r.value == name
    ensures Divides(c, rounds, s) && Supported(c, rounds) && PlaceOf(c, rounds, s, p, layer)
            && stage == p.stage && round == p.round && onFirst == (stage == 0 && round == 0)
            && NumberedAt(name, layerName, at, p.local) ==>
              r == Ok(name[at := Number(layer)])
  {
    if NumberedAt(name, layerName, at, p.local) {
      NumberedIsMentioned(name, layerName, at, p.local);
    }
    if Divides(c, rounds, s) && Supported(c, rounds) && PlaceOf(c, rounds, s, p, layer) {
      OffsetOfPlace(c, rounds, s, p, layer);
    }
    var offset :- LayerOffset(c, stage, round, rounds, onFirst);
    if !Mentions(name, layerName) {
      return Ok(name);
    }
    var i := 0;
    while i < |name| - 1 && name[i] != Name(layerName)
      invariant i <= |name| - 1
      invariant Name(layerName) !in name[..i]
    {
      assert name[..i + 1] == name[..i] + [name[i]];
      i := i + 1;
    }
    FirstIndex(name, Name(layerName), i);
    var next := i + 1;
    if !(|name| >= next + 1) || !(name[next].Number? && name[next].value >= 0) {
      return Err;
    }
    assert IndexOf(name, Name(layerName)) + 1 == next;
    return Ok(name[next := Number(name[next].value + offset)]);
  }

  lemma NormalizedKeepsWords(name: Path, offset: int, layerName: string)
    requires Normalized(name, offset, layerName).Ok?
    ensures var out := Normalized(name, offset, layerName).value;
            |out| == |name| && (Mentions(out, layerName) <==> Mentions(name, layerName))
            && IndexOf(out, Name(layerName)) == IndexOf(name, Name(layerName))
  {
    var out := Normalized(name, offset, layerName).value;
    if Mentions(name, layerName) {
      var i := IndexOf(name, Name(layerName));
      var w :| w in name && w.Name? && Within(layerName, w.text);
      var k :| 0 <= k < |name| && name[k] == w;
      assert out[k] == w && w in out;
      assert out[..i] == name[..i];
      FirstIndex(out, Name(layerName), i);
    }
  }

  /** Two parameters of the whole model get the same name only when they are the same parameter of
      the same chunk: the names are told apart by layer, whatever the split of the pipeline. */
  lemma NormalizedNamesDistinct(c: Pipeline, rounds: Option<nat>, s: Shares, a: Path, b: Path, layerName: string,
                                p: Place, q: Place)
    requires Divides(c, rounds, s)
    requires p.stage < c.stages && p.round < Rounds(rounds)
    requires q.stage < c.stages && q.round < Rounds(rounds)
    requires p.local < ChunkLayers(c, Rounds(rounds), s, p.stage, p.round)
    requires q.local < ChunkLayers(c, Rounds(rounds), s, q.stage, q.round)
    requires Mentions(a, layerName) && Mentions(b, layerName)
    requires var i := IndexOf(a, Name(layerName)) + 1; i < |a| && a[i] == Number(p.local)
    requires var i := IndexOf(b, Name(layerName)) + 1; i < |b| && b[i] == Number(q.local)
    ensures Normalized(a, ChunkStart(c, rounds, s, p.stage, p.round), layerName)
            == Normalized(b, ChunkStart(c, rounds, s, q.stage, q.round), layerName)
            <==> a == b && p == q
  {
    var from, start := ChunkStart(c, rounds, s, p.stage, p.round), ChunkStart(c, rounds, s, q.stage, q.round);
    if Normalized(a, from, layerName) == Normalized(b, start, layerName) {
      NormalizedKeepsWords(a, from, layerName);
      NormalizedKeepsWords(b, start, layerName);
      var out, i := Normalized(a, from, layerName).value, IndexOf(a, Name(layerName)) + 1;
      assert out[i] == Number(p.local + from) == Number(q.local + start);
      SamePlace(c, rounds, s, p, q, p.local + from);
      assert a == out[i := a[i]] == out[i := b[i]] == b;
    }
  }
}
