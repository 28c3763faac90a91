/** Uploads in parts: packages/trace/src/bridge/ingest.ts. */
module Ingest {
  import opened Wrappers
  import opened Bytes
  import opened Arithmetic
  import opened Base64
  import opened Sorting

  datatype IngestPart = IngestPart(sessionId: seq<unit>, part: nat, parts: nat, data: seq<unit>)

  // ---------- cutting a text ----------

  /** Pieces of `size` units; the last may be shorter, and there is always one. */
  function Cut(text: seq<unit>, size: nat): (pieces: seq<seq<unit>>)
    requires size >= 1
    ensures |pieces| >= 1
  {
    if |text| <= size then [text] else [text[..size]] + Cut(text[size..], size)
  }

  function Join(pieces: seq<seq<unit>>): seq<unit> {
    if pieces == [] then [] else pieces[0] + Join(pieces[1..])
  }

  lemma {:induction false} CutJoins(text: seq<unit>, size: nat)
    requires size >= 1
    ensures Join(Cut(text, size)) == text
  {
    if |text| > size {
      CutJoins(text[size..], size);
      assert Cut(text, size)[1..] == Cut(text[size..], size);
    } else {
      assert Cut(text, size)[1..] == [];
    }
  }

  /** `text.slice(from, to)`, which clamps its bounds. */
  function Slice(text: seq<unit>, from: nat, to: nat): seq<unit> {
    if from >= |text| || to <= from then [] else text[from..if to <= |text| then to else |text|]
  }

  /** The number of pieces, as the writer computes it. */
  function Count(length: nat, size: nat): nat
    requires size >= 1
  {
    if length == 0 then 1 else (length + size - 1) / size
  }

  lemma CountStep(length: nat, size: nat)
    requires 1 <= size < length
    ensures Count(length, size) == 1 + Count(length - size, size)
    ensures Count(size, size) == 1
  {
    var rest := length - size + size - 1;
    assert length + size - 1 == rest + size;
    AddOne(rest, size);
    AddOne(size - 1, size);
  }

  lemma AddOne(n: nat, size: nat)
    requires size >= 1
    ensures (n + size) / size == n / size + 1
  {
    Quotient(n + size, size, n / size + 1, n % size);
  }

  lemma SmallCount(length: nat, size: nat)
    requires 1 <= size && length <= size
    ensures Count(length, size) == 1
  {
    if length > 0 {
      Quotient(length + size - 1, size, 1, length - 1);
    }
  }

  lemma {:induction false} CutAt(text: seq<unit>, size: nat, i: nat)
    requires size >= 1 && i < |Cut(text, size)|
    ensures Cut(text, size)[i] == Slice(text, i * size, (i + 1) * size)
  {
    assert (i + 1) * size == i * size + size;
    if |text| <= size {
      assert text[0..|text|] == text;
    } else if i == 0 {
      assert text[0..size] == text[..size];
    } else {
      CutAt(text[size..], size, i - 1);
      assert (i - 1) * size == i * size - size;
      SliceShift(text, size, (i - 1) * size);
    }
  }

  lemma SliceShift(text: seq<unit>, size: nat, from: nat)
    requires 1 <= size < |text|
    ensures Slice(text[size..], from, from + size) == Slice(text, from + size, from + size + size)
  {
  }

  lemma {:induction false} CutCount(text: seq<unit>, size: nat)
    requires size >= 1
    ensures |Cut(text, size)| == Count(|text|, size)
  {
    if |text| > size {
      CutCount(text[size..], size);
      CountStep(|text|, size);
    } else {
      SmallCount(|text|, size);
    }
  }

  // ---------- parts ----------

  function Labelled(sessionId: seq<unit>, pieces: seq<seq<unit>>): (r: seq<IngestPart>)
    ensures |r| == |pieces|
  {
    seq(|pieces|, i requires 0 <= i < |pieces| => IngestPart(sessionId, i, |pieces|, pieces[i]))
  }

  /** The upload of a container. */
  function PartsOf(sessionId: seq<unit>, b: bytes, size: nat): (r: seq<IngestPart>)
    requires size >= 1
    ensures |r| >= 1
  {
    Labelled(sessionId, Cut(Encoded(b), size))
  }

  method EncodeTraceIngestParts(sessionId: seq<unit>, b: bytes, partChars: real) returns (result: seq<IngestPart>)
    ensures result == PartsOf(sessionId, b, if partChars.Floor >= 1 then partChars.Floor else 1)
  {
    hide Encoded, Slice, Cut;
    var encoded := EncodeBase64(b);
    var size := if partChars.Floor >= 1 then partChars.Floor else 1;
    var parts := Count(|encoded|, size);
    ghost var pieces := Cut(encoded, size);
    CutCount(encoded, size);
    result := [];
    for part := 0 to parts
      invariant |result| == part
      invariant forall i :: 0 <= i < part ==> result[i] == Labelled(sessionId, pieces)[i]
    {
      CutAt(encoded, size, part);
      result := result + [IngestPart(sessionId, part, parts, Slice(encoded, part * size, (part + 1) * size))];
    }
  }

  /** Every part names the session, its number from zero on, how many there are, and carries its piece of the text. */
  lemma PartsAre(sessionId: seq<unit>, b: bytes, size: nat, i: nat, from: nat)
    requires size >= 1 && i < |PartsOf(sessionId, b, size)| && from == i * size
    ensures var r, text := PartsOf(sessionId, b, size), Encoded(b);
      && r[i].sessionId == sessionId && r[i].part == i && r[i].parts == |r| == Count(|text|, size)
      && r[i].data == Slice(text, from, from + size)
  {
    hide Encoded, Cut, Slice, Count;
    CutCount(Encoded(b), size);
    CutAt(Encoded(b), size, i);
    assert (i + 1) * size == i * size + size;
  }

  predicate Earlier(a: IngestPart, b: IngestPart) { a.part <= b.part }

  function Data(parts: seq<IngestPart>): seq<seq<unit>> {
    seq(|parts|, i requires 0 <= i < |parts| => parts[i].data)
  }

  predicate Numbered(parts: seq<IngestPart>) { forall i :: 0 <= i < |parts| ==> parts[i].part == i }

  function Reassembled(parts: seq<IngestPart>): Result<bytes> {
    var ordered := Sort(parts, Earlier);
    if parts != [] && |parts| == parts[0].parts && Numbered(ordered)
    then Decoded(Stripped(Join(Data(ordered))))
    else Failure
  }

  method DecodeTraceIngestParts(parts: seq<IngestPart>) returns (r: Result<bytes>)
    ensures r == Reassembled(parts)
  {
    hide Decoded, Stripped;
    if parts == [] { return Failure; }
    if |parts| != parts[0].parts { return Failure; }
    var ordered := Sort(parts, Earlier);
    var text: seq<unit> := [];
    for index := 0 to |ordered|
      invariant forall i :: 0 <= i < index ==> ordered[i].part == i
      invariant text + Join(Data(ordered[index..])) == Join(Data(ordered))
    {
      if ordered[index].part != index { return Failure; }
      var rest := ordered[index..];
      assert Data(rest)[0] == ordered[index].data && Data(rest)[1..] == Data(ordered[index + 1..]);
      text := text + ordered[index].data;
    }
    assert Data(ordered[|ordered|..]) == [];
    assert text + Join([]) == text;
    r := DecodeBase64(text);
  }

  // ---------- the law ----------

  lemma EarlierRanks()
    ensures Ranks(Earlier)
  {
  }

  lemma WholeDecodes(sessionId: seq<unit>, b: bytes, size: nat)
    requires size >= 1
    ensures Decoded(Stripped(Join(Data(PartsOf(sessionId, b, size))))) == Success(b)
  {
    hide Encoded, Decoded, Stripped, Cut;
    assert Data(PartsOf(sessionId, b, size)) == Cut(Encoded(b), size);
    CutJoins(Encoded(b), size);
    NoSpaceEncoded(b);
    NothingToStrip(Encoded(b));
    EncodedDecodes(b);
  }

  /** Numbered from 0, as many as an upload has, they are the upload. */
  lemma NumberedIsWhole(sessionId: seq<unit>, b: bytes, size: nat, parts: seq<IngestPart>)
    requires size >= 1 && parts != [] && |parts| == parts[0].parts && Numbered(Sort(parts, Earlier))
    requires forall p :: p in parts ==> p in PartsOf(sessionId, b, size)
    ensures Sort(parts, Earlier) == PartsOf(sessionId, b, size)
    ensures multiset(parts) == multiset(PartsOf(sessionId, b, size))
  {
    hide Encoded, Cut, Sort;
    var all := PartsOf(sessionId, b, size);
    var ordered := Sort(parts, Earlier);
    EarlierRanks();
    SortOrders(parts, Earlier);
    assert parts[0] in all;
    forall i | 0 <= i < |ordered| ensures ordered[i] == all[i] {
      SortKeeps(parts, Earlier, ordered[i]);
    }
    assert ordered == all;
  }

  lemma WholeIsNumbered(sessionId: seq<unit>, b: bytes, size: nat, parts: seq<IngestPart>)
    requires size >= 1 && multiset(parts) == multiset(PartsOf(sessionId, b, size))
    ensures parts != [] && |parts| == parts[0].parts && Numbered(Sort(parts, Earlier))
  {
    hide Encoded, Cut, Sort;
    var all := PartsOf(sessionId, b, size);
    EarlierRanks();
    SortOrders(parts, Earlier);
    assert |multiset(parts)| == |all|;
    assert parts[0] in multiset(all);
    OrderedUnique(all, Sort(parts, Earlier), Earlier);
  }

  /** The parts of one upload in any order give back the bytes; short of a part, nothing does. */
  lemma AnyOrder(sessionId: seq<unit>, b: bytes, size: nat, parts: seq<IngestPart>)
    requires size >= 1 && forall p :: p in parts ==> p in PartsOf(sessionId, b, size)
    ensures Reassembled(parts).Success? <==> multiset(parts) == multiset(PartsOf(sessionId, b, size))
    ensures Reassembled(parts).Success? ==> Reassembled(parts) == Success(b)
  {
    hide PartsOf, Decoded, Stripped, Numbered, Sort, Join, Data;
    if parts != [] && |parts| == parts[0].parts && Numbered(Sort(parts, Earlier)) {
      NumberedIsWhole(sessionId, b, size, parts);
      WholeDecodes(sessionId, b, size);
    }
    if multiset(parts) == multiset(PartsOf(sessionId, b, size)) {
      WholeIsNumbered(sessionId, b, size, parts);
    }
  }
}
