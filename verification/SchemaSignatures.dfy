/** `schemaSignature` of packages/trace/src/runtime/session.ts. */
module SchemaSignatures {
  import opened Bytes
  import Binary
  import opened TraceTypes
  import opened SessionWire

  const COLON: unit := 58
  const BAR: unit := 124

  /** The type name as it appears in the signature. */
  function KindName(k: FieldKind): seq<unit> {
    match k
    case BooleanKind => [98, 111, 111, 108, 101, 97, 110]  // "boolean"
    case UIntKind => [117, 105, 110, 116]  // "uint"
    case IntKind => [105, 110, 116]  // "int"
    case NumberKind => [110, 117, 109, 98, 101, 114]  // "number"
    case StringKind => [115, 116, 114, 105, 110, 103]  // "string"
    case PlayerKind => [112, 108, 97, 121, 101, 114]  // "player"
  }

  /** `name:type:optional` */
  function FieldSignature(f: FieldSpec): seq<unit> {
    f.name + [COLON] + KindName(f.kind) + [COLON, if f.optional then 49 else 48]
  }

  /** The field signatures, joined by a bar. */
  function Signature(fields: seq<FieldSpec>): seq<unit> {
    if fields == [] then []
    else if |fields| == 1 then FieldSignature(fields[0])
    else FieldSignature(fields[0]) + [BAR] + Signature(fields[1..])
  }

  predicate HasBar(fields: seq<FieldSpec>) {
    exists i :: 0 <= i < |fields| && BAR in fields[i].name
  }

  lemma KindNames(k: FieldKind, k': FieldKind)
    ensures COLON !in KindName(k) && BAR !in KindName(k)
    ensures KindName(k) == KindName(k') <==> k == k'
  {
  }

  lemma Around(a: seq<unit>, sep: unit, x: seq<unit>)
    ensures forall i :: 0 <= i < |a| ==> (a + [sep] + x)[i] == a[i]
    ensures (a + [sep] + x)[|a|] == sep
    ensures forall i :: |a| < i < |a| + 1 + |x| ==> (a + [sep] + x)[i] == x[i - |a| - 1]
    ensures (a + [sep] + x)[..|a|] == a && (a + [sep] + x)[|a| + 1..] == x
  {
  }

  /** A separator that occurs in neither head determines the split. */
  lemma SplitFirst(a: seq<unit>, b: seq<unit>, x: seq<unit>, y: seq<unit>, sep: unit)
    requires sep !in a && sep !in b && a + [sep] + x == b + [sep] + y
    ensures a == b && x == y
  {
    Around(a, sep, x);
    Around(b, sep, y);
    assert |a| == |b|;
  }

  /** Likewise for a separator that occurs in neither tail. */
  lemma SplitLast(a: seq<unit>, b: seq<unit>, x: seq<unit>, y: seq<unit>, sep: unit)
    requires sep !in x && sep !in y && a + [sep] + x == b + [sep] + y
    ensures a == b && x == y
  {
    Around(a, sep, x);
    Around(b, sep, y);
    assert |a| == |b|;
  }

  lemma FieldSignatureInjective(f: FieldSpec, g: FieldSpec)
    requires FieldSignature(f) == FieldSignature(g)
    ensures f == g
  {
    KindNames(f.kind, g.kind);
    KindNames(g.kind, f.kind);
    var ff: unit, fg: unit := if f.optional then 49 else 48, if g.optional then 49 else 48;
    var fn, gn: seq<unit> := f.name + [COLON] + KindName(f.kind), g.name + [COLON] + KindName(g.kind);
    assert FieldSignature(f) == fn + [COLON] + [ff] && FieldSignature(g) == gn + [COLON] + [fg];
    SplitLast(fn, gn, [ff], [fg], COLON);
    assert [ff][0] == [fg][0];
    SplitLast(f.name, g.name, KindName(f.kind), KindName(g.kind), COLON);
  }

  lemma FieldSignatureBar(f: FieldSpec)
    requires BAR !in f.name
    ensures BAR !in FieldSignature(f) && FieldSignature(f) != []
  {
    KindNames(f.kind, f.kind);
  }

  /** Two field lists with one signature are the same list, unless a field name holds a bar. */
  lemma {:induction false} SignatureInjective(f: seq<FieldSpec>, g: seq<FieldSpec>)
    requires Signature(f) == Signature(g) && !HasBar(f) && !HasBar(g)
    ensures f == g
    decreases f
  {
    hide FieldSignature;
    if f != [] {
      FieldSignatureBar(f[0]);
      SignatureFirst(f);
    }
    if g != [] {
      FieldSignatureBar(g[0]);
      SignatureFirst(g);
    }
    if f != [] && g != [] {
      var a, b := FieldSignature(f[0]), FieldSignature(g[0]);
      BarsOf(a, Signature(f[1..]));
      BarsOf(b, Signature(g[1..]));
      assert |f| == 1 <==> |g| == 1;
      if |f| > 1 {
        SplitFirst(a, b, Signature(f[1..]), Signature(g[1..]), BAR);
        assert forall h: seq<FieldSpec> :: !HasBar(h) && h != [] ==> !HasBar(h[1..]);
        SignatureInjective(f[1..], g[1..]);
      }
      FieldSignatureInjective(f[0], g[0]);
      assert f == [f[0]] + f[1..] && g == [g[0]] + g[1..];
    }
  }

  lemma BarsOf(a: seq<unit>, rest: seq<unit>)
    ensures BAR in a + [BAR] + rest
  {
    assert (a + [BAR] + rest)[|a|] == BAR;
  }

  /** The first two fields folded into one whose name spells out their signature. */
  function Folded(f: seq<FieldSpec>): seq<FieldSpec>
    requires |f| >= 2 && |FieldSignature(f[0])| + 1 + |f[1].name| < 0x4000_0000
  {
    [FieldSpec(FieldSignature(f[0]) + [BAR] + f[1].name, f[1].kind, f[1].optional)] + f[2..]
  }

  /** Conversely every schema of two fields or more shares its signature with another one. */
  lemma FoldedCollides(f: seq<FieldSpec>)
    requires |f| >= 2 && |FieldSignature(f[0])| + 1 + |f[1].name| < 0x4000_0000
    ensures Signature(Folded(f)) == Signature(f) && Folded(f) != f && HasBar(Folded(f))
  {
    hide FieldSignature, Signature;
    var g := Folded(f);
    SameEnds(FieldSignature(f[0]) + [BAR], FieldSignature(f[1]), Signature(f[2..]));
    FoldedField(f[0], f[1]);
    assert BAR in g[0].name && |g| < |f| && f[1..][0] == f[1];
    assert f[1..][1..] == f[2..] && g[1..] == f[2..];
    SignatureFirst(f);
    SignatureFirst(f[1..]);
    SignatureFirst(g);
  }

  lemma SameEnds(head: seq<unit>, b: seq<unit>, c: seq<unit>)
    ensures head + (b + [BAR] + c) == head + b + [BAR] + c
  {
    assert head + b + [BAR] == head + (b + [BAR]);
  }

  lemma SignatureFirst(f: seq<FieldSpec>)
    requires f != []
    ensures Signature(f) == if |f| == 1 then FieldSignature(f[0]) else FieldSignature(f[0]) + [BAR] + Signature(f[1..])
  {
  }

  lemma FoldedField(a: FieldSpec, b: FieldSpec)
    requires |FieldSignature(a)| + 1 + |b.name| < 0x4000_0000
    ensures FieldSignature(FieldSpec(FieldSignature(a) + [BAR] + b.name, b.kind, b.optional)) ==
      FieldSignature(a) + [BAR] + FieldSignature(b)
    ensures BAR in FieldSignature(a) + [BAR] + b.name
  {
    var head := FieldSignature(a) + [BAR];
    assert (head + b.name)[|FieldSignature(a)|] == BAR;
    assert FieldSignature(b) == b.name + ([COLON] + KindName(b.kind) + [COLON, if b.optional then 49 else 48]);
  }

  /**
   * What a collision costs: with the folded schema registered, an event of the real one
   * passes every check and is recorded without its fields.
   */
  lemma CollisionLosesFields()
    ensures
      var f := [FieldSpec([97], UIntKind, false), FieldSpec([98], UIntKind, true)];
      var values: Payload := map[[97] := AsNum(Binary.Whole(1))];
      && |FieldSignature(f[0])| + 1 + |f[1].name| < 0x4000_0000
      && Signature(Folded(f)) == Signature(f)
      && PayloadEncodable(f, values) && PayloadEncodable(Folded(f), values)
      && Project(f, values) == [Entry([97], Num(Binary.Whole(1)))] && Project(Folded(f), values) == []
  {
    var f := [FieldSpec([97], UIntKind, false), FieldSpec([98], UIntKind, true)];
    var values: Payload := map[[97] := AsNum(Binary.Whole(1))];
    assert |FieldSignature(f[0])| == 8;
    FoldedCollides(f);
    var g := Folded(f);
    assert |g| == 1 && |g[0].name| > 1;
    assert Project(g, values) == Project(g[1..], values) && g[1..] == [];
    assert f[1..] == [f[1]] && f[1..][1..] == [];
    assert Project(f[1..], values) == Project(f[1..][1..], values) == [];
  }
}
