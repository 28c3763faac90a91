/** Base64 of section 4 of RFC 4648, as in packages/trace/src/wire/base64.ts. */
module Base64 {
  import opened Wrappers
  import opened Bytes
  import opened Arithmetic

  const PAD: unit := 61

  type sextet = x: int | 0 <= x < 64

  function Symbol(v: sextet): unit {
    if v < 26 then 65 + v else if v < 52 then 71 + v else if v < 62 then v - 4 else if v == 62 then 43 else 47
  }

  function SymbolValue(u: unit): Result<sextet> {
    if 65 <= u < 91 then Success(u - 65)
    else if 97 <= u < 123 then Success(u - 71)
    else if 48 <= u < 58 then Success(u + 4)
    else if u == 43 then Success(62)
    else if u == 47 then Success(63)
    else Failure
  }

  lemma SymbolInverts(v: sextet)
    ensures SymbolValue(Symbol(v)) == Success(v) && Symbol(v) != PAD && !IsSpace(Symbol(v))
  {
  }

  lemma ValueInverts(u: unit)
    ensures SymbolValue(u).Success? ==> Symbol(SymbolValue(u).value) == u
  {
  }

  /** Table 1 of RFC 4648. */
  lemma SymbolIsTabled(v: sextet)
    ensures v < 26 ==> Symbol(v) == 'A' as int + v
    ensures 26 <= v < 52 ==> Symbol(v) == 'a' as int + (v - 26)
    ensures 52 <= v < 62 ==> Symbol(v) == '0' as int + (v - 52)
    ensures v == 62 ==> Symbol(v) == '+' as int
    ensures v == 63 ==> Symbol(v) == '/' as int
  {
  }

  /** The class `\s` of a host regular expression. */
  predicate IsSpace(u: unit) {
    || 9 <= u <= 13 || u == 32 || u == 0xA0 || u == 0x1680 || 0x2000 <= u <= 0x200A
    || u == 0x2028 || u == 0x2029 || u == 0x202F || u == 0x205F || u == 0x3000 || u == 0xFEFF
  }

  /** The white space of ECMAScript, each unit by its number. */
  lemma SpacesAre(u: unit)
    ensures IsSpace(u) <==> u in {
      9, 10, 11, 12, 13, 32, 160, 5760, 8192, 8193, 8194, 8195, 8196, 8197, 8198, 8199, 8200, 8201, 8202,
      8232, 8233, 8239, 8287, 12288, 65279}
  {
  }

  function Stripped(s: seq<unit>): seq<unit> {
    if s == [] then [] else if IsSpace(s[0]) then Stripped(s[1..]) else [s[0]] + Stripped(s[1..])
  }

  lemma {:induction false} NothingToStrip(s: seq<unit>)
    requires forall u :: u in s ==> !IsSpace(u)
    ensures Stripped(s) == s
  {
    if s != [] {
      NothingToStrip(s[1..]);
    }
  }

  /** The 24 bits of three bytes. */
  function Bits(a: byte, b: byte, c: byte): nat { a * 65536 + b * 256 + c }

  /** The four symbols of a group in which the bytes beyond the first `n` are missing. */
  function Group(a: byte, b: byte, c: byte, n: nat): (g: seq<unit>)
    ensures |g| == 4
  {
    var value := Bits(a, b, c);
    [ Symbol(value / 262144 % 64), Symbol(value / 4096 % 64),
      if n >= 2 then Symbol(value / 64 % 64) else PAD, if n >= 3 then Symbol(value % 64) else PAD]
  }

  function Encoded(b: bytes): seq<unit> {
    if b == [] then []
    else if |b| == 1 then Group(b[0], 0, 0, 1)
    else if |b| == 2 then Group(b[0], b[1], 0, 2)
    else Group(b[0], b[1], b[2], 3) + Encoded(b[3..])
  }

  /** A padding symbol in the third or fourth place reads as zero. */
  function PaddedValue(u: unit): Result<sextet> { if u == PAD then Success(0) else SymbolValue(u) }

  /** The three bytes of four sextets. */
  function Triple(v0: sextet, v1: sextet, v2: sextet, v3: sextet): (out: bytes)
    ensures |out| == 3
  {
    BytesOf(v0 * 262144 + v1 * 4096 + v2 * 64 + v3)
  }

  function BytesOf(bits: nat): bytes { [bits / 65536 % 256, bits / 256 % 256, bits % 256] }

  /** How many bytes four symbols stand for. */
  function GroupSize(c2: unit, c3: unit): nat { if c2 == PAD then 1 else if c3 == PAD then 2 else 3 }

  /** The bytes of four symbols; padding is for the last four of a text. */
  function GroupBytes(c0: unit, c1: unit, c2: unit, c3: unit, isLast: bool): Result<bytes> {
    var v0 :- SymbolValue(c0);
    var v1 :- SymbolValue(c1);
    var v2 :- PaddedValue(c2);
    var v3 :- PaddedValue(c3);
    if !isLast && (c2 == PAD || c3 == PAD) then Failure
    else if c2 == PAD && c3 != PAD then Failure
    else Success(Triple(v0, v1, v2, v3)[..GroupSize(c2, c3)])
  }

  /** Decoding of a text without white space. */
  function Decoded(text: seq<unit>): Result<bytes> {
    if text == [] then Success([])
    else if |text| < 4 then Failure
    else
      var first :- GroupBytes(text[0], text[1], text[2], text[3], |text| == 4);
      var rest :- Decoded(text[4..]);
      Success(first + rest)
  }

  /** "f", "fo" and "foo" of section 10 of RFC 4648 are "Zg==", "Zm8=" and "Zm9v". */
  lemma RfcVectors()
    ensures Encoded([0x66]) == [90, 103, 61, 61]
    ensures Encoded([0x66, 0x6f]) == [90, 109, 56, 61]
    ensures Encoded([0x66, 0x6f, 0x6f]) == [90, 109, 57, 118]
  {
    assert Encoded([0x66, 0x6f, 0x6f][3..]) == [];
  }

  // ---------- the laws ----------

  /** The four sextets of three bytes. */
  lemma Sextets(a: byte, b: byte, c: byte)
    ensures var v := Bits(a, b, c);
      && v / 262144 % 64 == a / 4
      && v / 4096 % 64 == a % 4 * 16 + b / 16
      && v / 64 % 64 == b % 16 * 4 + c / 64
      && v % 64 == c % 64
  {
    var v := Bits(a, b, c);
    Quotient(v, 262144, a / 4, a % 4 * 65536 + b * 256 + c);
    Quotient(v, 4096, a * 16 + b / 16, b % 16 * 256 + c);
    Quotient(a * 16 + b / 16, 64, a / 4, a % 4 * 16 + b / 16);
    Quotient(v, 64, a * 1024 + b * 4 + c / 64, c % 64);
    Quotient(a * 1024 + b * 4 + c / 64, 64, a * 16 + b / 16, b % 16 * 4 + c / 64);
  }

  lemma BytesOfBits(a: byte, b: byte, c: byte)
    ensures BytesOf(Bits(a, b, c)) == [a, b, c]
  {
    var v := Bits(a, b, c);
    Quotient(v, 65536, a, b * 256 + c);
    Quotient(v, 256, a * 256 + b, c);
    Quotient(a * 256 + b, 256, a, b);
  }

  lemma SplitBits(a: byte, b: byte, c: byte)
    ensures var v := Bits(a, b, c);
      && Triple(v / 262144 % 64, v / 4096 % 64, v / 64 % 64, v % 64) == [a, b, c]
      && (c == 0 ==> v % 64 == 0) && (b == c == 0 ==> v / 64 % 64 == 0)
  {
    hide BytesOf;
    Sextets(a, b, c);
    BytesOfBits(a, b, c);
    assert a / 4 * 262144 + (a % 4 * 16 + b / 16) * 4096 + (b % 16 * 4 + c / 64) * 64 + c % 64 == Bits(a, b, c);
  }

  lemma GroupInverts(a: byte, b: byte, c: byte, n: nat, isLast: bool)
    requires 1 <= n <= 3 && (n == 3 || isLast) && (n < 3 ==> c == 0) && (n < 2 ==> b == 0)
    ensures var g := Group(a, b, c, n);
      GroupBytes(g[0], g[1], g[2], g[3], isLast) == Success([a, b, c][..n])
  {
    hide Triple, Bits, Symbol, SymbolValue;
    SplitBits(a, b, c);
    var v := Bits(a, b, c);
    SymbolInverts(v / 262144 % 64);
    SymbolInverts(v / 4096 % 64);
    SymbolInverts(v / 64 % 64);
    SymbolInverts(v % 64);
  }

  lemma {:induction false} EncodedDecodes(b: bytes)
    ensures Decoded(Encoded(b)) == Success(b)
  {
    hide Group, GroupBytes;
    if |b| == 1 {
      GroupInverts(b[0], 0, 0, 1, true);
      assert [b[0], 0, 0][..1] == b && b + [] == b;
    } else if |b| == 2 {
      GroupInverts(b[0], b[1], 0, 2, true);
      assert [b[0], b[1], 0][..2] == b && b + [] == b;
    } else if b != [] {
      var text := Encoded(b);
      EncodedDecodes(b[3..]);
      assert text[4..] == Encoded(b[3..]);
      assert Encoded(b[3..]) == [] <==> b[3..] == [];
      GroupInverts(b[0], b[1], b[2], 3, |text| == 4);
      assert [b[0], b[1], b[2]][..3] + b[3..] == b;
    }
  }

  /** White space anywhere in the text does not matter. */
  lemma RoundTrip(b: bytes, text: seq<unit>)
    requires Stripped(text) == Encoded(b)
    ensures Decoded(Stripped(text)) == Success(b)
  {
    EncodedDecodes(b);
  }

  lemma {:induction false} NoSpaceEncoded(b: bytes)
    ensures forall u :: u in Encoded(b) ==> !IsSpace(u)
  {
    hide Symbol, IsSpace, Bits;
    if b == [] {
    } else {
      var (x, y, z) := (b[0], if |b| > 1 then b[1] else 0, if |b| > 2 then b[2] else 0);
      var n := if |b| > 2 then 3 else |b|;
      NoSpaceGroup(x, y, z, n);
      if |b| > 2 {
        NoSpaceEncoded(b[3..]);
      }
    }
  }

  lemma NoSpaceGroup(a: byte, b: byte, c: byte, n: nat)
    ensures forall u :: u in Group(a, b, c, n) ==> !IsSpace(u)
  {
    hide Symbol;
    var v := Bits(a, b, c);
    SymbolInverts(v / 262144 % 64);
    SymbolInverts(v / 4096 % 64);
    SymbolInverts(v / 64 % 64);
    SymbolInverts(v % 64);
  }

  /** How many padding symbols end the text, at most two. */
  function Padding(text: seq<unit>): (n: nat)
    requires |text| >= 2
    ensures n <= 2
  {
    if text[|text| - 1] != PAD then 0 else if text[|text| - 2] == PAD then 2 else 1
  }

  /** Symbols, except for the padding at the end. */
  predicate Padded(text: seq<unit>)
    requires |text| >= 2
  {
    forall i :: 0 <= i < |text| - Padding(text) ==> SymbolValue(text[i]).Success?
  }

  lemma PadIsNoSymbol()
    ensures SymbolValue(PAD).Failure?
  {
  }

  lemma GroupShape(c0: unit, c1: unit, c2: unit, c3: unit, isLast: bool)
    ensures GroupBytes(c0, c1, c2, c3, isLast).Success? <==>
      if isLast then Padded([c0, c1, c2, c3])
      else SymbolValue(c0).Success? && SymbolValue(c1).Success? && SymbolValue(c2).Success? && SymbolValue(c3).Success?
    ensures GroupBytes(c0, c1, c2, c3, isLast).Success? ==> |GroupBytes(c0, c1, c2, c3, isLast).value| == GroupSize(c2, c3)
    ensures GroupBytes(c0, c1, c2, c3, isLast).Success? ==>
      GroupSize(c2, c3) == if isLast then 3 - Padding([c0, c1, c2, c3]) else 3
  {
    hide Triple, SymbolValue;
    PadIsNoSymbol();
    var four := [c0, c1, c2, c3];
    assert Padded(four) <==>
      && SymbolValue(four[0]).Success? && SymbolValue(four[1]).Success?
      && (Padding(four) < 2 ==> SymbolValue(four[2]).Success?) && (Padding(four) < 1 ==> SymbolValue(four[3]).Success?);
  }

  /**
   * The decoder is strict. It accepts exactly the texts of whole groups of four symbols in
   * which at most the last two are padding, and no byte is lost or made up.
   */
  lemma {:induction false} DecodesExactly(text: seq<unit>)
    ensures Decoded(text).Success? <==> text == [] || (|text| % 4 == 0 && Padded(text))
    ensures Decoded(text).Success? && text != [] ==> |Decoded(text).value| == |text| / 4 * 3 - Padding(text)
  {
    hide GroupBytes, SymbolValue;
    if |text| == 4 {
      GroupShape(text[0], text[1], text[2], text[3], true);
      assert text == [text[0], text[1], text[2], text[3]] && text[4..] == [];
    } else if |text| > 4 {
      GroupShape(text[0], text[1], text[2], text[3], false);
      DecodesExactly(text[4..]);
      if |text| % 4 == 0 {
        ShiftedPadding(text);
      }
    }
  }

  lemma ShiftedPadding(text: seq<unit>)
    requires |text| >= 8
    ensures Padding(text[4..]) == Padding(text)
    ensures Padded(text) <==> Padded(text[4..]) && forall i :: 0 <= i < 4 ==> SymbolValue(text[i]).Success?
  {
    hide SymbolValue;
    var rest := text[4..];
    assert forall i :: 0 <= i < |rest| ==> rest[i] == text[i + 4];
    if Padded(rest) && forall i :: 0 <= i < 4 ==> SymbolValue(text[i]).Success? {
      forall i | 0 <= i < |text| - Padding(text) ensures SymbolValue(text[i]).Success? {
        assert i >= 4 ==> SymbolValue(rest[i - 4]).Success?;
      }
    }
    if Padded(text) {
      forall i | 0 <= i < |rest| - Padding(rest) ensures SymbolValue(rest[i]).Success? {
        assert SymbolValue(text[i + 4]).Success?;
      }
    }
  }

  // ---------- the loops ----------

  method EncodeBase64(b: bytes) returns (result: seq<unit>)
    ensures result == Encoded(b)
  {
    hide Group;
    result := [];
    var i := 0;
    while i < |b|
      invariant 0 <= i <= |b| + 2
      invariant result + Encoded(b[if i < |b| then i else |b|..]) == Encoded(b)
    {
      var hasB, hasC := i + 1 < |b|, i + 2 < |b|;
      var second: byte := if hasB then b[i + 1] else 0;
      var third: byte := if hasC then b[i + 2] else 0;
      var group := Group(b[i], second, third, if hasC then 3 else if hasB then 2 else 1);
      ghost var rest := b[i..];
      assert hasC ==> rest[3..] == b[i + 3..];
      assert !hasC ==> Encoded(b[|b|..]) == [];
      assert Encoded(rest) == group + Encoded(if hasC then b[i + 3..] else []);
      result := result + group;
      i := i + 3;
    }
  }

  method Strip(value: seq<unit>) returns (text: seq<unit>)
    ensures text == Stripped(value)
  {
    text := [];
    for i := 0 to |value|
      invariant text + Stripped(value[i..]) == Stripped(value)
    {
      assert value[i..][0] == value[i] && value[i..][1..] == value[i + 1..];
      if !IsSpace(value[i]) {
        text := text + [value[i]];
      }
    }
  }

  method DecodeBase64(value: seq<unit>) returns (r: Result<bytes>)
    ensures r == Decoded(Stripped(value))
  {
    hide Padded, Stripped, Padding, GroupAt, Decoded;
    var text := Strip(value);
    DecodesExactly(text);
    if text == [] {
      NothingDecoded();
      return Success([]);
    }
    if |text| % 4 != 0 { return Failure; }
    var output := new byte[|text| / 4 * 3 - Padding(text)];
    var offset, i := 0, 0;
    AfterNothing(Decoded(text));
    assert text[0..] == text;
    while i < |text|
      invariant 0 <= i <= |text| && i % 4 == 0
      invariant offset == if i < |text| then i / 4 * 3 else output.Length
      invariant Decoded(text) == After(output[..offset], Decoded(text[i..]))
    {
      NextGroup(text, i);
      var group := ReadGroup(text, i);
      if group.Failure? { return Failure; }
      AfterTwice(output[..offset], GroupAt(text, i).value, Decoded(text[i + 4..]));
      offset := PutGroup(output, offset, group.value);
      i := i + 4;
    }
    AfterAll(output[..]);
    NothingDecoded();
    assert output[..output.Length] == output[..] && text[|text|..] == [];
    return Success(output[..]);
  }

  function GroupAt(text: seq<unit>, i: nat): Result<bytes>
    requires i + 4 <= |text|
  {
    GroupBytes(text[i], text[i + 1], text[i + 2], text[i + 3], i + 4 == |text|)
  }

  lemma NothingDecoded()
    ensures Decoded([]) == Success([])
  {
  }

  lemma NextGroup(text: seq<unit>, i: nat)
    requires i + 4 <= |text| && i % 4 == 0
    ensures Decoded(text[i..]) ==
      if GroupAt(text, i).Success? then After(GroupAt(text, i).value, Decoded(text[i + 4..])) else Failure
    ensures GroupAt(text, i).Success? ==>
      |GroupAt(text, i).value| == if i + 4 == |text| then 3 - Padding(text) else 3
  {
    hide GroupBytes;
    assert text[i..][4..] == text[i + 4..];
    GroupShape(text[i], text[i + 1], text[i + 2], text[i + 3], i + 4 == |text|);
  }

  /** Reads four symbols into three bytes, of which padding leaves fewer. */
  method ReadGroup(text: seq<unit>, i: nat) returns (r: Result<bytes>)
    requires i + 4 <= |text|
    ensures r.Success? <==> GroupAt(text, i).Success?
    ensures r.Success? ==> |r.value| == 3 && |GroupAt(text, i).value| <= 3 && GroupAt(text, i).value == r.value[..|GroupAt(text, i).value|]
  {
    hide SymbolValue, BytesOf;
    var c0, c1 := SymbolValue(text[i]), SymbolValue(text[i + 1]);
    var isLast := i + 4 == |text|;
    var c2, c3 := PaddedValue(text[i + 2]), PaddedValue(text[i + 3]);
    if c0.Failure? || c1.Failure? || c2.Failure? || c3.Failure? { return Failure; }
    if !isLast && (text[i + 2] == PAD || text[i + 3] == PAD) { return Failure; }
    if text[i + 2] == PAD && text[i + 3] != PAD { return Failure; }
    return Success(Triple(c0.value, c1.value, c2.value, c3.value));
  }

  /** Stores as many of the three bytes as the output has room for. */
  method PutGroup(output: array<byte>, offset: nat, group: bytes) returns (next: nat)
    requires offset <= output.Length && |group| == 3
    modifies output
    ensures next == if offset + 3 <= output.Length then offset + 3 else output.Length
    ensures output[..next] == old(output[..offset]) + group[..next - offset]
  {
    next := offset;
    for k := 0 to 3
      invariant next == if offset + k <= output.Length then offset + k else output.Length
      invariant output[..next] == old(output[..offset]) + group[..next - offset]
    {
      if next < output.Length {
        output[next] := group[k];
        next := next + 1;
      }
    }
  }
}
