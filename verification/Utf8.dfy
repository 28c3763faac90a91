/** The UTF-8 encoder, decoder, length and truncation of packages/trace/src/wire/binary.ts. */
module Utf8 {
  import opened Wrappers
  import opened Bytes

  predicate IsHigh(u: unit) { 0xD800 <= u <= 0xDBFF }

  predicate IsLow(u: unit) { 0xDC00 <= u <= 0xDFFF }

  /** A surrogate pair starts at index `i`. */
  predicate PairAt(s: seq<unit>, i: int) {
    0 <= i && i + 1 < |s| && IsHigh(s[i]) && IsLow(s[i + 1])
  }

  /** Units taken by the character that starts `s`. */
  function CharUnits(s: seq<unit>): (n: nat)
    requires s != []
    ensures 1 <= n <= |s|
  {
    if PairAt(s, 0) then 2 else 1
  }

  /** Bytes taken by the character that starts `s`; an unpaired surrogate takes three. */
  function CharWidth(s: seq<unit>): (n: nat)
    requires s != []
    ensures 1 <= n <= 4
  {
    if s[0] < 0x80 then 1
    else if s[0] < 0x800 then 2
    else if PairAt(s, 0) then 4
    else 3
  }

  function CodePoint(high: unit, low: unit): (p: int)
    ensures 0x10000 <= p <= 0x10FFFF
  {
    0x10000 + (high % 0x400) * 0x400 + low % 0x400
  }

  function TwoBytes(c: int): (b: bytes)
    requires 0 <= c < 0x800
    ensures |b| == 2
  {
    [0xC0 + c / 0x40, 0x80 + c % 0x40]
  }

  function ThreeBytes(c: int): (b: bytes)
    requires 0 <= c < 0x10000
    ensures |b| == 3
  {
    [0xE0 + c / 0x1000, 0x80 + c / 0x40 % 0x40, 0x80 + c % 0x40]
  }

  function FourBytes(p: int): (b: bytes)
    requires 0 <= p <= 0x10FFFF
    ensures |b| == 4
  {
    [0xF0 + p / 0x40000, 0x80 + p / 0x1000 % 0x40, 0x80 + p / 0x40 % 0x40, 0x80 + p % 0x40]
  }

  /** The encoding of the character that starts `s`. */
  function CharBytes(s: seq<unit>): (bs: bytes)
    requires s != []
    ensures |bs| == CharWidth(s)
  {
    if s[0] < 0x80 then [s[0]]
    else if s[0] < 0x800 then TwoBytes(s[0])
    else if PairAt(s, 0) then FourBytes(CodePoint(s[0], s[1]))
    else ThreeBytes(s[0])
  }

  /** The encoding of a whole string. */
  function Encode(s: seq<unit>): bytes {
    if s == [] then [] else CharBytes(s) + Encode(s[CharUnits(s)..])
  }

  /** The low six bits of a continuation byte. */
  function Continuation(b: bytes, i: nat): Result<int> {
    if i < |b| && 0x80 <= b[i] < 0xC0 then Success(b[i] % 0x40) else Failure
  }

  /** The units of a four-byte character; `String.fromCharCode` keeps sixteen bits of each. */
  function PairUnits(code: int): (us: seq<unit>)
    requires 0 <= code <= 0x10FFFF
    ensures |us| == 2
  {
    var surrogate := code - 0x10000;
    // an overlong form makes `surrogate` negative; the sign bits then cover the 0xD800 mark
    [if surrogate >= 0 then 0xD800 + surrogate / 0x400 else 0x10000 + surrogate / 0x400,
     0xDC00 + surrogate % 0x400]
  }

  /** Reads one character: its units and the bytes it took. */
  function DecodeChar(b: bytes): (r: Result<(seq<unit>, nat)>)
    requires b != []
    ensures r.Success? ==> 1 <= r.value.1 <= |b|
  {
    var first := b[0];
    if first < 0x80 then Success(([first], 1))
    else if 0xC0 <= first < 0xE0 then
      var c1 :- Continuation(b, 1);
      Success(([first % 0x20 * 0x40 + c1], 2))
    else if 0xE0 <= first < 0xF0 then
      var c1 :- Continuation(b, 1);
      var c2 :- Continuation(b, 2);
      Success(([first % 0x10 * 0x1000 + c1 * 0x40 + c2], 3))
    else if 0xF0 <= first < 0xF8 then
      var c1 :- Continuation(b, 1);
      var c2 :- Continuation(b, 2);
      var c3 :- Continuation(b, 3);
      var code := first % 0x08 * 0x40000 + c1 * 0x1000 + c2 * 0x40 + c3;
      if code > 0x10FFFF then Failure else Success((PairUnits(code), 4))
    else Failure
  }

  function Decode(b: bytes): Result<seq<unit>> {
    if b == [] then Success([])
    else
      var (us, n) :- DecodeChar(b);
      Prepend(us, Decode(b[n..]))
  }

  function Prepend(us: seq<unit>, r: Result<seq<unit>>): Result<seq<unit>> {
    if r.Success? then Success(us + r.value) else Failure
  }

  lemma PrependTwice(a: seq<unit>, b: seq<unit>, r: Result<seq<unit>>)
    ensures Prepend(a, Prepend(b, r)) == Prepend(a + b, r)
  {
    if r.Success? {
      assert a + (b + r.value) == a + b + r.value;
    }
  }

  lemma SixBitGroups(p: int)
    requires 0 <= p
    ensures p == p / 0x40000 * 0x40000 + p / 0x1000 % 0x40 * 0x1000 + p / 0x40 % 0x40 * 0x40 + p % 0x40
  {
    assert p / 0x1000 == p / 0x40 / 0x40 && p / 0x40000 == p / 0x1000 / 0x40;
  }

  lemma DecodeFour(p: int, b: bytes)
    requires 0x10000 <= p <= 0x10FFFF && |b| >= 4
    requires b[0] == 0xF0 + p / 0x40000 && b[1] == 0x80 + p / 0x1000 % 0x40
    requires b[2] == 0x80 + p / 0x40 % 0x40 && b[3] == 0x80 + p % 0x40
    ensures DecodeChar(b) == Success((PairUnits(p), 4))
  {
    hide PairUnits;
    SixBitGroups(p);
    var b0: int := b[0];
    assert b0 % 0x08 == p / 0x40000;
    assert forall i | 1 <= i <= 3 :: Continuation(b, i).Success?;
  }

  lemma DecodeThree(c: int, b: bytes)
    requires 0x800 <= c < 0x10000 && |b| >= 3
    requires b[0] == 0xE0 + c / 0x1000 && b[1] == 0x80 + c / 0x40 % 0x40 && b[2] == 0x80 + c % 0x40
    ensures DecodeChar(b) == Success(([c], 3))
  {
    var b0: int := b[0];
    assert b0 % 0x10 == c / 0x1000;
    assert c / 0x1000 * 0x1000 + c / 0x40 % 0x40 * 0x40 + c % 0x40 == c;
  }

  lemma DecodeTwo(c: int, b: bytes)
    requires 0x80 <= c < 0x800 && |b| >= 2
    requires b[0] == 0xC0 + c / 0x40 && b[1] == 0x80 + c % 0x40
    ensures DecodeChar(b) == Success(([c], 2))
  {
  }

  lemma PairUnitsOfCodePoint(high: unit, low: unit)
    requires IsHigh(high) && IsLow(low)
    ensures 0x10000 <= CodePoint(high, low) <= 0x10FFFF
    ensures PairUnits(CodePoint(high, low)) == [high, low]
  {
  }

  /** One character decodes to the units it was made from, whatever follows. */
  lemma DecodeCharInverts(s: seq<unit>, rest: bytes)
    requires s != []
    ensures DecodeChar(CharBytes(s) + rest) == Success((s[..CharUnits(s)], CharWidth(s)))
  {
    var b := CharBytes(s) + rest;
    assert s[..1] == [s[0]];
    if s[0] < 0x80 {
    } else if s[0] < 0x800 {
      hide DecodeChar;
      DecodeTwo(s[0], b);
    } else if PairAt(s, 0) {
      hide DecodeChar, PairUnits;
      PairUnitsOfCodePoint(s[0], s[1]);
      hide CodePoint;
      DecodeFour(CodePoint(s[0], s[1]), b);
      assert s[..2] == [s[0], s[1]];
    } else {
      hide DecodeChar;
      DecodeThree(s[0], b);
    }
  }

  /** The number of the first character; a high surrogate stands for 2^10 numbers beyond the first 2^16. */
  function Number(s: seq<unit>): int
    requires s != []
  {
    if |s| >= 2 && 0xD800 <= s[0] < 0xDC00 && 0xDC00 <= s[1] < 0xE000 then
      var high: int, low: int := s[0], s[1];
      0x1_0000 + (high - 0xD800) * 0x400 + (low - 0xDC00)
    else s[0]
  }

  /** Every byte but the first holds six bits, the most significant first. */
  predicate Continues(b: seq<int>, lead: int, n: int) {
    && (forall i :: 1 <= i < |b| ==> 0x80 <= b[i] < 0xC0)
    && (|b| == 2 ==> n == (b[0] - lead) * 0x40 + (b[1] - 0x80))
    && (|b| == 3 ==> n == (b[0] - lead) * 0x1000 + (b[1] - 0x80) * 0x40 + (b[2] - 0x80))
    && (|b| == 4 ==> n == (b[0] - lead) * 0x4_0000 + (b[1] - 0x80) * 0x1000 + (b[2] - 0x80) * 0x40 + (b[3] - 0x80))
  }

  /** Section 3 of RFC 3629: the lead byte tells the length and holds the highest bits of the number. */
  lemma CharIsNumbered(s: seq<unit>)
    requires s != []
    ensures var b, n := CharBytes(s), Number(s);
      && (n < 0x80 ==> b == [n])
      && (0x80 <= n < 0x800 ==> |b| == 2 && 0xC0 <= b[0] < 0xE0 && Continues(b, 0xC0, n))
      && (0x800 <= n < 0x1_0000 ==> |b| == 3 && 0xE0 <= b[0] < 0xF0 && Continues(b, 0xE0, n))
      && (0x1_0000 <= n ==> |b| == 4 && 0xF0 <= b[0] < 0xF8 && Continues(b, 0xF0, n))
  {
    hide TwoBytes, ThreeBytes, FourBytes, CodePoint, Continues;
    if PairAt(s, 0) {
      PairNumber(s[0], s[1]);
      FourContinue(Number(s));
    } else if s[0] >= 0x800 {
      ThreeContinue(s[0]);
    } else if s[0] >= 0x80 {
      TwoContinue(s[0]);
    }
  }

  lemma PairNumber(high: unit, low: unit)
    requires IsHigh(high) && IsLow(low)
    ensures CodePoint(high, low) == Number([high, low]) >= 0x1_0000
  {
  }

  lemma TwoContinue(n: int)
    requires 0x80 <= n < 0x800
    ensures TwoBytes(n)[0] < 0xE0 && Continues(TwoBytes(n), 0xC0, n)
  {
  }

  lemma ThreeContinue(n: int)
    requires 0x800 <= n < 0x1_0000
    ensures ThreeBytes(n)[0] < 0xF0 && Continues(ThreeBytes(n), 0xE0, n)
  {
    assert n / 0x1000 == n / 0x40 / 0x40;
  }

  lemma FourContinue(n: int)
    requires 0x1_0000 <= n <= 0x10_FFFF
    ensures FourBytes(n)[0] < 0xF8 && Continues(FourBytes(n), 0xF0, n)
  {
    SixBitGroups(n);
  }

  /** The number that a sequence of bytes of a certain length and lead stands for, shortest form or not. */
  function Stands(b: seq<int>, n: nat): int
    requires 2 <= n <= 4 && n <= |b|
  {
    if n == 2 then (b[0] - 0xC0) * 0x40 + (b[1] - 0x80)
    else if n == 3 then (b[0] - 0xE0) * 0x1000 + (b[1] - 0x80) * 0x40 + (b[2] - 0x80)
    else (b[0] - 0xF0) * 0x4_0000 + (b[1] - 0x80) * 0x1000 + (b[2] - 0x80) * 0x40 + (b[3] - 0x80)
  }

  function LengthOf(lead: int): nat {
    if lead < 0x80 then 1 else if 0xC0 <= lead < 0xE0 then 2 else if 0xE0 <= lead < 0xF0 then 3 else if 0xF0 <= lead < 0xF8 then 4 else 0
  }

  /** What the decoder makes of any bytes: refused are a wrong lead, a wrong or missing continuation and what is beyond Unicode. */
  lemma CharDecodes(b: bytes)
    requires b != []
    ensures var n := LengthOf(b[0]);
      && (DecodeChar(b).Success? <==>
            0 < n <= |b| && (forall i :: 1 <= i < n ==> 0x80 <= b[i] < 0xC0) && (n == 4 ==> Stands(b, 4) <= 0x10_FFFF))
      && (DecodeChar(b).Success? ==> DecodeChar(b).value.1 == n)
      && (DecodeChar(b).Success? && n == 1 ==> DecodeChar(b).value.0 == [b[0]])
      && (DecodeChar(b).Success? && (n == 2 || n == 3) ==> DecodeChar(b).value.0 == [Stands(b, n)])
      && (DecodeChar(b).Success? && n == 4 && Stands(b, 4) >= 0x1_0000 ==>
            Number(DecodeChar(b).value.0) == Stands(b, 4) && |DecodeChar(b).value.0| == 2)
  {
    hide PairUnits;
    Lows(b);
    if b[0] >= 0xF0 && DecodeChar(b).Success? && Stands(b, 4) >= 0x1_0000 {
      UnitsNumber(Stands(b, 4));
    }
  }

  lemma Lows(b: bytes)
    requires b != []
    ensures 0xC0 <= b[0] < 0xE0 ==> b[0] % 0x20 == b[0] - 0xC0
    ensures 0xE0 <= b[0] < 0xF0 ==> b[0] % 0x10 == b[0] - 0xE0
    ensures 0xF0 <= b[0] < 0xF8 ==> b[0] % 0x08 == b[0] - 0xF0
    ensures forall i :: 0 <= i < |b| && 0x80 <= b[i] < 0xC0 ==> b[i] % 0x40 == b[i] - 0x80
  {
  }

  lemma UnitsNumber(n: int)
    requires 0x1_0000 <= n <= 0x10_FFFF
    ensures Number(PairUnits(n)) == n
  {
  }

  /** Decoding the encoding of any unit sequence, lone surrogates included, returns it. */
  lemma {:induction false} RoundTrip(s: seq<unit>)
    ensures Decode(Encode(s)) == Success(s)
  {
    if s != [] {
      var tail := s[CharUnits(s)..];
      RoundTrip(tail);
      DecodeCharInverts(s, Encode(tail));
      assert Encode(s)[CharWidth(s)..] == Encode(tail);
      assert s == s[..CharUnits(s)] + tail;
    }
  }

  lemma {:induction false} EncodeBound(s: seq<unit>)
    ensures |s| <= |Encode(s)| <= 3 * |s|
  {
    hide CharBytes;
    if s != [] {
      EncodeBound(s[CharUnits(s)..]);
    }
  }

  method EncodeUtf8(value: seq<unit>) returns (result: bytes)
    ensures result == Encode(value)
  {
    hide Encode, CharWidth, TwoBytes, ThreeBytes, FourBytes, CodePoint;
    result := [];
    var index := 0;
    assert value[0..] == value;
    while index < |value|
      invariant 0 <= index <= |value|
      invariant Encode(value) == result + Encode(value[index..])
    {
      var code: int := value[index];
      ghost var s := value[index..];
      ghost var before, start := result, index;
      assert PairAt(s, 0) == PairAt(value, index);
      if code < 0x80 {
        result := result + [code];
      } else if code < 0x800 {
        result := result + TwoBytes(code);
      } else if 0xD800 <= code <= 0xDBFF && index + 1 < |value| && IsLow(value[index + 1]) {
        index := index + 1;
        code := CodePoint(code, value[index]);
        result := result + FourBytes(code);
      } else {
        result := result + ThreeBytes(code);
      }
      index := index + 1;
      assert result == before + CharBytes(s);
      EncodeStep(value, start, index);
    }
    EmptyEncodesEmpty();
    assert value[index..] == [];
  }

  lemma EmptyEncodesEmpty()
    ensures Encode([]) == []
  {
  }

  /** One character further into the string. */
  lemma EncodeStep(s: seq<unit>, i: nat, next: nat)
    requires i < |s| && next == i + CharUnits(s[i..])
    ensures Encode(s[i..]) == CharBytes(s[i..]) + Encode(s[next..])
  {
    assert s[i..][CharUnits(s[i..])..] == s[next..];
  }

  method DecodeUtf8(b: bytes) returns (r: Result<seq<unit>>)
    ensures r == Decode(b)
  {
    var units: seq<unit> := [];
    var offset := 0;
    assert b[0..] == b && forall us: seq<unit> :: [] + us == us;
    while offset < |b|
      invariant 0 <= offset <= |b|
      invariant Decode(b) == Prepend(units, Decode(b[offset..]))
    {
      var rest := b[offset..];
      var step := DecodeChar(rest);
      if step.Failure? {
        return Failure;
      }
      assert rest[step.value.1..] == b[offset + step.value.1..];
      PrependTwice(units, step.value.0, Decode(b[offset + step.value.1..]));
      units := units + step.value.0;
      offset := offset + step.value.1;
    }
    assert b[offset..] == [] && units + [] == units;
    return Success(units);
  }

  method Utf8ByteLength(value: seq<unit>) returns (count: nat)
    ensures count == |Encode(value)|
  {
    count := 0;
    var index := 0;
    while index < |value|
      invariant 0 <= index <= |value|
      invariant |Encode(value)| == count + |Encode(value[index..])|
    {
      var s := value[index..];
      assert value[index + CharUnits(s)..] == s[CharUnits(s)..];
      count := count + CharWidth(s);
      index := index + CharUnits(s);
    }
  }

  /** A cut at `i` separates the two halves of a surrogate pair. */
  predicate SplitsPair(s: seq<unit>, i: nat) { i > 0 && PairAt(s, i - 1) }

  /** The prefix of length `i` may be kept under a budget of `limit` bytes. */
  predicate Keepable(s: seq<unit>, i: nat, limit: int) {
    i <= |s| && !SplitsPair(s, i) && |Encode(s[..i])| <= limit
  }

  lemma CharPrefix(s: seq<unit>, i: nat)
    requires 0 < i <= |s| && !SplitsPair(s, i)
    ensures CharUnits(s[..i]) == CharUnits(s) <= i
    ensures CharBytes(s[..i]) == CharBytes(s)
  {
    assert PairAt(s[..i], 0) == PairAt(s, 0);
  }

  lemma EncodeFirst(s: seq<unit>)
    requires s != []
    ensures Encode(s) == CharBytes(s) + Encode(s[CharUnits(s)..])
  {
  }

  lemma TailCut(s: seq<unit>, i: nat, n: nat)
    requires n <= i <= |s| && !SplitsPair(s, i)
    ensures !SplitsPair(s[n..], i - n)
  {
    assert forall k :: 0 <= k && PairAt(s[n..], k) ==> PairAt(s, n + k);
  }

  lemma Slices(s: seq<unit>, n: nat, i: nat)
    requires n <= i <= |s|
    ensures s[n..][..i - n] == s[..i][n..] && s[n..][i - n..] == s[i..]
  {
  }

  lemma Associate(a: bytes, b: bytes, c: bytes)
    ensures a + (b + c) == a + b + c
  {
  }

  /** Encoding distributes over a cut that splits no pair. */
  lemma {:induction false} EncodeSplit(s: seq<unit>, i: nat)
    requires i <= |s| && !SplitsPair(s, i)
    ensures Encode(s) == Encode(s[..i]) + Encode(s[i..])
    decreases i
  {
    if i == 0 {
      assert s[..0] == [] && s[0..] == s;
    } else {
      hide Encode, CharBytes, CharUnits, SplitsPair;
      var p, n := s[..i], CharUnits(s);
      CharPrefix(s, i);
      EncodeFirst(s);
      EncodeFirst(p);
      TailCut(s, i, n);
      EncodeSplit(s[n..], i - n);
      Slices(s, n, i);
      Associate(CharBytes(s), Encode(p[n..]), Encode(s[i..]));
    }
  }

  /**
   * The longest prefix within the byte budget that splits no surrogate pair:
   * the result is such a prefix, and no longer one is. A negative budget admits
   * no prefix at all, and the empty string is returned.
   */
  method TruncateUtf8(value: seq<unit>, maxBytes: int) returns (prefix: seq<unit>)
    ensures prefix <= value
    ensures maxBytes >= 0 ==> Keepable(value, |prefix|, maxBytes)
    ensures maxBytes < 0 ==> prefix == []
    ensures forall i: nat | |prefix| < i :: !Keepable(value, i, maxBytes)
  {
    if maxBytes <= 0 {
      forall i: nat | 0 < i <= |value| ensures |Encode(value[..i])| > 0 {
        EncodeBound(value[..i]);
      }
      assert Encode(value[..0]) == [];
      return [];
    }
    var count := 0;
    var index := 0;
    while index < |value|
      invariant 0 <= index <= |value|
      invariant !SplitsPair(value, index)
      invariant count == |Encode(value[..index])| <= maxBytes
    {
      var s := value[index..];
      assert PairAt(s, 0) == PairAt(value, index);
      var width := CharWidth(s);
      var next := index + CharUnits(s);
      CharStep(value, index);
      if count + width > maxBytes {
        forall i: nat | index < i <= |value| && !SplitsPair(value, i)
          ensures |Encode(value[..i])| > maxBytes
        {
          assert next <= i;
          PrefixGrows(value, next, i);
        }
        return value[..index];
      }
      count := count + width;
      index := next;
    }
    assert value[..index] == value;
    return value;
  }

  /** Taking one more character adds exactly its width. */
  lemma CharStep(s: seq<unit>, i: nat)
    requires i < |s| && !SplitsPair(s, i)
    ensures var next := i + CharUnits(s[i..]);
      !SplitsPair(s, next) && |Encode(s[..next])| == |Encode(s[..i])| + CharWidth(s[i..])
  {
    var t := s[i..];
    var n := CharUnits(t);
    var next := i + n;
    assert PairAt(t, 0) == PairAt(s, i);
    var p := s[..next];
    assert forall k :: PairAt(p, k) ==> PairAt(s, k);
    EncodeSplit(p, i);
    assert p[..i] == s[..i];
    var c := p[i..];
    assert c == t[..n];
    assert CharUnits(c) == n && CharWidth(c) == CharWidth(t);
    assert c[n..] == [];
    assert Encode(c) == CharBytes(c) + Encode(c[n..]);
  }

  lemma PrefixGrows(s: seq<unit>, i: nat, j: nat)
    requires i <= j <= |s| && !SplitsPair(s, i) && !SplitsPair(s, j)
    ensures |Encode(s[..i])| <= |Encode(s[..j])|
  {
    var p := s[..j];
    assert forall k :: PairAt(p, k) ==> PairAt(s, k);
    EncodeSplit(p, i);
    assert p[..i] == s[..i];
  }
}
