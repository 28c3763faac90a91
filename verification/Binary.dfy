/**
 * `BinaryWriter` and `BinaryReader` of packages/trace/src/wire/binary.ts. Each format has
 * a function for the bytes it writes and a `Take...` function for what a reader gets from
 * the front of a byte string; writer and reader methods are proved against these.
 */
module Binary {
  import opened Wrappers
  import opened Bytes
  import opened Float64
  import Utf8

  // ---------- varints ----------

  function VarUint(n: nat): (b: bytes)
    ensures b != []
  {
    if n < 0x80 then [n] else [n % 0x80 + 0x80] + VarUint(n / 0x80)
  }

  /** The loop of `readVarUint`, with `left` bytes still allowed. */
  function TakeDigits(b: bytes, left: nat): (r: Result<Parsed<nat>>)
    ensures r.Success? ==> |r.value.1| < |b|
    decreases left
  {
    if left == 0 || b == [] then Failure
    else if b[0] < 0x80 then Success((b[0], b[1..]))
    else
      var (high, rest) :- TakeDigits(b[1..], left - 1);
      Success((b[0] - 0x80 + 0x80 * high, rest))
  }

  function TakeVarUint(b: bytes): (r: Result<Parsed<nat>>)
    ensures r.Success? ==> r.value.0 <= MAX_SAFE && |r.value.1| < |b|
  {
    var (n, rest) :- TakeDigits(b, 8);
    if n > MAX_SAFE then Failure else Success((n, rest))
  }

  /** A number of at most `k` base-128 digits is written in `k` bytes and read back. */
  lemma {:induction false} DigitsInvert(n: nat, k: nat, rest: bytes)
    requires k >= 1 && n < Power(0x80, k)
    ensures |VarUint(n)| <= k
    ensures TakeDigits(VarUint(n) + rest, k) == Success((n, rest))
    decreases k
  {
    var b := VarUint(n) + rest;
    if n < 0x80 {
      assert b[1..] == rest;
    } else {
      DigitsInvert(n / 0x80, k - 1, rest);
      assert b[1..] == VarUint(n / 0x80) + rest;
    }
  }

  /** Every safe integer takes at most eight bytes and is read back; no larger one is. */
  lemma VarUintInverts(n: nat, rest: bytes)
    ensures n <= MAX_SAFE ==> |VarUint(n)| <= 8 && TakeVarUint(VarUint(n) + rest) == Success((n, rest))
    ensures n > MAX_SAFE ==> TakeVarUint(VarUint(n) + rest).Failure?
  {
    assert Power(0x80, 8) == 0x100_0000_0000_0000;
    if n < Power(0x80, 8) {
      DigitsInvert(n, 8, rest);
    } else {
      TooManyDigits(n, 8, rest);
    }
  }

  lemma {:induction false} TooManyDigits(n: nat, k: nat, rest: bytes)
    requires n >= Power(0x80, k)
    ensures TakeDigits(VarUint(n) + rest, k).Failure?
    decreases k
  {
    if k > 0 {
      TooManyDigits(n / 0x80, k - 1, rest);
      assert n >= 0x80;
      assert (VarUint(n) + rest)[1..] == VarUint(n / 0x80) + rest;
    }
  }

  /** The number that base-128 digits stand for, the lowest first. */
  function Digits(b: bytes): nat { if b == [] then 0 else b[0] % 0x80 + 0x80 * Digits(b[1..]) }

  /** Base-128 digits, all but the last marked by their high bit, and none too many. */
  lemma {:induction false} VarUintIs(n: nat)
    ensures var b := VarUint(n);
      && Digits(b) == n && b[|b| - 1] < 0x80 && (forall i :: 0 <= i < |b| - 1 ==> b[i] >= 0x80)
      && (|b| > 1 ==> b[|b| - 1] != 0)
  {
    if n >= 0x80 {
      VarUintIs(n / 0x80);
      assert VarUint(n)[1..] == VarUint(n / 0x80);
    } else {
      assert VarUint(n)[1..] == [];
    }
  }

  /** Any digits, superfluous ones included, are read up to the first byte that is not marked, if that is one of the first eight. */
  lemma VarUintReads(b: bytes, k: nat)
    requires k < |b| && b[k] < 0x80 && forall i :: 0 <= i < k ==> b[i] >= 0x80
    ensures TakeVarUint(b) == if k < 8 && Digits(b[..k + 1]) <= 9007199254740991 then Success((Digits(b[..k + 1]), b[k + 1..])) else Failure
  {
    DigitsRead(b, k, 8);
  }

  lemma {:induction false} DigitsRead(b: bytes, k: nat, left: nat)
    requires k < |b| && b[k] < 0x80 && forall i :: 0 <= i < k ==> b[i] >= 0x80
    ensures TakeDigits(b, left) == if k < left then Success((Digits(b[..k + 1]), b[k + 1..])) else Failure
    decreases k
  {
    if k == 0 {
      assert b[..1][1..] == [];
    } else if left > 0 {
      DigitsRead(b[1..], k - 1, left - 1);
      assert b[..k + 1][1..] == b[1..][..k] && b[1..][k..] == b[k + 1..];
    }
  }

  /** Digits without an end are refused. */
  lemma VarUintEnds(b: bytes)
    requires forall i :: 0 <= i < |b| ==> b[i] >= 0x80
    ensures TakeVarUint(b) == Failure
  {
    NoEnd(b, 8);
  }

  lemma {:induction false} NoEnd(b: bytes, left: nat)
    requires forall i :: 0 <= i < |b| ==> b[i] >= 0x80
    ensures TakeDigits(b, left).Failure?
  {
    if left > 0 && b != [] {
      NoEnd(b[1..], left - 1);
    }
  }

  function ZigZag(n: int): nat { if n >= 0 then 2 * n else -2 * n - 1 }

  function UnZigZag(e: nat): int { if e % 2 == 0 then e / 2 else -((e + 1) / 2) }

  /** The integers that survive the doubling of `writeVarInt`. */
  predicate FitsVarInt(n: int) { -P52 <= n < P52 }

  /** Signed numbers in the order 0, -1, 1, -2, 2 and so on. */
  lemma ZigZagCounts(n: int)
    ensures ZigZag(0) == 0 && ZigZag(-1) == 1
    ensures n >= 0 ==> ZigZag(n + 1) == ZigZag(n) + 2
    ensures n < 0 ==> ZigZag(n - 1) == ZigZag(n) + 2
  {
  }

  function TakeVarInt(b: bytes): (r: Result<Parsed<int>>)
    ensures r.Success? ==> FitsVarInt(r.value.0) && |r.value.1| < |b|
  {
    var (e, rest) :- TakeVarUint(b);
    Success((UnZigZag(e), rest))
  }

  lemma VarIntInverts(n: int, rest: bytes)
    ensures FitsVarInt(n) <==> ZigZag(n) <= MAX_SAFE
    ensures FitsVarInt(n) ==> TakeVarInt(VarUint(ZigZag(n)) + rest) == Success((n, rest))
  {
    VarUintInverts(ZigZag(n), rest);
  }

  // ---------- bytes, doubles and strings ----------

  function TakeByte(b: bytes): (r: Result<Parsed<byte>>)
    ensures r.Success? ==> |r.value.1| < |b|
  {
    if b == [] then Failure else Success((b[0], b[1..]))
  }

  function TakeBytes(b: bytes, n: int): (r: Result<Parsed<bytes>>)
    ensures r.Success? ==> |r.value.1| <= |b| && |r.value.0| == n
  {
    if n < 0 || n > |b| then Failure else Success((b[..n], b[n..]))
  }

  /** A host number: a safe integer, or one of the remaining doubles. */
  datatype Number = Whole(n: SafeInt) | Other(image: FloatBits)

  function NumberOf(b: bytes): Number
    requires |b| == 8
  {
    match SafeImage(b)
    case Some(n) => Whole(n)
    case None => Other(b)
  }

  function NumberBytes(v: Number): (b: bytes)
    ensures |b| == 8
  {
    match v
    case Whole(n) => Image(n)
    case Other(image) => image
  }

  lemma NumberInverts(v: Number)
    ensures NumberOf(NumberBytes(v)) == v
  {
    if v.Whole? {
      ImageInverts(v.n);
    }
  }

  function TakeFloat64(b: bytes): (r: Result<Parsed<Number>>)
    ensures r.Success? ==> |r.value.1| < |b|
  {
    var (image, rest) :- TakeBytes(b, 8);
    Success((NumberOf(image), rest))
  }

  lemma Float64Inverts(v: Number, rest: bytes)
    ensures TakeFloat64(NumberBytes(v) + rest) == Success((v, rest))
  {
    NumberInverts(v);
  }

  function StringBytes(s: seq<unit>): bytes {
    VarUint(|Utf8.Encode(s)|) + Utf8.Encode(s)
  }

  function TakeString(b: bytes): (r: Result<Parsed<seq<unit>>>)
    ensures r.Success? ==> |r.value.1| < |b|
  {
    var (n, rest) :- TakeVarUint(b);
    var (encoded, rest') :- TakeBytes(rest, n);
    var s :- Utf8.Decode(encoded);
    Success((s, rest'))
  }

  lemma StringInverts(s: seq<unit>, rest: bytes)
    requires |Utf8.Encode(s)| <= MAX_SAFE
    ensures TakeString(StringBytes(s) + rest) == Success((s, rest))
  {
    hide Utf8.Encode, Utf8.Decode, VarUint, TakeVarUint;
    var e := Utf8.Encode(s);
    Utf8.RoundTrip(s);
    VarUintInverts(|e|, e + rest);
    assert StringBytes(s) + rest == VarUint(|e|) + (e + rest);
    assert (e + rest)[..|e|] == e && (e + rest)[|e|..] == rest;
  }

  // ---------- the writer ----------

  class BinaryWriter {
    var data: bytes

    constructor ()
      ensures data == []
    {
      data := [];
    }

    /** Keeps the low eight bits. */
    method WriteByte(value: int)
      modifies this
      ensures data == old(data) + [value % 256]
    {
      data := data + [value % 256];
    }

    method WriteBytes(value: bytes)
      modifies this
      ensures data == old(data) + value
    {
      var i := 0;
      while i < |value|
        invariant 0 <= i <= |value|
        invariant data == old(data) + value[..i]
      {
        assert value[..i + 1] == value[..i] + [value[i]];
        data := data + [value[i]];
        i := i + 1;
      }
      assert value[..i] == value;
    }

    method WriteVarUint(value: int) returns (ok: bool)
      modifies this
      ensures ok <==> 0 <= value <= MAX_SAFE
      ensures data == if ok then old(data) + VarUint(value) else old(data)
    {
      if value > MAX_SAFE || value < 0 {
        return false;
      }
      var remaining: nat := value;
      while remaining >= 0x80
        invariant data + VarUint(remaining) == old(data) + VarUint(value)
      {
        assert VarUint(remaining) == [remaining % 0x80 + 0x80] + VarUint(remaining / 0x80);
        WriteByte(remaining % 0x80 + 0x80);
        remaining := remaining / 0x80;
      }
      WriteByte(remaining);
      return true;
    }

    method WriteVarInt(value: SafeInt) returns (ok: bool)
      modifies this
      ensures ok <==> FitsVarInt(value)
      ensures data == if ok then old(data) + VarUint(ZigZag(value)) else old(data)
    {
      VarIntInverts(value, []);
      ok := WriteVarUint(if value >= 0 then value * 2 else -value * 2 - 1);
    }

    method WriteFloat64(value: Number)
      modifies this
      ensures data == old(data) + NumberBytes(value)
    {
      WriteBytes(NumberBytes(value));
    }

    method WriteString(value: seq<unit>) returns (ok: bool)
      modifies this
      ensures ok <==> |Utf8.Encode(value)| <= MAX_SAFE
      ensures data == if ok then old(data) + StringBytes(value) else old(data)
    {
      var encoded := Utf8.EncodeUtf8(value);
      ok := WriteVarUint(|encoded|);
      if ok {
        WriteBytes(encoded);
      }
    }
  }

  // ---------- the reader ----------

  class BinaryReader {
    const data: bytes
    var offset: nat

    ghost predicate Valid()
      reads this
    {
      offset <= |data|
    }

    /** The bytes not yet read. */
    ghost function Rest(): bytes
      requires Valid()
      reads this
    {
      data[offset..]
    }

    /** The answer `r` and the new position are what `spec` says. */
    ghost predicate Follows<T>(spec: Result<Parsed<T>>, r: Result<T>)
      reads this
    {
      Valid() && match spec
      case Success((v, rest)) => r == Success(v) && Rest() == rest
      case Failure => r.Failure?
    }

    constructor (data: bytes)
      ensures Valid() && Rest() == data && this.data == data
    {
      this.data := data;
      offset := 0;
    }

    method Remaining() returns (n: nat)
      requires Valid()
      ensures n == |Rest()|
    {
      n := |data| - offset;
    }

    method ReadByte() returns (r: Result<byte>)
      requires Valid()
      modifies this
      ensures Follows(TakeByte(old(Rest())), r)
    {
      if offset >= |data| {
        return Failure;
      }
      offset := offset + 1;
      assert old(Rest())[1..] == Rest();
      return Success(data[offset - 1]);
    }

    method ReadBytes(length: int) returns (r: Result<bytes>)
      requires Valid()
      modifies this
      ensures Follows(TakeBytes(old(Rest()), length), r)
    {
      if length < 0 || offset + length > |data| {
        return Failure;
      }
      var b := data[offset..offset + length];
      assert b == old(Rest())[..length] && data[offset + length..] == old(Rest())[length..];
      offset := offset + length;
      return Success(b);
    }

    method ReadVarUint() returns (r: Result<nat>)
      requires Valid()
      modifies this
      ensures Follows(TakeVarUint(old(Rest())), r)
    {
      hide TakeDigits, Scaled;
      var result: nat, multiplier: nat := 0, 1;
      ScaledByOne(TakeDigits(Rest(), 8));
      for i := 0 to 8
        invariant Valid()
        invariant TakeDigits(old(Rest()), 8) == Scaled(result, multiplier, TakeDigits(Rest(), 8 - i))
      {
        DigitStep(result, multiplier, Rest(), 8 - i);
        var b := ReadByte();
        if b.Failure? {
          return Failure;
        }
        result := result + b.value % 0x80 * multiplier;
        if b.value < 0x80 {
          if result > MAX_SAFE {
            return Failure;
          }
          return Success(result);
        }
        multiplier := multiplier * 0x80;
      }
      DigitStep(result, multiplier, Rest(), 0);
      return Failure;
    }

    method ReadVarInt() returns (r: Result<int>)
      requires Valid()
      modifies this
      ensures Follows(TakeVarInt(old(Rest())), r)
    {
      var encoded := ReadVarUint();
      if encoded.Failure? {
        return Failure;
      }
      return Success(UnZigZag(encoded.value));
    }

    method ReadFloat64() returns (r: Result<Number>)
      requires Valid()
      modifies this
      ensures Follows(TakeFloat64(old(Rest())), r)
    {
      var b := ReadBytes(8);
      if b.Failure? {
        return Failure;
      }
      return Success(NumberOf(b.value));
    }

    method ReadString() returns (r: Result<seq<unit>>)
      requires Valid()
      modifies this
      ensures Follows(TakeString(old(Rest())), r)
    {
      var length := ReadVarUint();
      if length.Failure? {
        return Failure;
      }
      var encoded := ReadBytes(length.value);
      if encoded.Failure? {
        return Failure;
      }
      r := Utf8.DecodeUtf8(encoded.value);
    }
  }

  /** Digits read after a partial result, weighted by the multiplier. */
  ghost function Scaled(result: nat, multiplier: nat, r: Result<Parsed<nat>>): Result<Parsed<nat>> {
    if r.Success? then Success((result + multiplier * r.value.0, r.value.1)) else Failure
  }

  lemma ScaledByOne(r: Result<Parsed<nat>>)
    ensures Scaled(0, 1, r) == r
  {
  }

  /** What one more byte does to the digits still to come. */
  lemma DigitStep(result: nat, multiplier: nat, b: bytes, left: nat)
    ensures left == 0 || b == [] ==> Scaled(result, multiplier, TakeDigits(b, left)) == Failure
    ensures left > 0 && b != [] && b[0] < 0x80 ==>
      Scaled(result, multiplier, TakeDigits(b, left)) == Success((result + b[0] % 0x80 * multiplier, b[1..]))
    ensures left > 0 && b != [] && b[0] >= 0x80 ==>
      Scaled(result, multiplier, TakeDigits(b, left)) ==
      Scaled(result + b[0] % 0x80 * multiplier, multiplier * 0x80, TakeDigits(b[1..], left - 1))
  {
    if left > 0 && b != [] && b[0] >= 0x80 {
      var tail := TakeDigits(b[1..], left - 1);
      if tail.Success? {
        var digit, high: nat := b[0] - 0x80, tail.value.0;
        assert multiplier * (digit + 0x80 * high) == digit * multiplier + multiplier * 0x80 * high;
      }
    }
  }
}
