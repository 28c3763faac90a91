/**
 * The ZIP writer of packages/observatory/server/zip.ts, against a reader that follows
 * sections 4.3.7, 4.3.12 and 4.3.16 of PKWARE APPNOTE: from the end record to the central
 * directory to the local headers.
 */
module Zip {
  import opened Wrappers
  import opened Bytes

  /** A file to store; the name is in UTF-8. */
  datatype File = File(name: bytes, data: bytes)

  // ---------- CRC ----------

  const CRC_POLYNOMIAL := 0xEDB8_8320

  type uint32 = x: int | 0 <= x < 0x1_0000_0000

  lemma Pow32()
    ensures Doubled(32) == 0x1_0000_0000 && Doubled(31) == 0x8000_0000
  {
    assert Doubled(4) == 16;
    assert Doubled(8) == 16 * Doubled(4);
    assert Doubled(12) == 16 * Doubled(8);
    assert Doubled(16) == 16 * Doubled(12);
    assert Doubled(20) == 16 * Doubled(16);
    assert Doubled(24) == 16 * Doubled(20);
    assert Doubled(28) == 16 * Doubled(24);
    assert Doubled(31) == 8 * Doubled(28);
  }

  function Xor32(a: uint32, b: uint32): uint32 {
    Pow32();
    XorBound(a, b, 32);
    XorBits(a, b, 32)
  }

  /** One bit: `(crc >>> 1) ^ (crc & 1 ? polynomial : 0)`. */
  function CrcBit(crc: uint32): uint32 { Xor32(crc / 2, if crc % 2 == 1 then CRC_POLYNOMIAL else 0) }

  function CrcBits(crc: uint32, n: nat): uint32 { if n == 0 then crc else CrcBit(CrcBits(crc, n - 1)) }

  function CrcFrom(crc: uint32, data: bytes): uint32
    decreases data
  {
    if data == [] then crc else CrcFrom(CrcBits(Xor32(crc, data[0]), 8), data[1..])
  }

  function Crc(data: bytes): uint32 { Xor32(CrcFrom(0xFFFF_FFFF, data), 0xFFFF_FFFF) }

  method Crc32(data: bytes) returns (crc: uint32)
    ensures crc == Crc(data)
  {
    hide Xor32, CrcBit;
    crc := 0xFFFF_FFFF;
    assert data[0..] == data;
    for i := 0 to |data|
      invariant CrcFrom(crc, data[i..]) == CrcFrom(0xFFFF_FFFF, data)
    {
      assert data[i..][0] == data[i] && data[i..][1..] == data[i + 1..];
      crc := Xor32(crc, data[i]);
      ghost var mixed := crc;
      for bit := 0 to 8
        invariant crc == CrcBits(mixed, bit)
      {
        crc := CrcBit(crc);
      }
    }
    crc := Xor32(crc, 0xFFFF_FFFF);
  }

  lemma Xor32Twice(a: uint32, b: uint32)
    ensures Xor32(Xor32(a, b), b) == a
  {
    Pow32();
    XorTwice(a, b, 32);
  }

  lemma {:induction false} XorSymmetric(a: nat, b: nat, n: nat)
    ensures XorBits(a, b, n) == XorBits(b, a, n)
  {
    if n > 0 {
      XorSymmetric(a / 2, b / 2, n - 1);
    }
  }

  /** The highest bit of the result is set when exactly one of the operands has it. */
  lemma {:induction false} XorTop(a: nat, b: nat, n: nat)
    requires n >= 1 && a < Doubled(n) && b < Doubled(n)
    ensures XorBits(a, b, n) >= Doubled(n - 1) <==> (a >= Doubled(n - 1)) != (b >= Doubled(n - 1))
  {
    if n == 1 {
      assert XorBits(a / 2, b / 2, 0) == 0;
    } else {
      HalfBelow(a, Doubled(n - 1));
      HalfBelow(b, Doubled(n - 1));
      XorTop(a / 2, b / 2, n - 1);
      TopOfHalf(a, Doubled(n - 2));
      TopOfHalf(b, Doubled(n - 2));
      TopOfHalf(XorBits(a, b, n), Doubled(n - 2));
    }
  }

  lemma TopOfHalf(a: nat, top: nat)
    ensures a / 2 >= top <==> a >= 2 * top
  {
  }

  /** No two states lead to the same one: the last bit reappears as the first. */
  lemma CrcBitInjective(c: uint32, d: uint32)
    requires CrcBit(c) == CrcBit(d)
    ensures c == d
  {
    Pow32();
    var p := if c % 2 == 1 then CRC_POLYNOMIAL else 0;
    var q := if d % 2 == 1 then CRC_POLYNOMIAL else 0;
    XorTop(c / 2, p, 32);
    XorTop(d / 2, q, 32);
    assert p == q;
    Xor32Twice(c / 2, p);
    Xor32Twice(d / 2, p);
    assert c / 2 == d / 2 && c % 2 == d % 2;
  }

  lemma {:induction false} CrcBitsInjective(c: uint32, d: uint32, n: nat)
    requires CrcBits(c, n) == CrcBits(d, n)
    ensures c == d
  {
    hide CrcBit;
    if n > 0 {
      CrcBitInjective(CrcBits(c, n - 1), CrcBits(d, n - 1));
      CrcBitsInjective(c, d, n - 1);
    }
  }

  lemma {:induction false} CrcFromInjective(c: uint32, d: uint32, data: bytes)
    requires CrcFrom(c, data) == CrcFrom(d, data)
    ensures c == d
    decreases data
  {
    hide CrcBits, Xor32;
    if data != [] {
      var c', d' := Xor32(c, data[0]), Xor32(d, data[0]);
      CrcFromInjective(CrcBits(c', 8), CrcBits(d', 8), data[1..]);
      CrcBitsInjective(c', d', 8);
      Xor32Twice(c, data[0]);
      Xor32Twice(d, data[0]);
    }
  }

  lemma {:induction false} CrcFromJoins(crc: uint32, a: bytes, b: bytes)
    ensures CrcFrom(crc, a + b) == CrcFrom(CrcFrom(crc, a), b)
    decreases a
  {
    hide CrcBits, Xor32;
    if a == [] {
      assert a + b == b;
    } else {
      assert (a + b)[1..] == a[1..] + b;
      CrcFromJoins(CrcBits(Xor32(crc, a[0]), 8), a[1..], b);
    }
  }

  /** A changed byte always changes the CRC. */
  lemma OneByteDetected(before: bytes, x: byte, y: byte, behind: bytes)
    requires Crc(before + [x] + behind) == Crc(before + [y] + behind)
    ensures x == y
  {
    hide CrcBits, Xor32;
    var start := CrcFrom(0xFFFF_FFFF, before);
    CrcOfThree(before, x, behind);
    CrcOfThree(before, y, behind);
    var c, d := CrcFrom(0xFFFF_FFFF, before + [x] + behind), CrcFrom(0xFFFF_FFFF, before + [y] + behind);
    Xor32Twice(c, 0xFFFF_FFFF);
    Xor32Twice(d, 0xFFFF_FFFF);
    var c', d' := Xor32(start, x), Xor32(start, y);
    CrcFromInjective(CrcBits(c', 8), CrcBits(d', 8), behind);
    CrcBitsInjective(c', d', 8);
    Xor32Cancels(start, x, y);
  }

  lemma CrcOfThree(before: bytes, x: byte, behind: bytes)
    ensures CrcFrom(0xFFFF_FFFF, before + [x] + behind)
         == CrcFrom(CrcBits(Xor32(CrcFrom(0xFFFF_FFFF, before), x), 8), behind)
  {
    hide CrcBits, Xor32;
    Associative(before, [x], behind);
    CrcFromJoins(0xFFFF_FFFF, before, [x] + behind);
    assert ([x] + behind)[1..] == behind;
  }

  lemma Xor32Cancels(a: uint32, x: uint32, y: uint32)
    requires Xor32(a, x) == Xor32(a, y)
    ensures x == y
  {
    XorSymmetric(a, x, 32);
    XorSymmetric(a, y, 32);
    Xor32Twice(x, a);
    Xor32Twice(y, a);
  }

  // ---------- the shift register ----------

  type Register = r: seq<bool> | |r| == 32 witness seq(32, _ => false)

  /** The generator of IEEE 802.3 and section 4.4.7 of APPNOTE, x^32 left out; place i belongs to x^(31 - i). */
  predicate Tap(i: nat) { 31 - i in {26, 23, 22, 16, 12, 11, 10, 8, 7, 5, 4, 2, 1, 0} }

  /** The bit that leaves at place 0 is fed back at the taps. */
  function Shifted(r: Register): Register { seq(32, i requires 0 <= i < 32 => (i < 31 && r[i + 1]) != (r[0] && Tap(i))) }

  function ShiftedBy(r: Register, n: nat): Register { if n == 0 then r else Shifted(ShiftedBy(r, n - 1)) }

  function Fed(r: Register, x: byte): Register { seq(32, i requires 0 <= i < 32 => r[i] != BitOf(x, i)) }

  /** The register starts full, and every byte is fed in, lowest bit first. */
  function RegisterOf(data: bytes): Register {
    if data == [] then seq(32, _ => true) else ShiftedBy(Fed(RegisterOf(data[..|data| - 1]), data[|data| - 1]), 8)
  }

  predicate Agrees(c: uint32, r: Register) { forall i :: 0 <= i < 32 ==> (BitOf(c, i) <==> r[i]) }

  lemma XorBit32(a: uint32, b: uint32, i: nat)
    requires i < 32
    ensures BitOf(Xor32(a, b), i) <==> BitOf(a, i) != BitOf(b, i)
  {
    Pow32();
    XorBit(a, b, 32, i);
  }

  lemma {:induction false} NoBitAbove(x: nat, n: nat)
    requires x < Doubled(n)
    ensures !BitOf(x, n)
    decreases n
  {
    if n > 0 {
      HalfBelow(x, Doubled(n - 1));
      NoBitAbove(x / 2, n - 1);
    }
  }

  lemma {:induction false} AllOnes(n: nat, i: nat)
    requires i < n
    ensures Doubled(n) >= 1 && BitOf(Doubled(n) - 1, i)
    decreases n
  {
    var half := Doubled(n - 1);
    if i > 0 {
      AllOnes(n - 1, i - 1);
      assert (2 * half - 1) / 2 == half - 1;
    } else {
      DoubledPositive(n - 1);
    }
  }

  lemma FourLower(x: nat, i: nat)
    requires i >= 4
    ensures BitOf(x, i) <==> BitOf(x / 16, i - 4)
  {
    assert BitOf(x, i) <==> BitOf(x / 2 / 2, i - 2);
    assert BitOf(x / 2 / 2, i - 2) <==> BitOf(x / 2 / 2 / 2 / 2, i - 4);
    assert x / 2 / 2 / 2 / 2 == x / 16;
  }

  lemma LowBits(x: nat)
    ensures BitOf(x, 0) <==> x % 2 == 1
    ensures BitOf(x, 1) <==> x / 2 % 2 == 1
    ensures BitOf(x, 2) <==> x / 4 % 2 == 1
    ensures BitOf(x, 3) <==> x / 8 % 2 == 1
  {
    assert x / 2 / 2 == x / 4 && x / 2 / 2 / 2 == x / 8;
  }

  /** The constant of the source holds the generator, digit by digit. */
  lemma PolynomialTaps(i: nat)
    requires i < 32
    ensures BitOf(CRC_POLYNOMIAL, i) <==> Tap(i)
  {
    hide BitOf;
    var x, k: nat := CRC_POLYNOMIAL, i;
    while k >= 4
      invariant 0 <= k <= i && (i - k) % 4 == 0
      invariant x == match (i - k) / 4
        case 0 => 0xEDB8_8320 case 1 => 0xEDB_8832 case 2 => 0xED_B883 case 3 => 0xE_DB88
        case 4 => 0xEDB8 case 5 => 0xEDB case 6 => 0xED case _ => 0xE
      invariant BitOf(CRC_POLYNOMIAL, i) <==> BitOf(x, k)
    {
      FourLower(x, k);
      x, k := x / 16, k - 4;
    }
    LowBits(x);
  }

  lemma BitAgrees(c: uint32, r: Register)
    requires Agrees(c, r)
    ensures Agrees(CrcBit(c), Shifted(r))
  {
    hide Xor32, Tap;
    Pow32();
    var p := if c % 2 == 1 then CRC_POLYNOMIAL else 0;
    forall i | 0 <= i < 32 ensures BitOf(CrcBit(c), i) <==> Shifted(r)[i] {
      XorBit32(c / 2, p, i);
      PolynomialTaps(i);
      NoBitOfZero(i);
      assert BitOf(c / 2, i) <==> BitOf(c, i + 1);
      if i == 31 {
        NoBitAbove(c, 32);
      }
      assert BitOf(c, 0) <==> r[0];
    }
  }

  lemma {:induction false} BitsAgree(c: uint32, r: Register, n: nat)
    requires Agrees(c, r)
    ensures Agrees(CrcBits(c, n), ShiftedBy(r, n))
  {
    hide Agrees, CrcBit, Shifted;
    if n > 0 {
      BitsAgree(c, r, n - 1);
      BitAgrees(CrcBits(c, n - 1), ShiftedBy(r, n - 1));
    }
  }

  lemma FedAgrees(c: uint32, r: Register, x: byte)
    requires Agrees(c, r)
    ensures Agrees(Xor32(c, x), Fed(r, x))
  {
    hide Xor32, BitOf;
    forall i | 0 <= i < 32 ensures BitOf(Xor32(c, x), i) <==> Fed(r, x)[i] {
      XorBit32(c, x, i);
    }
  }

  lemma {:induction false} FromAgrees(data: bytes)
    ensures Agrees(CrcFrom(0xFFFF_FFFF, data), RegisterOf(data))
    decreases |data|
  {
    hide Agrees, Fed, ShiftedBy, Xor32, CrcBits;
    if data == [] {
      FullAgrees();
    } else {
      var front, x := data[..|data| - 1], data[|data| - 1];
      FromAgrees(front);
      assert data == front + [x] && [x][1..] == [];
      CrcFromJoins(0xFFFF_FFFF, front, [x]);
      var c := CrcFrom(0xFFFF_FFFF, front);
      FedAgrees(c, RegisterOf(front), x);
      BitsAgree(Xor32(c, x), Fed(RegisterOf(front), x), 8);
    }
  }

  lemma FullAgrees()
    ensures Agrees(0xFFFF_FFFF, seq(32, _ => true))
  {
    hide BitOf;
    Pow32();
    forall i | 0 <= i < 32 ensures BitOf(0xFFFF_FFFF, i) {
      AllOnes(32, i);
    }
  }

  /** The checksum is the complement of what the register holds in the end. */
  lemma CrcIsRegister(data: bytes, i: nat)
    requires i < 32
    ensures BitOf(Crc(data), i) <==> !RegisterOf(data)[i]
  {
    hide Xor32, BitOf, RegisterOf;
    FromAgrees(data);
    FullAgrees();
    XorBit32(CrcFrom(0xFFFF_FFFF, data), 0xFFFF_FFFF, i);
  }

  // ---------- fields ----------

  lemma Limits()
    ensures Range(2) == 0x1_0000 && Range(4) == 0x1_0000_0000
  {
    assert Range(2) == 256 * Range(1) && Range(1) == 256 * Range(0);
    assert Range(4) == 256 * Range(3);
  }

  /** A field of a record. */
  datatype Field = Field(offset: nat, width: nat, value: nat)

  /** A record of `size` bytes in which just these fields are written. */
  function Layout(size: nat, fields: seq<Field>): (b: bytes)
    ensures |b| == size
  {
    if fields == [] then seq(size, _ => 0) else Put(Layout(size, fields[..|fields| - 1]), fields[|fields| - 1])
  }

  function Put(b: bytes, f: Field): (r: bytes)
    ensures |r| == |b|
  {
    if f.offset + f.width <= |b| then b[..f.offset] + LittleEndian(f.value, f.width) + b[f.offset + f.width..] else b
  }

  function Get(b: bytes, offset: nat, width: nat): nat
    requires offset + width <= |b|
  {
    FromLittleEndian(b[offset..offset + width])
  }

  /** The fields lie one behind the other and hold what fits. */
  predicate Tidy(size: nat, fields: seq<Field>) {
    && (forall i :: 0 <= i < |fields| ==> fields[i].offset + fields[i].width <= size && fields[i].value < Range(fields[i].width))
    && (forall i, j :: 0 <= i < j < |fields| ==> fields[i].offset + fields[i].width <= fields[j].offset)
  }

  lemma LayoutReads(size: nat, fields: seq<Field>, i: nat)
    requires Tidy(size, fields) && i < |fields|
    ensures Get(Layout(size, fields), fields[i].offset, fields[i].width) == fields[i].value
  {
    hide Layout, LittleEndian, FromLittleEndian, Range;
    LayoutHolds(size, fields, i);
    LittleEndianInverts(fields[i].value, fields[i].width);
  }

  lemma {:induction false} LayoutHolds(size: nat, fields: seq<Field>, i: nat)
    requires Tidy(size, fields) && i < |fields|
    ensures Layout(size, fields)[fields[i].offset..fields[i].offset + fields[i].width] == LittleEndian(fields[i].value, fields[i].width)
  {
    hide LittleEndian, FromLittleEndian, Range;
    var n := |fields| - 1;
    var before, last := Layout(size, fields[..n]), fields[n];
    var b := Layout(size, fields);
    SliceOfMiddle(before[..last.offset], LittleEndian(last.value, last.width), before[last.offset + last.width..]);
    if i < n {
      LayoutHolds(size, fields[..n], i);
      var f := fields[i];
      SliceOfFront(before[..last.offset], LittleEndian(last.value, last.width) + before[last.offset + last.width..], f.offset, f.offset + f.width);
      Associative(before[..last.offset], LittleEndian(last.value, last.width), before[last.offset + last.width..]);
      assert before[..last.offset][f.offset..f.offset + f.width] == before[f.offset..f.offset + f.width];
    }
  }

  // ---------- records ----------

  const LOCAL_SIGNATURE := 0x0403_4B50
  const CENTRAL_SIGNATURE := 0x0201_4B50
  const END_SIGNATURE := 0x0605_4B50

  /** Names are in UTF-8. */
  const UTF8_FLAG := 0x0800

  function LocalFields(f: File): seq<Field> {
    var size := |f.data|;
    [ Field(0, 4, LOCAL_SIGNATURE), Field(4, 2, 20), Field(6, 2, UTF8_FLAG), Field(14, 4, Crc(f.data)),
      Field(18, 4, size), Field(22, 4, size), Field(26, 2, |f.name|)]
  }

  function CentralFields(f: File, offset: nat): seq<Field> {
    var size := |f.data|;
    [ Field(0, 4, CENTRAL_SIGNATURE), Field(4, 2, 20), Field(6, 2, 20), Field(8, 2, UTF8_FLAG), Field(16, 4, Crc(f.data)),
      Field(20, 4, size), Field(24, 4, size), Field(28, 2, |f.name|), Field(42, 4, offset)]
  }

  function EndFields(count: nat, centralSize: nat, offset: nat): seq<Field> {
    [Field(0, 4, END_SIGNATURE), Field(8, 2, count), Field(10, 2, count), Field(12, 4, centralSize), Field(16, 4, offset)]
  }

  function LocalRecord(f: File): (r: bytes)
    ensures |r| == 30 + |f.name| + |f.data|
  {
    Layout(30, LocalFields(f)) + f.name + f.data
  }

  function CentralRecord(f: File, offset: nat): (r: bytes)
    ensures |r| == 46 + |f.name|
  {
    Layout(46, CentralFields(f, offset)) + f.name
  }

  function Locals(files: seq<File>): bytes { if files == [] then [] else LocalRecord(files[0]) + Locals(files[1..]) }

  function Centrals(files: seq<File>, offset: nat): bytes {
    if files == [] then [] else CentralRecord(files[0], offset) + Centrals(files[1..], offset + |LocalRecord(files[0])|)
  }

  function Archive(files: seq<File>): bytes {
    Locals(files) + Centrals(files, 0) + Layout(22, EndFields(|files|, |Centrals(files, 0)|, |Locals(files)|))
  }

  /** Everything fits the fields of 16 and 32 bits. */
  predicate WithinLimits(files: seq<File>) {
    && |files| < 0x1_0000 && |Locals(files)| < 0x1_0000_0000 && |Centrals(files, 0)| < 0x1_0000_0000
    && forall i :: 0 <= i < |files| ==> |files[i].name| < 0x1_0000
  }

  // ---------- the reader ----------

  /** The file whose local header is at `pos`, if it is what the directory says. */
  function ReadLocal(b: bytes, pos: nat, name: bytes, crc: nat, size: nat): Result<File> {
    if pos + 30 > |b| || Get(b, pos, 4) != LOCAL_SIGNATURE then Failure
    else
      var start := pos + 30 + Get(b, pos + 26, 2) + Get(b, pos + 28, 2);
      if start + size > |b| || pos + 30 + |name| > |b| then Failure
      else if Get(b, pos + 26, 2) != |name| || b[pos + 30..pos + 30 + |name|] != name then Failure
      else if Get(b, pos + 14, 4) != crc || Get(b, pos + 18, 4) != size || Crc(b[start..start + size]) != crc then Failure
      else Success(File(name, b[start..start + size]))
  }

  /** `count` entries of the central directory from `pos` on. */
  function ReadEntries(b: bytes, pos: nat, count: nat): Result<seq<File>>
    decreases count
  {
    if count == 0 then Success([])
    else if pos + 46 > |b| || Get(b, pos, 4) != CENTRAL_SIGNATURE then Failure
    else
      var nameLength := Get(b, pos + 28, 2);
      var next := pos + 46 + nameLength + Get(b, pos + 30, 2) + Get(b, pos + 32, 2);
      if pos + 46 + nameLength > |b| then Failure
      else
        var file :- ReadLocal(b, Get(b, pos + 42, 4), b[pos + 46..pos + 46 + nameLength], Get(b, pos + 16, 4), Get(b, pos + 24, 4));
        var rest :- ReadEntries(b, next, count - 1);
        Success([file] + rest)
  }

  /** An archive without a comment ends with its end record. */
  function ReadArchive(b: bytes): Result<seq<File>> {
    if |b| < 22 || Get(b, |b| - 22, 4) != END_SIGNATURE || Get(b, |b| - 2, 2) != 0 then Failure
    else if Get(b, |b| - 6, 4) + Get(b, |b| - 10, 4) != |b| - 22 then Failure
    else ReadEntries(b, Get(b, |b| - 6, 4), Get(b, |b| - 12, 2))
  }

  // ---------- reading what was written ----------

  predicate Untouched(fields: seq<Field>, offset: nat, width: nat) {
    forall i :: 0 <= i < |fields| ==> fields[i].offset + fields[i].width <= offset || offset + width <= fields[i].offset
  }

  lemma UntouchedReads(size: nat, fields: seq<Field>, offset: nat, width: nat)
    requires Tidy(size, fields) && Untouched(fields, offset, width) && offset + width <= size
    ensures Get(Layout(size, fields), offset, width) == 0
  {
    hide Layout, LittleEndian, FromLittleEndian, Range;
    UntouchedHolds(size, fields, offset, width);
    Zeros(width);
  }

  lemma {:induction false} UntouchedHolds(size: nat, fields: seq<Field>, offset: nat, width: nat)
    requires Tidy(size, fields) && Untouched(fields, offset, width) && offset + width <= size
    ensures Layout(size, fields)[offset..offset + width] == seq(width, _ => 0)
  {
    hide LittleEndian, FromLittleEndian, Range;
    if fields != [] {
      var n := |fields| - 1;
      UntouchedHolds(size, fields[..n], offset, width);
      PutElsewhere(Layout(size, fields[..n]), fields[n], offset, width);
    }
  }

  lemma PutElsewhere(b: bytes, f: Field, offset: nat, width: nat)
    requires offset + width <= |b| && f.offset + f.width <= |b|
    requires f.offset + f.width <= offset || offset + width <= f.offset
    ensures Put(b, f)[offset..offset + width] == b[offset..offset + width]
  {
  }

  lemma {:induction false} Zeros(width: nat)
    ensures FromLittleEndian(seq(width, _ => 0)) == 0
  {
    if width > 0 {
      Zeros(width - 1);
      assert seq(width, _ => 0)[1..] == seq(width - 1, _ => 0);
    }
  }

  /** A field of a record somewhere in an archive. */
  lemma GetInside(b: bytes, before: bytes, record: bytes, behind: bytes, offset: nat, width: nat)
    requires b == before + record + behind && offset + width <= |record|
    ensures Get(b, |before| + offset, width) == Get(record, offset, width)
  {
    assert b[|before| + offset..|before| + offset + width] == record[offset..offset + width];
  }

  lemma LocalTidy(f: File)
    requires |f.name| < 0x1_0000 && |f.data| < 0x1_0000_0000
    ensures Tidy(30, LocalFields(f)) && Untouched(LocalFields(f), 28, 2)
  {
    hide Range;
    Limits();
  }

  lemma CentralTidy(f: File, offset: nat)
    requires |f.name| < 0x1_0000 && |f.data| < 0x1_0000_0000 && offset < 0x1_0000_0000
    ensures Tidy(46, CentralFields(f, offset)) && Untouched(CentralFields(f, offset), 30, 2) && Untouched(CentralFields(f, offset), 32, 2)
  {
    hide Range;
    Limits();
  }

  /** Section 4.3.7 of APPNOTE: signature, version 2.0, UTF-8 names, stored, no date, CRC, both sizes, length of the name, no extra field. */
  lemma LocalHeaderIs(f: File)
    requires |f.name| < 0x1_0000 && |f.data| < 0x1_0000_0000
    ensures Layout(30, LocalFields(f)) ==
      [0x50, 0x4B, 3, 4] + [20, 0] + [0, 8] + seq(6, _ => 0) + LittleEndian(Crc(f.data), 4)
      + LittleEndian(|f.data|, 4) + LittleEndian(|f.data|, 4) + LittleEndian(|f.name|, 2) + seq(2, _ => 0)
  {
    hide Layout, LittleEndian, Tidy, Untouched, Crc;
    LocalTidy(f);
    var fields := LocalFields(f);
    var b := Layout(30, fields);
    LayoutHolds(30, fields, 0);
    LayoutHolds(30, fields, 1);
    LayoutHolds(30, fields, 2);
    LayoutHolds(30, fields, 3);
    LayoutHolds(30, fields, 4);
    LayoutHolds(30, fields, 5);
    LayoutHolds(30, fields, 6);
    UntouchedHolds(30, fields, 8, 6) by { LocalGaps(f); }
    UntouchedHolds(30, fields, 28, 2);
    Constants();
    assert b == b[0..4] + b[4..6] + b[6..8] + b[8..14] + b[14..18] + b[18..22] + b[22..26] + b[26..28] + b[28..30];
  }

  lemma LocalGaps(f: File)
    ensures Untouched(LocalFields(f), 8, 6)
  {
  }

  /** Section 4.3.12: as the local header, with the place of that header, and without comment, disk and attributes. */
  lemma CentralHeaderIs(f: File, offset: nat)
    requires |f.name| < 0x1_0000 && |f.data| < 0x1_0000_0000 && offset < 0x1_0000_0000
    ensures Layout(46, CentralFields(f, offset)) ==
      [0x50, 0x4B, 1, 2] + [20, 0] + [20, 0] + [0, 8] + seq(6, _ => 0) + LittleEndian(Crc(f.data), 4)
      + LittleEndian(|f.data|, 4) + LittleEndian(|f.data|, 4) + LittleEndian(|f.name|, 2) + seq(12, _ => 0) + LittleEndian(offset, 4)
  {
    hide Layout, LittleEndian, Tidy, Untouched, Crc;
    CentralTidy(f, offset);
    var fields := CentralFields(f, offset);
    var b := Layout(46, fields);
    LayoutHolds(46, fields, 0);
    LayoutHolds(46, fields, 1);
    LayoutHolds(46, fields, 2);
    LayoutHolds(46, fields, 3);
    LayoutHolds(46, fields, 4);
    LayoutHolds(46, fields, 5);
    LayoutHolds(46, fields, 6);
    LayoutHolds(46, fields, 7);
    LayoutHolds(46, fields, 8);
    CentralGaps(f, offset);
    UntouchedHolds(46, fields, 10, 6);
    UntouchedHolds(46, fields, 30, 12);
    Constants();
    assert b == b[0..4] + b[4..6] + b[6..8] + b[8..10] + b[10..16] + b[16..20] + b[20..24] + b[24..28] + b[28..30] + b[30..42] + b[42..46];
  }

  lemma CentralGaps(f: File, offset: nat)
    ensures Untouched(CentralFields(f, offset), 10, 6) && Untouched(CentralFields(f, offset), 30, 12)
  {
  }

  lemma EndTidy(count: nat, centralSize: nat, offset: nat)
    requires count < 0x1_0000 && centralSize < 0x1_0000_0000 && offset < 0x1_0000_0000
    ensures var fields := EndFields(count, centralSize, offset);
      Tidy(22, fields) && Untouched(fields, 4, 4) && Untouched(fields, 20, 2)
  {
    hide Range;
    Limits();
  }

  /** Section 4.3.16: one disk, the number of entries twice, size and place of the directory, no comment. */
  lemma EndRecordIs(count: nat, centralSize: nat, offset: nat)
    requires count < 0x1_0000 && centralSize < 0x1_0000_0000 && offset < 0x1_0000_0000
    ensures Layout(22, EndFields(count, centralSize, offset)) ==
      [0x50, 0x4B, 5, 6] + seq(4, _ => 0) + LittleEndian(count, 2) + LittleEndian(count, 2)
      + LittleEndian(centralSize, 4) + LittleEndian(offset, 4) + seq(2, _ => 0)
  {
    hide Layout, LittleEndian, Tidy, Untouched;
    EndTidy(count, centralSize, offset);
    var fields := EndFields(count, centralSize, offset);
    var b := Layout(22, fields);
    LayoutHolds(22, fields, 0);
    LayoutHolds(22, fields, 1);
    LayoutHolds(22, fields, 2);
    LayoutHolds(22, fields, 3);
    LayoutHolds(22, fields, 4);
    UntouchedHolds(22, fields, 4, 4);
    UntouchedHolds(22, fields, 20, 2);
    Constants();
    assert b == b[0..4] + b[4..8] + b[8..10] + b[10..12] + b[12..16] + b[16..20] + b[20..22];
  }

  lemma Constants()
    ensures LittleEndian(LOCAL_SIGNATURE, 4) == [0x50, 0x4B, 3, 4] && LittleEndian(CENTRAL_SIGNATURE, 4) == [0x50, 0x4B, 1, 2]
    ensures LittleEndian(END_SIGNATURE, 4) == [0x50, 0x4B, 5, 6] && LittleEndian(20, 2) == [20, 0] && LittleEndian(UTF8_FLAG, 2) == [0, 8]
  {
  }

  lemma LocalHeaderReads(b: bytes, before: bytes, f: File, behind: bytes)
    requires |f.name| < 0x1_0000 && |f.data| < 0x1_0000_0000
    requires b == before + Layout(30, LocalFields(f)) + behind
    ensures var pos := |before|;
      && Get(b, pos, 4) == LOCAL_SIGNATURE && Get(b, pos + 14, 4) == Crc(f.data) && Get(b, pos + 18, 4) == |f.data|
      && Get(b, pos + 26, 2) == |f.name| && Get(b, pos + 28, 2) == 0
  {
    hide Layout, Get, Tidy, Untouched, Crc;
    LocalTidy(f);
    var fields := LocalFields(f);
    var record := Layout(30, fields);
    LayoutReads(30, fields, 0);
    LayoutReads(30, fields, 3);
    LayoutReads(30, fields, 4);
    LayoutReads(30, fields, 6);
    UntouchedReads(30, fields, 28, 2);
    GetInside(b, before, record, behind, 0, 4);
    GetInside(b, before, record, behind, 14, 4);
    GetInside(b, before, record, behind, 18, 4);
    GetInside(b, before, record, behind, 26, 2);
    GetInside(b, before, record, behind, 28, 2);
  }

  lemma CentralHeaderReads(b: bytes, before: bytes, f: File, offset: nat, behind: bytes)
    requires |f.name| < 0x1_0000 && |f.data| < 0x1_0000_0000 && offset < 0x1_0000_0000
    requires b == before + Layout(46, CentralFields(f, offset)) + behind
    ensures var pos := |before|;
      && Get(b, pos, 4) == CENTRAL_SIGNATURE && Get(b, pos + 16, 4) == Crc(f.data) && Get(b, pos + 24, 4) == |f.data|
      && Get(b, pos + 28, 2) == |f.name| && Get(b, pos + 30, 2) == 0 && Get(b, pos + 32, 2) == 0 && Get(b, pos + 42, 4) == offset
  {
    hide Layout, Get, Tidy, Untouched, Crc;
    CentralTidy(f, offset);
    var fields := CentralFields(f, offset);
    var record := Layout(46, fields);
    LayoutReads(46, fields, 0);
    LayoutReads(46, fields, 4);
    LayoutReads(46, fields, 6);
    LayoutReads(46, fields, 7);
    LayoutReads(46, fields, 8);
    UntouchedReads(46, fields, 30, 2);
    UntouchedReads(46, fields, 32, 2);
    GetInside(b, before, record, behind, 0, 4);
    GetInside(b, before, record, behind, 16, 4);
    GetInside(b, before, record, behind, 24, 4);
    GetInside(b, before, record, behind, 28, 2);
    GetInside(b, before, record, behind, 30, 2);
    GetInside(b, before, record, behind, 32, 2);
    GetInside(b, before, record, behind, 42, 4);
  }

  lemma ReadsLocal(b: bytes, before: bytes, f: File, behind: bytes)
    requires |f.name| < 0x1_0000 && |f.data| < 0x1_0000_0000
    requires b == before + LocalRecord(f) + behind
    ensures ReadLocal(b, |before|, f.name, Crc(f.data), |f.data|) == Success(f)
  {
    hide Layout, Get, Crc;
    var header := Layout(30, LocalFields(f));
    var head := before + header;
    Associative(before, header + f.name, f.data);
    Associative(before, header, f.name);
    assert b == head + f.name + f.data + behind;
    Associative(head + f.name, f.data, behind);
    Associative(head, f.name, f.data + behind);
    LocalHeaderReads(b, before, f, f.name + (f.data + behind));
    SliceOfMiddle(head, f.name, f.data + behind);
    SliceOfMiddle(head + f.name, f.data, behind);
  }

  /** The entries of the directory lead to the files, one by one. */
  lemma {:induction false} ReadsEntries(b: bytes, files: seq<File>, before: bytes, between: bytes, front: bytes, behind: bytes)
    requires b == before + Locals(files) + between && b == front + Centrals(files, |before|) + behind
    requires |before| + |Locals(files)| < 0x1_0000_0000 && forall i :: 0 <= i < |files| ==> |files[i].name| < 0x1_0000
    ensures ReadEntries(b, |front|, |files|) == Success(files)
    decreases files
  {
    hide Layout, Get, Crc, LocalFields, CentralFields, ReadLocal;
    if files != [] {
      var f, rest := files[0], files[1..];
      var local, central := LocalRecord(f), Layout(46, CentralFields(f, |before|));
      var next := |before| + |local|;
      Associative(before, local, Locals(rest));
      assert b == before + local + (Locals(rest) + between);
      assert b == (before + local) + Locals(rest) + between;
      ReadsLocal(b, before, f, Locals(rest) + between);
      var tail := Centrals(rest, next) + behind;
      SplitEntry(b, front, central, f.name, Centrals(rest, next), behind);
      CentralHeaderReads(b, front, f, |before|, f.name + tail);
      SliceOfMiddle(front + central, f.name, tail);
      ReadsEntries(b, rest, before + local, between, front + central + f.name, behind);
      assert |front + central + f.name| == |front| + 46 + |f.name|;
      assert b[|front| + 46..|front| + 46 + |f.name|] == f.name;
      assert [f] + rest == files;
    }
  }

  lemma SplitEntry(b: bytes, front: bytes, header: bytes, name: bytes, more: bytes, behind: bytes)
    requires b == front + (header + name + more) + behind
    ensures b == front + header + (name + (more + behind))
    ensures b == front + header + name + (more + behind)
    ensures b == front + header + name + more + behind
  {
  }

  /**
   * The reader recovers exactly the files, by name, contents and order, from every archive
   * within the limits; each has passed its CRC.
   */
  lemma ArchiveReads(files: seq<File>)
    requires WithinLimits(files)
    ensures ReadArchive(Archive(files)) == Success(files)
  {
    hide Layout, Get, Crc, ReadEntries;
    var locals, centrals := Locals(files), Centrals(files, 0);
    var fields := EndFields(|files|, |centrals|, |locals|);
    var end := Layout(22, fields);
    var b := Archive(files);
    EndReads(b, locals + centrals, |files|, |centrals|, |locals|);
    assert b == [] + locals + (centrals + end);
    assert b == locals + centrals + end;
    ReadsEntries(b, files, [], centrals + end, locals, end);
  }

  lemma EndReads(b: bytes, before: bytes, count: nat, centralSize: nat, offset: nat)
    requires count < 0x1_0000 && centralSize < 0x1_0000_0000 && offset < 0x1_0000_0000
    requires b == before + Layout(22, EndFields(count, centralSize, offset))
    ensures var pos := |before|;
      && Get(b, pos, 4) == END_SIGNATURE && Get(b, pos + 10, 2) == count && Get(b, pos + 12, 4) == centralSize
      && Get(b, pos + 16, 4) == offset && Get(b, pos + 20, 2) == 0
  {
    hide Layout, Get, Tidy, Untouched;
    EndTidy(count, centralSize, offset);
    var fields := EndFields(count, centralSize, offset);
    var record := Layout(22, fields);
    assert b == before + record + [];
    LayoutReads(22, fields, 0);
    LayoutReads(22, fields, 2);
    LayoutReads(22, fields, 3);
    LayoutReads(22, fields, 4);
    UntouchedReads(22, fields, 20, 2);
    GetInside(b, before, record, [], 0, 4);
    GetInside(b, before, record, [], 10, 2);
    GetInside(b, before, record, [], 12, 4);
    GetInside(b, before, record, [], 16, 4);
    GetInside(b, before, record, [], 20, 2);
  }

  // ---------- the writer ----------

  /** `writeUInt16LE` and `writeUInt32LE`: refused when the value does not fit. */
  method WriteField(record: array<byte>, f: Field) returns (ok: bool)
    requires f.offset + f.width <= record.Length
    modifies record
    ensures ok <==> f.value < Range(f.width)
    ensures record[..] == if ok then Put(old(record[..]), f) else old(record[..])
  {
    if f.value >= Range(f.width) { return false; }
    var rest := f.value;
    ghost var was, digits := record[..], LittleEndian(f.value, f.width);
    for i := 0 to f.width
      invariant rest >= 0 && digits[i..] == LittleEndian(rest, f.width - i)
      invariant forall k :: 0 <= k < i ==> record[f.offset + k] == digits[k]
      invariant forall k :: 0 <= k < record.Length && !(f.offset <= k < f.offset + i) ==> record[k] == was[k]
    {
      assert digits[i] == digits[i..][0] && digits[i..][1..] == digits[i + 1..];
      record[f.offset + i] := rest % 256;
      rest := rest / 256;
    }
    PutAt(was, f);
    assert forall k :: 0 <= k < record.Length ==> record[..][k] == Put(was, f)[k];
    return true;
  }

  lemma PutAt(b: bytes, f: Field)
    requires f.offset + f.width <= |b|
    ensures forall k :: 0 <= k < |b| ==>
      Put(b, f)[k] == if f.offset <= k < f.offset + f.width then LittleEndian(f.value, f.width)[k - f.offset] else b[k]
  {
    hide LittleEndian;
  }

  predicate InRecord(size: nat, fields: seq<Field>) {
    forall i :: 0 <= i < |fields| ==> fields[i].offset + fields[i].width <= size
  }

  method WriteRecord(size: nat, fields: seq<Field>) returns (r: Result<bytes>)
    requires InRecord(size, fields)
    ensures r == if AllFit(fields) then Success(Layout(size, fields)) else Failure
  {
    hide Put, Range;
    var record := new byte[size](_ => 0);
    assert record[..] == Layout(size, fields[..0]);
    for i := 0 to |fields|
      invariant record[..] == Layout(size, fields[..i])
      invariant forall j :: 0 <= j < i ==> fields[j].value < Range(fields[j].width)
    {
      var ok := WriteField(record, fields[i]);
      if !ok { return Failure; }
      assert fields[..i + 1][..i] == fields[..i];
    }
    assert fields[..|fields|] == fields;
    return Success(record[..]);
  }

  predicate AllFit(fields: seq<Field>) { forall i :: 0 <= i < |fields| ==> fields[i].value < Range(fields[i].width) }

  lemma FitsLocal(f: File)
    ensures InRecord(30, LocalFields(f))
    ensures AllFit(LocalFields(f)) <==> |f.name| < 0x1_0000 && |f.data| < 0x1_0000_0000
  {
    hide Range, Crc;
    Limits();
    var fs := LocalFields(f);
    assert AllFit(fs) <==> fs[0].value < Range(4) && fs[1].value < Range(2) && fs[2].value < Range(2) && fs[3].value < Range(4)
                           && fs[4].value < Range(4) && fs[5].value < Range(4) && fs[6].value < Range(2);
  }

  lemma FitsCentral(f: File, offset: nat)
    ensures InRecord(46, CentralFields(f, offset))
    ensures AllFit(CentralFields(f, offset)) <==> |f.name| < 0x1_0000 && |f.data| < 0x1_0000_0000 && offset < 0x1_0000_0000
  {
    hide Range, Crc;
    Limits();
    var fs := CentralFields(f, offset);
    assert AllFit(fs) <==> fs[0].value < Range(4) && fs[1].value < Range(2) && fs[2].value < Range(2) && fs[3].value < Range(2)
                           && fs[4].value < Range(4) && fs[5].value < Range(4) && fs[6].value < Range(4)
                           && fs[7].value < Range(2) && fs[8].value < Range(4);
  }

  lemma FitsEnd(count: nat, centralSize: nat, offset: nat)
    ensures InRecord(22, EndFields(count, centralSize, offset))
    ensures AllFit(EndFields(count, centralSize, offset)) <==>
      count < 0x1_0000 && centralSize < 0x1_0000_0000 && offset < 0x1_0000_0000
  {
    hide Range;
    Limits();
    var fs := EndFields(count, centralSize, offset);
    assert AllFit(fs) <==> fs[0].value < Range(4) && fs[1].value < Range(2) && fs[2].value < Range(2)
                           && fs[3].value < Range(4) && fs[4].value < Range(4);
  }

  lemma NextFile(files: seq<File>, i: nat, offset: nat)
    requires i < |files|
    ensures Locals(files[i..]) == LocalRecord(files[i]) + Locals(files[i + 1..])
    ensures Centrals(files[i..], offset) == CentralRecord(files[i], offset) + Centrals(files[i + 1..], offset + |LocalRecord(files[i])|)
  {
    hide LocalRecord, CentralRecord;
    assert files[i..][0] == files[i] && files[i..][1..] == files[i + 1..];
  }

  lemma NoFiles(offset: nat)
    ensures Locals([]) == [] && Centrals([], offset) == []
  {
  }

  method ZipFiles(files: seq<File>) returns (r: Result<bytes>)
    ensures r == if WithinLimits(files) then Success(Archive(files)) else Failure
  {
    hide Layout, AllFit, InRecord, Crc, Locals, Centrals, LocalFields, CentralFields, EndFields;
    var local: bytes, central: bytes := [], [];
    var offset := 0;
    Limits();
    assert files[0..] == files;
    for i := 0 to |files|
      invariant offset == |local|
      invariant local + Locals(files[i..]) == Locals(files)
      invariant central + Centrals(files[i..], offset) == Centrals(files, 0)
      invariant forall j :: 0 <= j < i ==> |files[j].name| < 0x1_0000
    {
      var file := files[i];
      NextFile(files, i, offset);
      Associative(local, LocalRecord(file), Locals(files[i + 1..]));
      Associative(central, CentralRecord(file, offset), Centrals(files[i + 1..], offset + |LocalRecord(file)|));
      var crc := Crc32(file.data);
      FitsLocal(file);
      var header := WriteRecord(30, LocalFields(file));
      if header.Failure? { return Failure; }
      FitsCentral(file, offset);
      var entry := WriteRecord(46, CentralFields(file, offset));
      if entry.Failure? { return Failure; }
      local := local + (header.value + file.name + file.data);
      central := central + (entry.value + file.name);
      offset := offset + |header.value| + |file.name| + |file.data|;
    }
    NoFiles(offset);
    assert files[|files|..] == [];
    assert local + [] == local && central + [] == central;
    FitsEnd(|files|, |central|, offset);
    var end := WriteRecord(22, EndFields(|files|, |central|, offset));
    if end.Failure? { return Failure; }
    return Success(local + central + end.value);
  }
}
