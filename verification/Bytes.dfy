/** Bytes, UTF-16 code units and the integer range of the host language. */
module Bytes {
  type byte = x: int | 0 <= x < 256
  type bytes = seq<byte>

  /** One 16-bit unit of a host string; a string is a sequence of them, surrogates unpaired or not. */
  type unit = x: int | 0 <= x < 0x10000

  /** Number.MAX_SAFE_INTEGER */
  const MAX_SAFE: int := 0x1F_FFFF_FFFF_FFFF

  type SafeInt = x: int | -MAX_SAFE <= x <= MAX_SAFE

  /** A reader's answer: the value read and the bytes it leaves. */
  type Parsed<+T> = (T, bytes)

  /** Bit `k` of a number: `x & (1 << k)` is not zero. */
  predicate BitOf(x: nat, k: nat)
    decreases k
  {
    if k == 0 then x % 2 == 1 else BitOf(x / 2, k - 1)
  }

  lemma {:induction false} NoBitOfZero(k: nat)
    ensures !BitOf(0, k)
    decreases k
  {
    if k > 0 {
      NoBitOfZero(k - 1);
    }
  }

  /** `x | (1 << k)` */
  function WithBit(x: nat, k: nat): nat
    decreases k
  {
    if k == 0 then (if x % 2 == 1 then x else x + 1) else 2 * WithBit(x / 2, k - 1) + x % 2
  }

  lemma {:induction false} WithBitSets(x: nat, k: nat, j: nat)
    ensures BitOf(WithBit(x, k), j) <==> j == k || BitOf(x, j)
    decreases k
  {
    if k > 0 && j > 0 {
      WithBitSets(x / 2, k - 1, j - 1);
    }
  }

  /** Setting one of the eight bits of a byte gives a byte. */
  function SetBit(x: byte, k: nat): (y: byte)
    requires k < 8
    ensures forall j :: 0 <= j ==> (BitOf(y, j) <==> j == k || BitOf(x, j))
  {
    forall j | 0 <= j ensures BitOf(WithBit(x, k), j) <==> j == k || BitOf(x, j) { WithBitSets(x, k, j); }
    WithBitBound(x, k);
    WithBit(x, k)
  }

  lemma WithBitBound(x: byte, k: nat)
    requires k < 8
    ensures WithBit(x, k) < 256
  {
    assert Doubled(8) == 256;
    WithBitBelow(x, k, 8);
  }

  lemma {:induction false} WithBitBelow(x: nat, k: nat, n: nat)
    requires x < Doubled(n) && k < n
    ensures WithBit(x, k) < Doubled(n)
    decreases n
  {
    if k > 0 {
      var half := Doubled(n - 1);
      assert Doubled(n) == 2 * half;
      HalfBelow(x, half);
      WithBitBelow(x / 2, k - 1, n - 1);
      TwiceBelow(WithBit(x / 2, k - 1), x % 2, half);
    } else {
      EvenBelow(x, Doubled(n - 1));
    }
  }

  lemma HalfBelow(x: nat, half: nat)
    requires x < 2 * half
    ensures x / 2 < half
  {
  }

  lemma TwiceBelow(y: nat, low: nat, half: nat)
    requires y < half && low < 2
    ensures 2 * y + low < 2 * half
  {
  }

  lemma EvenBelow(x: nat, half: nat)
    requires x < 2 * half
    ensures x % 2 == 0 ==> x + 1 < 2 * half
  {
  }

  /** Two to the power `n`. */
  function Doubled(n: nat): nat { if n == 0 then 1 else 2 * Doubled(n - 1) }

  lemma {:induction false} DoubledPositive(n: nat)
    ensures Doubled(n) >= 1
  {
    if n > 0 {
      DoubledPositive(n - 1);
    }
  }

  /** How many numbers fit into `width` bytes. */
  function Range(width: nat): (n: nat)
    ensures n >= 1
  {
    if width == 0 then 1 else 256 * Range(width - 1)
  }

  function LittleEndian(n: nat, width: nat): (b: bytes)
    ensures |b| == width
  {
    if width == 0 then [] else [n % 256] + LittleEndian(n / 256, width - 1)
  }

  function FromLittleEndian(b: bytes): (n: nat)
    ensures n < Range(|b|)
  {
    if b == [] then 0 else b[0] + 256 * FromLittleEndian(b[1..])
  }

  lemma {:induction false} LittleEndianInverts(n: nat, width: nat)
    requires n < Range(width)
    ensures FromLittleEndian(LittleEndian(n, width)) == n
  {
    if width > 0 {
      DigitBelow(n, Range(width - 1));
      LittleEndianInverts(n / 256, width - 1);
      assert LittleEndian(n, width)[1..] == LittleEndian(n / 256, width - 1);
    }
  }

  lemma DigitBelow(n: nat, r: nat)
    requires n < 256 * r
    ensures n / 256 < r
  {
  }

  function Concat(parts: seq<bytes>): bytes {
    if parts == [] then [] else parts[0] + Concat(parts[1..])
  }

  lemma {:induction false} ConcatAppend(a: seq<bytes>, b: seq<bytes>)
    ensures Concat(a + b) == Concat(a) + Concat(b)
  {
    if a == [] {
      assert a + b == b;
    } else {
      assert (a + b)[1..] == a[1..] + b;
      ConcatAppend(a[1..], b);
    }
  }

  /** `a ^ b` on the lowest `n` bits. */
  function XorBits(a: nat, b: nat, n: nat): nat {
    if n == 0 then 0 else 2 * XorBits(a / 2, b / 2, n - 1) + (a + b) % 2
  }

  lemma {:induction false} XorBound(a: nat, b: nat, n: nat)
    ensures XorBits(a, b, n) < Doubled(n)
  {
    if n > 0 {
      XorBound(a / 2, b / 2, n - 1);
    }
  }

  lemma {:induction false} XorBit(a: nat, b: nat, n: nat, j: nat)
    requires j < n
    ensures BitOf(XorBits(a, b, n), j) <==> BitOf(a, j) != BitOf(b, j)
    decreases n
  {
    Halves(XorBits(a / 2, b / 2, n - 1), a, b);
    if j > 0 {
      XorBit(a / 2, b / 2, n - 1, j - 1);
    }
  }

  lemma Halves(x: nat, a: nat, b: nat)
    ensures (2 * x + (a + b) % 2) / 2 == x
    ensures (2 * x + (a + b) % 2) % 2 == 1 <==> (a % 2 == 1) != (b % 2 == 1)
  {
  }

  lemma {:induction false} XorTwice(a: nat, b: nat, n: nat)
    requires a < Doubled(n)
    ensures XorBits(XorBits(a, b, n), b, n) == a
  {
    if n > 0 {
      var low := (a + b) % 2;
      HalfBelow(a, Doubled(n - 1));
      XorTwice(a / 2, b / 2, n - 1);
      assert (2 * XorBits(a / 2, b / 2, n - 1) + low) / 2 == XorBits(a / 2, b / 2, n - 1);
      Parity(XorBits(a / 2, b / 2, n - 1), a, b);
    }
  }

  lemma Parity(x: nat, a: nat, b: nat)
    ensures (2 * x + (a + b) % 2 + b) % 2 == a % 2
    ensures 2 * (a / 2) + a % 2 == a
  {
  }

  function Xor(a: byte, b: byte): byte {
    XorBound(a, b, 8);
    assert Doubled(8) == 256;
    XorBits(a, b, 8)
  }

  lemma XorUndone(a: byte, b: byte)
    ensures Xor(Xor(a, b), b) == a
  {
    assert Doubled(8) == 256;
    XorTwice(a, b, 8);
  }
}
