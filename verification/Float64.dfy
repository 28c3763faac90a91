/**
 * Host numbers as IEEE 754 doubles. A number is either a safe integer or one of the
 * remaining doubles, kept as its eight little-endian bytes. The images of the safe
 * integers are computed here, so that an integer written as a double is read back as
 * the same integer. Negative zero is identified with zero.
 */
module Float64 {
  import opened Wrappers
  import opened Bytes
  import opened Arithmetic

  const P52 := 0x10_0000_0000_0000
  const P63 := 0x8000_0000_0000_0000

  /** `base` to the power `k`. */
  function Power(base: nat, k: nat): (p: nat)
    requires base >= 1
    ensures p >= 1
  {
    if k == 0 then 1 else base * Power(base, k - 1)
  }

  lemma Powers()
    ensures Range(8) == 2 * P63 && Power(2, 52) == P52
  {
    FourBits(13);
  }

  lemma {:induction false} FourBits(k: nat)
    ensures Power(2, 4 * k) == Power(16, k)
  {
    if k > 0 {
      FourBits(k - 1);
      assert Power(2, 4 * k) == 4 * Power(2, 4 * k - 2);
      assert Power(2, 4 * k - 2) == 4 * Power(2, 4 * k - 4);
    }
  }

  /** Doubles a magnitude until it fills the 53-bit significand; counts the doublings. */
  function Normalise(m: nat): (r: (nat, nat))
    requires 0 < m <= MAX_SAFE
    ensures P52 <= r.0 <= MAX_SAFE
    decreases MAX_SAFE - m
  {
    if m >= P52 then (m, 0)
    else
      var (s, k) := Normalise(2 * m);
      (s, k + 1)
  }

  /** Halves a significand `k` times, if that leaves no fraction. */
  function Halve(s: nat, k: nat): (r: Option<nat>)
    ensures r.Some? ==> r.value <= s
    decreases k
  {
    if k == 0 then Some(s) else if s % 2 == 0 then Halve(s / 2, k - 1) else None
  }

  lemma {:induction false} HalveOnce(s: nat, k: nat, m: nat)
    requires Halve(s, k) == Some(2 * m)
    ensures Halve(s, k + 1) == Some(m)
    decreases k
  {
    if k > 0 {
      HalveOnce(s / 2, k - 1, m);
    }
  }

  lemma {:induction false} HalveInverts(m: nat)
    requires 0 < m <= MAX_SAFE
    ensures Halve(Normalise(m).0, Normalise(m).1) == Some(m)
    decreases MAX_SAFE - m
  {
    if m < P52 {
      HalveInverts(2 * m);
      HalveOnce(Normalise(2 * m).0, Normalise(2 * m).1, m);
    }
  }

  lemma {:induction false} FewDoublings(m: nat, k: nat)
    requires 0 < m <= MAX_SAFE && k <= 52 && m >= Power(2, 52 - k)
    ensures Normalise(m).1 <= k
    decreases k
  {
    Powers();
    if m < P52 {
      FewDoublings(2 * m, k - 1);
    }
  }

  /** Sign, biased exponent and fraction of a safe integer, packed into 64 bits. */
  function Word(n: SafeInt): nat {
    if n == 0 then 0
    else
      var (s, k) := Normalise(Abs(n));
      FewDoublings(Abs(n), 52);
      (if n < 0 then P63 else 0) + (1075 - k) * P52 + (s - P52)
  }

  lemma {:induction false} NormaliseIs(m: nat)
    requires 0 < m <= MAX_SAFE
    ensures Normalise(m).0 == m * Power(2, Normalise(m).1)
    decreases MAX_SAFE - m
  {
    if m < P52 {
      NormaliseIs(2 * m);
      var k := Normalise(2 * m).1;
      assert 2 * m * Power(2, k) == m * Power(2, k + 1);
    }
  }

  /** Section 3.4 of IEEE 754: sign, exponent biased by 1023, and a significand with 52 bits of fraction. */
  lemma WordMeans(n: SafeInt)
    ensures n == 0 ==> Word(n) == 0
    ensures n != 0 ==>
      var w := Word(n);
      var exponent := w / P52 % 2048;
      && (w >= P63 <==> n < 0) && 1023 <= exponent <= 1075
      && P52 + w % P52 == Abs(n) * Power(2, 52 - (exponent - 1023))
  {
    hide Normalise, Power;
    if n != 0 {
      var (s, k) := Normalise(Abs(n));
      FewDoublings(Abs(n), 52) by { assert Power(2, 0) == 1 by { OneIsPower(); } }
      Unpack(n < 0, 1075 - k, s - P52);
      NormaliseIs(Abs(n));
    }
  }

  lemma OneIsPower()
    ensures Power(2, 0) == 1
  {
  }

  /** The eight bytes of a safe integer. */
  function Image(n: SafeInt): (b: bytes)
    ensures |b| == 8
  {
    LittleEndian(Word(n), 8)
  }

  /** The safe integer that a 64-bit pattern stands for, if it stands for one. */
  function IntegerOf(w: nat): Option<SafeInt> {
    var exponent := w / P52 % 2048;
    if w % P63 == 0 then Some(0)
    else if 1023 <= exponent <= 1075 then
      match Halve(P52 + w % P52, 1075 - exponent)
      case Some(m) => Some(if w >= P63 then 0 - m else m)
      case None => None
    else None
  }

  function SafeImage(b: bytes): Option<SafeInt>
    requires |b| == 8
  {
    IntegerOf(FromLittleEndian(b))
  }

  predicate IsFloat(b: bytes) { |b| == 8 && SafeImage(b).None? }

  /** A double that is not a safe integer. */
  type FloatBits = b: bytes | IsFloat(b) ghost witness QuietNaN()

  ghost function QuietNaN(): (b: bytes)
    ensures IsFloat(b)
  {
    Powers();
    LittleEndianInverts(2047 * P52 + 1, 8);
    LittleEndian(2047 * P52 + 1, 8)
  }

  /** Number.isFinite on the eight bytes: the exponent bits are not all ones. */
  predicate IsFinite(b: bytes)
    requires |b| == 8
  {
    !(b[7] % 128 == 127 && b[6] >= 240)
  }

  lemma Unpack(negative: bool, exponent: nat, fraction: nat)
    requires 1023 <= exponent <= 1075 && fraction < P52
    ensures var w := (if negative then P63 else 0) + exponent * P52 + fraction;
      w < 2 * P63 && w / P52 % 2048 == exponent && w % P52 == fraction && w % P63 != 0 && (w >= P63 <==> negative)
  {
  }

  lemma WordInverts(n: SafeInt)
    ensures Word(n) < 2 * P63 && IntegerOf(Word(n)) == Some(n)
  {
    hide Normalise, Halve;
    assert Power(2, 0) == 1;
    if n != 0 {
      var (s, k) := Normalise(Abs(n));
      FewDoublings(Abs(n), 52);
      Unpack(n < 0, 1075 - k, s - P52);
      HalveInverts(Abs(n));
    }
  }

  /** An integer written as a double is recognised as that integer. */
  lemma ImageInverts(n: SafeInt)
    ensures SafeImage(Image(n)) == Some(n)
  {
    hide Word, IntegerOf, LittleEndian, FromLittleEndian, Range;
    WordInverts(n);
    Powers();
    LittleEndianInverts(Word(n), 8);
  }
}
