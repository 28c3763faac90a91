/** Frames of sections 5.2 and 5.3 of RFC 6455, as read and written by packages/observatory/server/ws.ts. */
module WebSocketFrames {
  import opened Wrappers
  import opened Bytes

  const MAX_FRAME: nat := 2 * 1024 * 1024

  // ---------- masking ----------

  type Key = k: bytes | |k| == 4 witness [0, 0, 0, 0]

  function Masked(payload: bytes, key: Key): (r: bytes)
    ensures |r| == |payload|
  {
    seq(|payload|, i requires 0 <= i < |payload| => Xor(payload[i], key[i % 4]))
  }

  /** Section 5.3 of RFC 6455: bit by bit, octet i of the payload meets octet i modulo 4 of the key. */
  lemma MaskedBit(payload: bytes, key: Key, i: nat, j: nat)
    requires i < |payload| && j < 8
    ensures BitOf(Masked(payload, key)[i], j) <==> BitOf(payload[i], j) != BitOf(key[i % 4], j)
  {
    XorBit(payload[i], key[i % 4], 8, j);
  }

  lemma MaskedTwice(payload: bytes, key: Key)
    ensures Masked(Masked(payload, key), key) == payload
  {
    forall i | 0 <= i < |payload| ensures Masked(Masked(payload, key), key)[i] == payload[i] {
      XorUndone(payload[i], key[i % 4]);
    }
  }

  // ---------- lengths ----------

  function BigEndian(b: bytes): nat {
    if b == [] then 0 else 256 * BigEndian(b[..|b| - 1]) + b[|b| - 1]
  }

  function ToBigEndian(n: nat, width: nat): (b: bytes)
    ensures |b| == width
  {
    if width == 0 then [] else ToBigEndian(n / 256, width - 1) + [n % 256]
  }

  lemma {:induction false} BigEndianInverts(n: nat, width: nat)
    requires n < Range(width)
    ensures BigEndian(ToBigEndian(n, width)) == n
  {
    if width > 0 {
      DigitBelow(n, Range(width - 1));
      BigEndianInverts(n / 256, width - 1);
      var b := ToBigEndian(n, width);
      assert b[..|b| - 1] == ToBigEndian(n / 256, width - 1);
    }
  }

  lemma Ranges()
    ensures Range(2) == 0x1_0000 && Range(8) == 0x1_0000_0000_0000_0000
  {
    assert Range(2) == 256 * Range(1) && Range(1) == 256 * Range(0);
    assert Range(4) == 256 * Range(3) && Range(3) == 256 * Range(2);
    assert Range(6) == 256 * Range(5) && Range(5) == 256 * Range(4);
    assert Range(8) == 256 * Range(7) && Range(7) == 256 * Range(6);
  }

  // ---------- reading ----------

  /** How many bytes of extended length follow a length code. */
  function Extra(code: nat): nat { if code == 126 then 2 else if code == 127 then 8 else 0 }

  /** Where the payload starts, and how long it is; none while the head is incomplete. */
  datatype Head = Head(start: nat, size: nat, key: Option<Key>)

  function ReadHead(b: bytes): Option<Head> {
    if |b| < 2 then None
    else
      var masked := b[1] >= 128;
      var code := b[1] % 128;
      var extra := Extra(code);
      if |b| < 2 + extra + (if masked then 4 else 0) then None
      else
        var size := if code < 126 then code else BigEndian(b[2..2 + extra]);
        if masked then Some(Head(6 + extra, size, Some(b[2 + extra..6 + extra]))) else Some(Head(2 + extra, size, None))
  }

  lemma HeadStart(b: bytes)
    ensures ReadHead(b).Some? ==> 2 <= ReadHead(b).value.start <= |b| && ReadHead(b).value.start <= 14
    ensures ReadHead(b).None? ==> |b| < 14
  {
  }

  /** What the front of the buffer holds. */
  datatype Front = More | TooBig | Got(first: byte, payload: bytes, rest: bytes)

  function Unmasked(raw: bytes, key: Option<Key>): bytes {
    if key.Some? then Masked(raw, key.value) else raw
  }

  function TakeFrame(b: bytes): (r: Front)
    ensures r.Got? ==> |r.rest| < |b|
  {
    var head := ReadHead(b);
    HeadStart(b);
    if head.None? then More
    else if head.value.size > MAX_FRAME then TooBig
    else
      var end := head.value.start + head.value.size;
      if |b| < end then More else Got(b[0], Unmasked(b[head.value.start..end], head.value.key), b[end..])
  }

  /** An incomplete frame is never longer than this. */
  lemma IncompleteIsShort(b: bytes)
    requires TakeFrame(b).More?
    ensures |b| <= MAX_FRAME + 13
  {
    HeadStart(b);
  }

  /** Later bytes do not change a frame that is there. */
  lemma TakeMore(b: bytes, x: bytes)
    ensures TakeFrame(b).TooBig? ==> TakeFrame(b + x).TooBig?
    ensures TakeFrame(b).Got? ==>
      TakeFrame(b + x) == Got(TakeFrame(b).first, TakeFrame(b).payload, TakeFrame(b).rest + x)
  {
    hide BigEndian, Unmasked, MAX_FRAME;
    HeadStart(b);
    var head := ReadHead(b);
    if head.Some? {
      HeadMore(b, x);
    }
    if TakeFrame(b).Got? {
      var end := head.value.start + head.value.size;
      SliceOfFront(b, x, head.value.start, end);
    }
  }

  lemma HeadMore(b: bytes, x: bytes)
    requires ReadHead(b).Some?
    ensures ReadHead(b + x) == ReadHead(b)
  {
    hide BigEndian;
    var extra := Extra(b[1] % 128);
    SliceOfFront(b, x, 2, 2 + extra);
    if b[1] >= 128 {
      SliceOfFront(b, x, 2 + extra, 6 + extra);
    }
  }

  // ---------- writing ----------

  /** How the length is written: in the second byte, in two bytes or in eight. */
  datatype LengthForm = Short | Medium | Long

  predicate Fits(size: nat, form: LengthForm) {
    match form
    case Short => size < 126
    case Medium => size < 0x1_0000
    case Long => size < 0x1_0000_0000_0000_0000
  }

  function LengthCode(size: nat, form: LengthForm): (code: byte)
    requires Fits(size, form)
    ensures code < 128
  {
    match form case Short => size case Medium => 126 case Long => 127
  }

  function Extended(size: nat, form: LengthForm): (r: bytes)
    requires Fits(size, form)
    ensures |r| == Extra(LengthCode(size, form))
  {
    match form case Short => [] case Medium => ToBigEndian(size, 2) case Long => ToBigEndian(size, 8)
  }

  /** A payload, the key it is masked with, if any, and the form of its length. */
  datatype Packed = Packed(payload: bytes, key: Option<Key>, form: LengthForm)
  {
    predicate Valid() { Fits(|payload|, form) }
  }

  /** A frame as section 5.2 of RFC 6455 lays it out, in any of its length forms. */
  function FrameBytes(first: byte, p: Packed): bytes
    requires p.Valid()
  {
    var code := LengthCode(|p.payload|, p.form);
    var length := Extended(|p.payload|, p.form);
    match p.key
    case None => [first, code] + length + p.payload
    case Some(key) => [first, 128 + code] + length + key + Masked(p.payload, key)
  }

  lemma HeadOfFrame(first: byte, p: Packed, rest: bytes)
    requires p.Valid()
    ensures var start := 2 + Extra(LengthCode(|p.payload|, p.form)) + (if p.key.Some? then 4 else 0);
      && ReadHead(FrameBytes(first, p) + rest) == Some(Head(start, |p.payload|, p.key))
      && |FrameBytes(first, p)| == start + |p.payload|
  {
    hide BigEndian, ToBigEndian, Masked, Range, FrameBytes;
    var length := Extended(|p.payload|, p.form);
    FrameSlices(first, p, rest);
    Ranges();
    if p.form.Medium? {
      BigEndianInverts(|p.payload|, 2);
    } else if p.form.Long? {
      BigEndianInverts(|p.payload|, 8);
    }
  }

  /** Where the parts of a frame lie in a buffer. */
  lemma FrameSlices(first: byte, p: Packed, rest: bytes)
    requires p.Valid()
    ensures var b, length := FrameBytes(first, p) + rest, Extended(|p.payload|, p.form);
      var start := 2 + |length| + (if p.key.Some? then 4 else 0);
      && |b| == start + |p.payload| + |rest| && b[0] == first && b[1] % 128 == LengthCode(|p.payload|, p.form)
      && (b[1] >= 128 <==> p.key.Some?)
      && b[2..2 + |length|] == length
      && (p.key.Some? ==> b[2 + |length|..6 + |length|] == p.key.value)
      && b[start..start + |p.payload|] == (if p.key.Some? then Masked(p.payload, p.key.value) else p.payload)
      && b[start + |p.payload|..] == rest
  {
    hide Extended, LengthCode, Masked;
    var code, length := LengthCode(|p.payload|, p.form), Extended(|p.payload|, p.form);
    var b := FrameBytes(first, p) + rest;
    match p.key {
      case None =>
        var head: bytes := [first, code];
        assert b == head + length + (p.payload + rest);
        SliceOfMiddle(head, length, p.payload + rest);
        SliceOfMiddle(head + length, p.payload, rest);
      case Some(key) =>
        var head: bytes := [first, 128 + code];
        var body := Masked(p.payload, key);
        assert b == head + length + (key + body + rest);
        SliceOfMiddle(head, length, key + body + rest);
        assert b == (head + length) + key + (body + rest);
        SliceOfMiddle(head + length, key, body + rest);
        SliceOfMiddle(head + length + key, body, rest);
    }
  }

  /** A reader recovers the frame, whatever its mask and length form, and leaves what follows. */
  lemma FrameInverts(first: byte, p: Packed, rest: bytes)
    requires p.Valid()
    ensures TakeFrame(FrameBytes(first, p) + rest) == if |p.payload| <= 2_097_152 then Got(first, p.payload, rest) else TooBig
  {
    hide ReadHead, Masked, Extended, LengthCode, FrameBytes;
    HeadOfFrame(first, p, rest);
    FrameSlices(first, p, rest);
    if p.key.Some? {
      MaskedTwice(p.payload, p.key.value);
    }
  }

  /** The examples of section 5.7 of RFC 6455: a masked "Hello", an unmasked one, and 256 bytes. */
  lemma RfcExamples(rest: bytes, data: bytes)
    requires |data| == 256
    ensures TakeFrame([0x81, 0x85, 0x37, 0xfa, 0x21, 0x3d, 0x7f, 0x9f, 0x4d, 0x51, 0x58] + rest)
         == Got(0x81, Masked([0x7f, 0x9f, 0x4d, 0x51, 0x58], [0x37, 0xfa, 0x21, 0x3d]), rest)
    ensures Frame(1, [0x48, 0x65, 0x6c, 0x6c, 0x6f]) == [0x81, 0x05, 0x48, 0x65, 0x6c, 0x6c, 0x6f]
    ensures Frame(2, data) == [0x82, 0x7e, 0x01, 0x00] + data
  {
    hide Masked, BigEndian, ToBigEndian;
    var b := [0x81, 0x85, 0x37, 0xfa, 0x21, 0x3d, 0x7f, 0x9f, 0x4d, 0x51, 0x58] + rest;
    assert b[2..6] == [0x37, 0xfa, 0x21, 0x3d] && b[6..11] == [0x7f, 0x9f, 0x4d, 0x51, 0x58] && b[11..] == rest;
    TwoBytes();
  }

  lemma TwoBytes()
    ensures ToBigEndian(256, 2) == [0x01, 0x00]
  {
    assert ToBigEndian(1, 1) == ToBigEndian(0, 0) + [1];
  }

  /** The server's own frames: final, unmasked, with the shortest length. */
  function ServerForm(size: nat): LengthForm { if size < 126 then Short else if size < 0x1_0000 then Medium else Long }

  function Frame(opcode: nat, payload: bytes): bytes
    requires opcode < 16 && |payload| < 0x1_0000_0000_0000_0000
  {
    var size := |payload|;
    if size < 126 then [128 + opcode, size] + payload
    else if size < 0x1_0000 then [128 + opcode, 126] + ToBigEndian(size, 2) + payload
    else [128 + opcode, 127] + ToBigEndian(size, 8) + payload
  }

  lemma FrameIsMinimal(opcode: nat, payload: bytes)
    requires opcode < 16 && |payload| < 0x1_0000_0000_0000_0000
    ensures Frame(opcode, payload) == FrameBytes(128 + opcode, Packed(payload, None, ServerForm(|payload|)))
    ensures forall form :: Fits(|payload|, form) ==>
      |Frame(opcode, payload)| <= |FrameBytes(128 + opcode, Packed(payload, None, form))|
  {
    hide ToBigEndian;
    if |payload| < 126 {
      assert [128 + opcode, |payload|] + [] == [128 + opcode, |payload|];
    }
    forall form | Fits(|payload|, form)
      ensures |Frame(opcode, payload)| <= |FrameBytes(128 + opcode, Packed(payload, None, form))|
    {
    }
  }
}
