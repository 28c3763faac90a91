/**
 * `RawWebSocketConnection` of packages/observatory/server/ws.ts: an incremental parser that
 * gets its bytes in arbitrary pieces.
 */
module WebSocket {
  import opened Wrappers
  import opened Bytes
  import opened WebSocketFrames

  /** What the connection does, in order. A message is delivered with the bytes of its text. */
  datatype Output = Wrote(b: bytes) | Ended(b: bytes) | Destroyed | Message(text: bytes) | Closed

  datatype Connection = Connection(
    buffer: bytes, fragmentOpcode: nat, fragments: seq<bytes>, closed: bool, outputs: seq<Output>)
  {
    function Emit(o: Output): Connection { this.(outputs := outputs + [o]) }

    function Finish(): Connection {
      if closed then this else this.(closed := true, outputs := outputs + [Closed])
    }
  }

  const FRESH := Connection([], 0, [], false, [])

  /** The effect of one frame; the loop goes on or stops. */
  datatype Handled = Go(c: Connection) | Stop(c: Connection)

  function TotalLength(fragments: seq<bytes>): nat {
    if fragments == [] then 0 else |fragments[0]| + TotalLength(fragments[1..])
  }

  function Handle(c: Connection, first: byte, payload: bytes): (h: Handled)
    requires |payload| <= MAX_FRAME
    ensures h.c.buffer == c.buffer
  {
    var opcode, final := first % 16, first >= 128;
    if opcode == 8 then Stop(c.Emit(Ended(Frame(8, payload))).Finish())
    else if opcode == 9 then Go(c.Emit(Wrote(Frame(10, payload))))
    else if opcode == 10 then Go(c)
    else if opcode == 1 && !final then Go(c.(fragmentOpcode := 1, fragments := [payload]))
    else if opcode == 0 && c.fragmentOpcode == 1 then
      var all := c.fragments + [payload];
      if TotalLength(all) > MAX_FRAME then Stop(c.(fragments := all).Emit(Destroyed).Finish())
      else if !final then Go(c.(fragments := all))
      else Go(c.(fragmentOpcode := 0, fragments := []).Emit(Message(Concat(all))))
    else if opcode == 1 then Go(c.Emit(Message(payload)))
    else Go(c)
  }

  lemma PayloadFits(b: bytes)
    ensures TakeFrame(b).Got? ==> |TakeFrame(b).payload| <= MAX_FRAME
  {
  }

  /** Frames of other kinds, continuations of nothing and pongs change nothing. */
  lemma IgnoresOthers(c: Connection, first: byte, payload: bytes)
    requires |payload| <= MAX_FRAME
    requires first % 16 !in {0, 1, 8, 9} || (first % 16 == 0 && c.fragmentOpcode != 1)
    ensures Handle(c, first, payload) == Go(c)
  {
  }

  /** A text that comes whole is delivered, also between the fragments of another one; a first fragment starts anew. */
  lemma TextFrames(c: Connection, payload: bytes)
    requires |payload| <= MAX_FRAME
    ensures Handle(c, 128 + 1, payload) == Go(c.(outputs := c.outputs + [Message(payload)]))
    ensures Handle(c, 1, payload) == Go(c.(fragmentOpcode := 1, fragments := [payload]))
  {
  }

  /** Fragments that are too many bytes together end the connection, whether the last one has come or not. */
  lemma TooManyFragments(c: Connection, first: byte, payload: bytes)
    requires |payload| <= MAX_FRAME && first % 16 == 0 && c.fragmentOpcode == 1 && !c.closed
    requires |Concat(c.fragments)| + |payload| > 2_097_152
    ensures var h := Handle(c, first, payload); h.Stop? && h.c.closed && h.c.outputs == c.outputs + [Destroyed, Closed]
  {
    hide Concat, TotalLength;
    TotalIsLength(c.fragments + [payload]);
    ConcatLast(c.fragments, payload);
    Associative(c.outputs, [Destroyed], [Closed]);
  }

  lemma {:induction false} TotalIsLength(fragments: seq<bytes>)
    ensures TotalLength(fragments) == |Concat(fragments)|
  {
    if fragments != [] {
      TotalIsLength(fragments[1..]);
    }
  }

  lemma ConcatLast(fragments: seq<bytes>, payload: bytes)
    ensures Concat(fragments + [payload]) == Concat(fragments) + payload
  {
    ConcatAppend(fragments, [payload]);
    assert Concat([payload]) == payload + Concat([]) == payload;
  }

  /** Everything the buffered bytes lead to. */
  function Drain(c: Connection): Connection
    decreases |c.buffer|
  {
    PayloadFits(c.buffer);
    match TakeFrame(c.buffer)
    case More => c
    case TooBig => c.Emit(Destroyed).Finish()
    case Got(first, payload, rest) =>
      match Handle(c.(buffer := rest), first, payload)
      case Stop(d) => d
      case Go(d) => Drain(d)
  }

  function Received(c: Connection, data: bytes): Connection {
    var d := c.(buffer := c.buffer + data);
    if |d.buffer| > 2 * MAX_FRAME then d.Emit(Destroyed).Finish() else Drain(d)
  }

  /** Four megabytes is what is buffered at the most. */
  lemma BufferIsLimited(c: Connection, data: bytes)
    requires !c.closed && |c.buffer| + |data| > 4_194_304
    ensures Received(c, data) == c.(buffer := c.buffer + data, closed := true, outputs := c.outputs + [Destroyed, Closed])
  {
    hide Drain;
    Associative(c.outputs, [Destroyed], [Closed]);
  }

  // ---------- the parser ----------

  method Unmask(payload: array<byte>, key: Key)
    modifies payload
    ensures payload[..] == Masked(old(payload[..]), key)
    ensures forall i, j :: 0 <= i < payload.Length && 0 <= j < 8 ==>
      (BitOf(payload[i], j) <==> BitOf(old(payload[i]), j) != BitOf(key[i % 4], j))
  {
    hide Xor, BitOf;
    var n := payload.Length;
    for index := 0 to n
      invariant forall i :: 0 <= i < index ==> payload[i] == Xor(old(payload[i]), key[i % 4])
      invariant forall i :: index <= i < n ==> payload[i] == old(payload[i])
    {
      payload[index] := Xor(payload[index], key[index % 4]);
    }
    forall i, j | 0 <= i < n && 0 <= j < 8 ensures BitOf(payload[i], j) <==> BitOf(old(payload[i]), j) != BitOf(key[i % 4], j) {
      MaskedBit(old(payload[..]), key, i, j);
    }
  }

  class RawWebSocketConnection {
    var buffer: bytes
    var fragmentOpcode: nat
    var fragments: seq<bytes>
    var closed: bool
    ghost var outputs: seq<Output>

    ghost function State(): Connection
      reads this
    {
      Connection(buffer, fragmentOpcode, fragments, closed, outputs)
    }

    constructor (initial: bytes)
      ensures State() == if |initial| > 0 then Received(FRESH, initial) else FRESH
    {
      buffer, fragmentOpcode, fragments, closed, outputs := [], 0, [], false, [];
      new;
      if |initial| > 0 {
        Receive(initial);
      }
    }

    method Finish()
      modifies `closed, `outputs
      ensures State() == old(State()).Finish()
    {
      if closed { return; }
      closed := true;
      outputs := outputs + [Closed];
    }

    /** Writing is skipped once the connection is closed; a write that throws closes it. */
    method Send(text: bytes, writeThrows: bool)
      requires |text| < 0x1_0000_0000_0000_0000
      modifies `closed, `outputs
      ensures State() ==
        if old(closed) then old(State())
        else if writeThrows then old(State()).Finish()
        else old(State()).Emit(Wrote(Frame(1, text)))
    {
      if closed { return; }
      if writeThrows {
        Finish();
        return;
      }
      outputs := outputs + [Wrote(Frame(1, text))];
    }

    /** The socket is ended with a close frame of code 1000, or without one if writing that throws. */
    method Close(writeThrows: bool)
      modifies `closed, `outputs
      ensures State() ==
        if old(closed) then old(State())
        else old(State()).Emit(Ended(if writeThrows then [] else Frame(8, [3, 232]))).Finish()
    {
      if closed { return; }
      outputs := outputs + [Ended(if writeThrows then [] else Frame(8, [3, 232]))];
      Finish();
    }

    /** The peer has ended its side: the socket is ended too, and `onClose` runs unless it has already. */
    method OnEnd()
      modifies `closed, `outputs
      ensures State() == old(State()).Emit(Ended([])).Finish()
    {
      outputs := outputs + [Ended([])];
      Finish();
    }

    method Receive(data: bytes)
      modifies this
      ensures State() == Received(old(State()), data)
    {
      hide TakeFrame, Handle;
      buffer := buffer + data;
      if |buffer| > 2 * MAX_FRAME {
        outputs := outputs + [Destroyed];
        Finish();
        return;
      }
      ghost var start := State();
      while |buffer| >= 2
        invariant Drain(State()) == Drain(start)
        decreases |buffer|
      {
        ghost var before := State();
        PayloadFits(buffer);
        var front := NextFrame();
        if front.More? { return; }
        if front.TooBig? {
          outputs := outputs + [Destroyed];
          Finish();
          return;
        }
        buffer := front.rest;
        var more := HandleFrame(front.first, front.payload);
        if !more { return; }
      }
      TooShort(buffer);
    }

    /** The frame at the front of the buffer, its payload unmasked. */
    method NextFrame() returns (front: Front)
      requires |buffer| >= 2
      ensures front == TakeFrame(buffer)
    {
      hide Masked, BigEndian;
      var first, second := buffer[0], buffer[1];
      var masked, lengthCode := second >= 128, second % 128;
      var extra := if lengthCode == 126 then 2 else if lengthCode == 127 then 8 else 0;
      if |buffer| < 2 + extra + (if masked then 4 else 0) { return More; }
      var size := if lengthCode < 126 then lengthCode else BigEndian(buffer[2..2 + extra]);
      if size > MAX_FRAME { return TooBig; }
      var start := 2 + extra + (if masked then 4 else 0);
      if |buffer| < start + size { return More; }
      var raw := buffer[start..start + size];
      var payload := new byte[size](i requires 0 <= i < |raw| => raw[i]);
      assert payload[..] == raw;
      if masked {
        Unmask(payload, buffer[2 + extra..6 + extra]);
      }
      return Got(first, payload[..], buffer[start + size..]);
    }

    /** Acts on one frame; `more` says whether the loop goes on. */
    method HandleFrame(first: byte, payload: bytes) returns (more: bool)
      requires |payload| <= MAX_FRAME
      modifies `fragmentOpcode, `fragments, `closed, `outputs
      ensures Handle(old(State()), first, payload) == if more then Go(State()) else Stop(State())
    {
      hide Frame, Concat, TotalLength;
      var opcode, final := first % 16, first >= 128;
      if opcode == 8 {
        outputs := outputs + [Ended(Frame(8, payload))];
        Finish();
        return false;
      }
      if opcode == 9 {
        outputs := outputs + [Wrote(Frame(10, payload))];
        return true;
      }
      if opcode == 10 { return true; }
      if opcode == 1 && !final {
        fragmentOpcode, fragments := 1, [payload];
        return true;
      }
      if opcode == 0 && fragmentOpcode == 1 {
        fragments := fragments + [payload];
        if TotalLength(fragments) > MAX_FRAME {
          outputs := outputs + [Destroyed];
          Finish();
          return false;
        }
        if !final { return true; }
        fragmentOpcode := 0;
        outputs := outputs + [Message(Concat(fragments))];
        fragments := [];
        return true;
      }
      if opcode == 1 {
        outputs := outputs + [Message(payload)];
      }
      return true;
    }
  }

  lemma TooShort(b: bytes)
    requires |b| < 2
    ensures TakeFrame(b).More?
  {
  }

  // ---------- segmentation ----------

  /** Hands over the pieces one by one, until the connection is closed. */
  function Fed(c: Connection, pieces: seq<bytes>): Connection
    decreases pieces
  {
    if pieces == [] || c.closed then c else Fed(Received(c, pieces[0]), pieces[1..])
  }

  lemma HandleBuffer(c: Connection, first: byte, payload: bytes, x: bytes)
    requires |payload| <= MAX_FRAME
    ensures var h, h' := Handle(c, first, payload), Handle(c.(buffer := c.buffer + x), first, payload);
      && h.c.buffer == c.buffer
      && (h.Go? <==> h'.Go?) && h'.c == h.c.(buffer := h.c.buffer + x)
      && (h.Stop? ==> h.c.closed) && (h.Go? ==> h.c.closed == c.closed)
  {
    hide Frame, TotalLength, Concat, MAX_FRAME;
  }

  /** Draining early and then again is draining once. */
  lemma {:induction false} DrainMore(c: Connection, x: bytes)
    requires !c.closed
    ensures var d, e := Drain(c), Drain(c.(buffer := c.buffer + x));
      if d.closed then e == d.(buffer := d.buffer + x) else e == Drain(d.(buffer := d.buffer + x)) && TakeFrame(d.buffer).More?
    decreases |c.buffer|
  {
    hide TakeFrame, Handle;
    TakeMore(c.buffer, x);
    var front := TakeFrame(c.buffer);
    if front.Got? {
      PayloadFits(c.buffer);
      var next := c.(buffer := front.rest);
      HandleBuffer(next, front.first, front.payload, x);
      var h := Handle(next, front.first, front.payload);
      assert next.(buffer := next.buffer + x) == c.(buffer := front.rest + x);
      if h.Go? {
        DrainMore(h.c, x);
      }
    }
  }

  /**
   * However the bytes are cut, the connection does the same things in the same order, and
   * the limit on buffered bytes is never met.
   */
  lemma {:induction false} SegmentationIndependent(c: Connection, pieces: seq<bytes>)
    requires !c.closed && TakeFrame(c.buffer).More?
    requires forall i :: 0 <= i < |pieces| ==> |pieces[i]| <= MAX_FRAME - 13
    ensures var whole, fed := Drain(c.(buffer := c.buffer + Concat(pieces))), Fed(c, pieces);
      && fed.outputs == whole.outputs && fed.closed == whole.closed
      && (!whole.closed ==> fed == whole)
    decreases pieces
  {
    hide TakeFrame, Handle;
    if pieces == [] {
      assert c.buffer + [] == c.buffer;
      assert Drain(c) == c;
    } else {
      var d := c.(buffer := c.buffer + pieces[0]);
      IncompleteIsShort(c.buffer);
      assert c.buffer + Concat(pieces) == d.buffer + Concat(pieces[1..]);
      DrainMore(d, Concat(pieces[1..]));
      assert Received(c, pieces[0]) == Drain(d);
      if !Drain(d).closed {
        SegmentationIndependent(Drain(d), pieces[1..]);
      }
    }
  }

  // ---------- messages ----------

  datatype Control = Ping(packed: Packed) | Pong(packed: Packed)

  /** A later fragment of a message, with the control frames sent before it. */
  datatype Continuation = Continuation(controls: seq<Control>, piece: Packed)

  /** What a client sends: a control frame, or a text message in one or more fragments. */
  datatype Item = Alone(control: Control) | Text(head: Packed, more: seq<Continuation>)

  predicate SmallPacked(p: Packed) { p.Valid() && |p.payload| <= MAX_FRAME }

  predicate ProperControls(controls: seq<Control>) {
    forall i :: 0 <= i < |controls| ==> SmallPacked(controls[i].packed)
  }

  predicate ProperMore(more: seq<Continuation>) {
    forall i :: 0 <= i < |more| ==> ProperControls(more[i].controls) && SmallPacked(more[i].piece)
  }

  /** No control frame and no whole message is larger than the limit. */
  predicate Proper(item: Item) {
    match item
    case Alone(control) => SmallPacked(control.packed)
    case Text(head, more) => SmallPacked(head) && ProperMore(more) && |head.payload| + |Pieces(more)| <= MAX_FRAME
  }

  function Pieces(more: seq<Continuation>): bytes {
    if more == [] then [] else more[0].piece.payload + Pieces(more[1..])
  }

  function Opcode(control: Control): byte { if control.Ping? then 128 + 9 else 128 + 10 }

  function ControlBytes(controls: seq<Control>): bytes
    requires ProperControls(controls)
  {
    if controls == [] then [] else FrameBytes(Opcode(controls[0]), controls[0].packed) + ControlBytes(controls[1..])
  }

  /** The remaining fragments of a message; the last one is final. */
  function MoreBytes(more: seq<Continuation>): bytes
    requires ProperMore(more)
  {
    if more == [] then []
    else ControlBytes(more[0].controls) + FrameBytes(if |more| == 1 then 128 else 0, more[0].piece) + MoreBytes(more[1..])
  }

  function ItemBytes(item: Item): bytes
    requires Proper(item)
  {
    match item
    case Alone(control) => FrameBytes(Opcode(control), control.packed)
    case Text(head, more) => FrameBytes(if more == [] then 128 + 1 else 1, head) + MoreBytes(more)
  }

  function StreamBytes(items: seq<Item>): bytes
    requires forall i :: 0 <= i < |items| ==> Proper(items[i])
  {
    if items == [] then [] else ItemBytes(items[0]) + StreamBytes(items[1..])
  }

  /** One pong for a ping, with the same payload, and nothing for a pong. */
  function Reply(control: Control): seq<Output>
    requires SmallPacked(control.packed)
  {
    if control.Ping? then [Wrote(Frame(10, control.packed.payload))] else []
  }

  function Pongs(controls: seq<Control>): seq<Output>
    requires ProperControls(controls)
  {
    if controls == [] then [] else Reply(controls[0]) + Pongs(controls[1..])
  }

  function MorePongs(more: seq<Continuation>): seq<Output>
    requires ProperMore(more)
  {
    if more == [] then [] else Pongs(more[0].controls) + MorePongs(more[1..])
  }

  function Answer(item: Item): seq<Output>
    requires Proper(item)
  {
    match item
    case Alone(control) => Reply(control)
    case Text(head, more) => MorePongs(more) + [Message(head.payload + Pieces(more))]
  }

  /** Every message once, whole and in order, and every ping answered in its place. */
  function Answers(items: seq<Item>): seq<Output>
    requires forall i :: 0 <= i < |items| ==> Proper(items[i])
  {
    if items == [] then [] else Answer(items[0]) + Answers(items[1..])
  }

  /** One frame at the front of the buffer. */
  lemma DrainFrame(c: Connection, first: byte, p: Packed, rest: bytes)
    requires SmallPacked(p)
    ensures Drain(c.(buffer := FrameBytes(first, p) + rest)) ==
      var h := Handle(c.(buffer := rest), first, p.payload);
      if h.Go? then Drain(h.c) else h.c
  {
    hide FrameBytes, Handle;
    FrameInverts(first, p, rest);
    HandleBuffer(c.(buffer := rest), first, p.payload, []);
    var b := c.(buffer := FrameBytes(first, p) + rest);
    assert b.(buffer := rest) == c.(buffer := rest);
  }

  lemma DrainControl(c: Connection, control: Control, rest: bytes)
    requires SmallPacked(control.packed)
    ensures Drain(c.(buffer := FrameBytes(Opcode(control), control.packed) + rest)) ==
      Drain(c.(buffer := rest, outputs := c.outputs + Reply(control)))
  {
    hide FrameBytes, Drain, Frame;
    DrainFrame(c, Opcode(control), control.packed, rest);
    assert c.outputs + [] == c.outputs;
  }

  lemma {:induction false} DrainControls(c: Connection, controls: seq<Control>, rest: bytes)
    requires ProperControls(controls)
    ensures Drain(c.(buffer := ControlBytes(controls) + rest)) ==
      Drain(c.(buffer := rest, outputs := c.outputs + Pongs(controls)))
    decreases controls
  {
    hide FrameBytes, Drain, Frame, Reply;
    if controls == [] {
      assert [] + rest == rest && c.outputs + [] == c.outputs;
    } else {
      var reply := Reply(controls[0]);
      Associative(FrameBytes(Opcode(controls[0]), controls[0].packed), ControlBytes(controls[1..]), rest);
      DrainControl(c, controls[0], ControlBytes(controls[1..]) + rest);
      DrainControls(c.(outputs := c.outputs + reply), controls[1..], rest);
      Associative(c.outputs, reply, Pongs(controls[1..]));
    }
  }

  lemma {:induction false} TotalLast(fragments: seq<bytes>, payload: bytes)
    ensures TotalLength(fragments + [payload]) == TotalLength(fragments) + |payload|
    ensures Concat(fragments + [payload]) == Concat(fragments) + payload
  {
    ConcatLast(fragments, payload);
    if fragments == [] {
      assert fragments + [payload] == [payload];
    } else {
      assert (fragments + [payload])[1..] == fragments[1..] + [payload];
      TotalLast(fragments[1..], payload);
    }
  }

  function Finished(c: Connection, more: seq<Continuation>): Connection
    requires ProperMore(more)
  {
    c.(fragmentOpcode := 0, fragments := [],
       outputs := c.outputs + (MorePongs(more) + [Message(Concat(c.fragments) + Pieces(more))]))
  }

  /** One later fragment, after its control frames. */
  lemma DrainPiece(c: Connection, next: Continuation, final: bool, rest: bytes)
    requires c.fragmentOpcode == 1 && ProperControls(next.controls) && SmallPacked(next.piece)
    requires TotalLength(c.fragments) + |next.piece.payload| <= MAX_FRAME
    ensures var all := c.fragments + [next.piece.payload];
      Drain(c.(buffer := ControlBytes(next.controls) + FrameBytes(if final then 128 else 0, next.piece) + rest)) ==
      if final then Drain(c.(buffer := rest, fragmentOpcode := 0, fragments := [],
                             outputs := c.outputs + Pongs(next.controls) + [Message(Concat(all))]))
      else Drain(c.(buffer := rest, fragments := all, outputs := c.outputs + Pongs(next.controls)))
  {
    hide FrameBytes, Drain, Frame, Concat, TotalLength, ControlBytes, Pongs, MAX_FRAME;
    var b := FrameBytes(if final then 128 else 0, next.piece) + rest;
    assert ControlBytes(next.controls) + FrameBytes(if final then 128 else 0, next.piece) + rest == ControlBytes(next.controls) + b;
    DrainControls(c, next.controls, b);
    var d := c.(outputs := c.outputs + Pongs(next.controls));
    assert c.(buffer := b, outputs := c.outputs + Pongs(next.controls)) == d.(buffer := b);
    DrainFrame(d, if final then 128 else 0, next.piece, rest);
    TotalLast(c.fragments, next.piece.payload);
  }

  lemma {:induction false} DrainFragments(c: Connection, more: seq<Continuation>, rest: bytes)
    requires more != [] && ProperMore(more) && c.fragmentOpcode == 1
    requires TotalLength(c.fragments) + |Pieces(more)| <= MAX_FRAME
    ensures Drain(c.(buffer := MoreBytes(more) + rest)) == Drain(Finished(c, more).(buffer := rest))
    decreases more
  {
    hide FrameBytes, Drain, Frame, Concat, TotalLength, ControlBytes, Pongs, MAX_FRAME;
    var next, others := more[0], more[1..];
    var final := |more| == 1;
    var payload := next.piece.payload;
    TotalLast(c.fragments, payload);
    DrainPiece(c, next, final, MoreBytes(others) + rest);
    var front := ControlBytes(next.controls) + FrameBytes(if final then 128 else 0, next.piece);
    Associative(front, MoreBytes(others), rest);
    Associative(Concat(c.fragments), payload, Pieces(others));
    var pongs := Pongs(next.controls);
    if final {
      NoMore();
      assert others == [] && [] + rest == rest && pongs + [] == pongs && payload + [] == payload;
      Associative(c.outputs, pongs, [Message(Concat(c.fragments + [payload]))]);
    } else {
      var d := c.(fragments := c.fragments + [payload], outputs := c.outputs + pongs);
      DrainFragments(d, others, rest);
      var last := [Message(Concat(c.fragments) + Pieces(more))];
      Associative(c.outputs, pongs, MorePongs(others) + last);
      Associative(pongs, MorePongs(others), last);
    }
  }

  predicate Idle(c: Connection) { c.fragmentOpcode == 0 && c.fragments == [] }

  lemma DrainItem(c: Connection, item: Item, rest: bytes)
    requires Proper(item) && Idle(c)
    ensures Drain(c.(buffer := ItemBytes(item) + rest)) == Drain(c.(buffer := rest, outputs := c.outputs + Answer(item)))
  {
    hide FrameBytes, Drain, Frame, ControlBytes, Pongs, MAX_FRAME, MoreBytes, MorePongs;
    match item {
      case Alone(control) =>
        DrainControl(c, control, rest);
      case Text(head, more) =>
        var first: byte := if more == [] then 128 + 1 else 1;
        var b := MoreBytes(more) + rest;
        assert ItemBytes(item) + rest == FrameBytes(first, head) + b;
        DrainFrame(c, first, head, b);
        if more == [] {
          NoMore();
          assert b == rest && head.payload + [] == head.payload;
          assert [] + [Message(head.payload)] == [Message(head.payload)];
        } else {
          var d := c.(fragmentOpcode := 1, fragments := [head.payload]);
          TotalLast([], head.payload);
          assert [] + [head.payload] == [head.payload] && [] + head.payload == head.payload;
          DrainFragments(d, more, rest);
          assert c.(buffer := b, fragmentOpcode := 1, fragments := [head.payload]) == d.(buffer := b);
          assert Finished(d, more).(buffer := rest) == c.(buffer := rest, outputs := c.outputs + Answer(item));
        }
    }
  }

  lemma NoMore()
    ensures MoreBytes([]) == [] && MorePongs([]) == [] && Pieces([]) == []
  {
  }

  lemma {:induction false} DrainItems(c: Connection, items: seq<Item>, rest: bytes)
    requires Idle(c) && forall i :: 0 <= i < |items| ==> Proper(items[i])
    ensures Drain(c.(buffer := StreamBytes(items) + rest)) == Drain(c.(buffer := rest, outputs := c.outputs + Answers(items)))
    decreases items
  {
    hide Proper, ItemBytes, Answer, Drain;
    if items == [] {
      assert [] + rest == rest && c.outputs + [] == c.outputs;
    } else {
      Associative(ItemBytes(items[0]), StreamBytes(items[1..]), rest);
      DrainItem(c, items[0], StreamBytes(items[1..]) + rest);
      DrainItems(c.(outputs := c.outputs + Answer(items[0])), items[1..], rest);
      Associative(c.outputs, Answer(items[0]), Answers(items[1..]));
    }
  }

  lemma DrainNothing(c: Connection)
    ensures Drain(c.(buffer := [])) == c.(buffer := [])
  {
    TooShort([]);
  }

  /**
   * Any messages, in any fragments, with any masks and length forms, with pings and pongs
   * anywhere between the frames, and delivered in any pieces: the connection answers with
   * exactly those messages and one equal pong for each ping, in order, and stays open.
   */
  lemma MessagesArrive(items: seq<Item>, pieces: seq<bytes>)
    requires forall i :: 0 <= i < |items| ==> Proper(items[i])
    requires Concat(pieces) == StreamBytes(items)
    requires forall i :: 0 <= i < |pieces| ==> |pieces[i]| <= MAX_FRAME - 13
    ensures Fed(FRESH, pieces) == FRESH.(outputs := Answers(items))
  {
    hide Proper, StreamBytes, Answers, Drain, Concat;
    assert StreamBytes(items) + [] == StreamBytes(items);
    FedWhole(items, pieces, []);
    DrainNothing(FRESH.(outputs := Answers(items)));
  }

  lemma FedWhole(items: seq<Item>, pieces: seq<bytes>, rest: bytes)
    requires forall i :: 0 <= i < |items| ==> Proper(items[i])
    requires Concat(pieces) == StreamBytes(items) + rest
    requires forall i :: 0 <= i < |pieces| ==> |pieces[i]| <= MAX_FRAME - 13
    ensures var whole, fed := Drain(FRESH.(buffer := rest, outputs := Answers(items))), Fed(FRESH, pieces);
      && fed.outputs == whole.outputs && fed.closed == whole.closed
      && (!whole.closed ==> fed == whole)
  {
    hide Proper, StreamBytes, Answers, Drain, Concat;
    TooShort([]);
    DrainNothing(FRESH);
    SegmentationIndependent(FRESH, pieces);
    DrainItems(FRESH, items, rest);
    assert [] + Answers(items) == Answers(items);
    assert FRESH.buffer + Concat(pieces) == StreamBytes(items) + rest;
  }

  /**
   * A close frame behind such a stream: it is answered with its own payload and the
   * connection is closed, once, and nothing that comes behind it has any effect.
   */
  lemma CloseIsAnswered(items: seq<Item>, packed: Packed, behind: bytes, pieces: seq<bytes>)
    requires SmallPacked(packed) && forall i :: 0 <= i < |items| ==> Proper(items[i])
    requires Concat(pieces) == StreamBytes(items) + (FrameBytes(128 + 8, packed) + behind)
    requires forall i :: 0 <= i < |pieces| ==> |pieces[i]| <= MAX_FRAME - 13
    ensures var c := Fed(FRESH, pieces);
      c.closed && c.outputs == Answers(items) + [Ended(Frame(8, packed.payload)), Closed]
  {
    hide Proper, StreamBytes, Answers, Drain, Concat, FrameBytes, Frame;
    FedWhole(items, pieces, FrameBytes(128 + 8, packed) + behind);
    DrainFrame(FRESH.(outputs := Answers(items)), 128 + 8, packed, behind);
    Associative(Answers(items), [Ended(Frame(8, packed.payload))], [Closed]);
  }

  /** A frame over the limit behind such a stream: the socket is destroyed without an answer. */
  lemma OversizeIsRefused(items: seq<Item>, first: byte, packed: Packed, behind: bytes, pieces: seq<bytes>)
    requires packed.Valid() && |packed.payload| > MAX_FRAME && forall i :: 0 <= i < |items| ==> Proper(items[i])
    requires Concat(pieces) == StreamBytes(items) + (FrameBytes(first, packed) + behind)
    requires forall i :: 0 <= i < |pieces| ==> |pieces[i]| <= MAX_FRAME - 13
    ensures var c := Fed(FRESH, pieces); c.closed && c.outputs == Answers(items) + [Destroyed, Closed]
  {
    hide Proper, StreamBytes, Answers, Concat, FrameBytes;
    FedWhole(items, pieces, FrameBytes(first, packed) + behind);
    FrameInverts(first, packed, behind);
    Associative(Answers(items), [Destroyed], [Closed]);
  }
}
