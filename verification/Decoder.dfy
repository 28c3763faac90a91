/**
 * The decoder of packages/trace/src/wire/decoder.ts. `Take...` functions say what is read
 * from the front of a byte string under given dictionary tables; the methods read in
 * place and are proved against them.
 */
module Decoder {
  import opened Wrappers
  import opened Bytes
  import opened Binary
  import opened TraceTypes
  import opened Container

  const CHUNK_MAGIC: bytes := [66, 71, 84, 67]  // "BGTC"

  datatype PlayerDefinition = PlayerDefinition(id: seq<unit>, name: Option<seq<unit>>)
  datatype ComponentDefinition = ComponentDefinition(stateRef: nat, name: seq<unit>, tag: Option<seq<unit>>)

  /** A schema field; `code` is the wire code of its type. */
  datatype SchemaField = SchemaField(name: seq<unit>, code: byte, optional: bool)
  datatype SchemaDefinition = SchemaDefinition(name: seq<unit>, fields: seq<SchemaField>)

  datatype Tables = Tables(
    strings: map<nat, seq<unit>>,
    players: map<nat, PlayerDefinition>,
    states: map<nat, seq<unit>>,
    components: map<nat, ComponentDefinition>,
    schemas: map<nat, SchemaDefinition>)

  const EMPTY_TABLES := Tables(map[], map[], map[], map[], map[])

  /** An event as recorded: its tick is relative and its sequence implicit. */
  datatype RawEvent = RawEvent(delta: nat, typeId: nat, schemaName: Option<seq<unit>>, source: TraceSource, payload: TraceValue)

  /** What the records of one chunk have told so far. */
  datatype Progress = Progress(tables: Tables, raws: seq<RawEvent>)

  function GetString(t: Tables, ref: nat): Result<seq<unit>> {
    if ref in t.strings then Success(t.strings[ref]) else Failure
  }

  function GetPlayer(t: Tables, ref: nat): Result<PlayerDefinition> {
    if ref in t.players then Success(t.players[ref]) else Failure
  }

  /** Reads a string reference. */
  function TakeStringRef(b: bytes, t: Tables): (r: Result<Parsed<seq<unit>>>)
    ensures r.Success? ==> |r.value.1| < |b|
  {
    var (ref, rest) :- TakeVarUint(b);
    var s :- GetString(t, ref);
    Success((s, rest))
  }

  /** Reads an optional string reference, shifted by one so that zero means absent. */
  function TakeOptionalRef(b: bytes, t: Tables): (r: Result<Parsed<Option<seq<unit>>>>)
    ensures r.Success? ==> |r.value.1| < |b|
  {
    var (shifted, rest) :- TakeVarUint(b);
    if shifted == 0 then Success((None, rest))
    else
      var s :- GetString(t, shifted - 1);
      Success((Some(s), rest))
  }

  function KindOf(code: byte): Result<SourceKind> {
    match code
    case 0 => Success(Game)
    case 1 => Success(State)
    case 2 => Success(SourceKind.Component)
    case 3 => Success(Runner)
    case 4 => Success(Timer)
    case 5 => Success(Participation)
    case 6 => Success(Connection)
    case 7 => Success(System)
    case _ => Failure
  }

  function TakeSource(b: bytes, t: Tables): (r: Result<Parsed<TraceSource>>)
    ensures r.Success? ==> |r.value.1| < |b|
  {
    var (code, b1) :- TakeByte(b);
    var kind :- KindOf(code);
    var (shifted, b2) :- TakeVarUint(b1);
    var (name, b3) :- TakeOptionalRef(b2, t);
    Success((TraceSource(kind, if shifted == 0 then None else Some(shifted - 1), name), b3))
  }

  // ---------- built-in payloads ----------

  function TakePlayerId(b: bytes, t: Tables): (r: Result<Parsed<seq<unit>>>)
    ensures r.Success? ==> |r.value.1| < |b|
  {
    var (ref, rest) :- TakeVarUint(b);
    var p :- GetPlayer(t, ref);
    Success((p.id, rest))
  }

  function TakeValue(b: bytes, t: Tables): (r: Result<Parsed<TraceValue>>)
    ensures r.Success? ==> |r.value.1| < |b|
    decreases |b|, 0
  {
    if b == [] then Failure
    else
      match b[0]
      case 0 => Success((Null, b[1..]))
      case 1 => Success((Bool(false), b[1..]))
      case 2 => Success((Bool(true), b[1..]))
      case 3 =>
        var (n, rest) :- TakeVarUint(b[1..]);
        Success((Num(Whole(n)), rest))
      case 4 =>
        var (n, rest) :- TakeVarInt(b[1..]);
        Success((Num(Whole(n)), rest))
      case 5 =>
        var (n, rest) :- TakeFloat64(b[1..]);
        Success((Num(n), rest))
      case 6 =>
        var (s, rest) :- TakeStringRef(b[1..], t);
        Success((Text(s), rest))
      case 7 =>
        var (n, rest) :- TakeVarUint(b[1..]);
        var (items, rest') :- TakeItems(rest, t, n);
        Success((Arr(items), rest'))
      case 8 =>
        var (n, rest) :- TakeVarUint(b[1..]);
        var (es, rest') :- TakeProperties(rest, t, n, []);
        Success((Obj(es), rest'))
      case 9 =>
        var (id, rest) :- TakePlayerId(b[1..], t);
        Success((Text(id), rest))
      case _ => Failure
  }

  function TakeItems(b: bytes, t: Tables, n: nat): (r: Result<Parsed<seq<TraceValue>>>)
    ensures r.Success? ==> |r.value.1| <= |b|
    decreases |b|, n
  {
    if n == 0 then Success(([], b))
    else
      var (first, rest) :- TakeValue(b, t);
      var (more, rest') :- TakeItems(rest, t, n - 1);
      Success(([first] + more, rest'))
  }

  function TakeProperties(b: bytes, t: Tables, n: nat, sofar: seq<Entry>): (r: Result<Parsed<seq<Entry>>>)
    ensures r.Success? ==> |r.value.1| <= |b|
    decreases |b|, n
  {
    if n == 0 then Success((sofar, b))
    else
      var (key, rest) :- TakeStringRef(b, t);
      var (value, rest') :- TakeValue(rest, t);
      TakeProperties(rest', t, n - 1, Put(sofar, key, value))
  }

  // ---------- custom payloads ----------

  /** Bit `i` of a bit set; bits beyond its end are clear. */
  predicate Bit(bitset: bytes, i: nat) {
    i / 8 < |bitset| && BitOf(bitset[i / 8], i % 8)
  }

  function TakeField(b: bytes, t: Tables, code: byte): (r: Result<Parsed<TraceValue>>)
    ensures r.Success? ==> |r.value.1| < |b|
  {
    match code
    case 0 =>
      var (x, rest) :- TakeByte(b);
      Success((Bool(x != 0), rest))
    case 1 =>
      var (n, rest) :- TakeVarUint(b);
      Success((Num(Whole(n)), rest))
    case 2 =>
      var (n, rest) :- TakeVarInt(b);
      Success((Num(Whole(n)), rest))
    case 3 =>
      var (n, rest) :- TakeFloat64(b);
      Success((Num(n), rest))
    case 4 =>
      var (s, rest) :- TakeStringRef(b, t);
      Success((Text(s), rest))
    case 5 =>
      var (id, rest) :- TakePlayerId(b, t);
      Success((Text(id), rest))
    case _ => Failure
  }

  /** The fields that follow the bit set; `index` counts the optional ones met so far. */
  function TakeFields(b: bytes, t: Tables, fields: seq<SchemaField>, bitset: bytes, index: nat, sofar: seq<Entry>):
    (r: Result<Parsed<seq<Entry>>>)
    ensures r.Success? ==> |r.value.1| <= |b|
    decreases |fields|
  {
    if fields == [] then Success((sofar, b))
    else
      var f := fields[0];
      var next := if f.optional then index + 1 else index;
      if f.optional && !Bit(bitset, index) then TakeFields(b, t, fields[1..], bitset, next, sofar)
      else
        var (value, rest) :- TakeField(b, t, f.code);
        TakeFields(rest, t, fields[1..], bitset, next, Put(sofar, f.name, value))
  }

  function TakeCustomPayload(b: bytes, t: Tables, fields: seq<SchemaField>): (r: Result<Parsed<TraceValue>>)
    ensures r.Success? ==> |r.value.1| < |b|
  {
    var (length, b1) :- TakeVarUint(b);
    var (bitset, b2) :- TakeBytes(b1, length);
    var (es, b3) :- TakeFields(b2, t, fields, bitset, 0, []);
    Success((Obj(es), b3))
  }

  // ---------- records ----------

  function TakeFieldDefinitions(b: bytes, t: Tables, n: nat): (r: Result<Parsed<seq<SchemaField>>>)
    ensures r.Success? ==> |r.value.1| <= |b|
    decreases n
  {
    if n == 0 then Success(([], b))
    else
      var (name, b1) :- TakeStringRef(b, t);
      var (code, b2) :- TakeByte(b1);
      var (optional, b3) :- TakeByte(b2);
      var (more, b4) :- TakeFieldDefinitions(b3, t, n - 1);
      Success(([SchemaField(name, code, optional != 0)] + more, b4))
  }

  function TakePayload(b: bytes, t: Tables, typeId: nat): (r: Result<Parsed<TraceValue>>)
    ensures r.Success? ==> |r.value.1| < |b|
  {
    if typeId in t.schemas then TakeCustomPayload(b, t, t.schemas[typeId].fields) else TakeValue(b, t)
  }

  function TakeEvent(b: bytes, t: Tables): (r: Result<Parsed<RawEvent>>)
    ensures r.Success? ==> |r.value.1| < |b|
  {
    var (delta, b1) :- TakeVarUint(b);
    var (typeId, b2) :- TakeVarUint(b1);
    var (source, b3) :- TakeSource(b2, t);
    var (payload, b4) :- TakePayload(b3, t, typeId);
    var name := if typeId in t.schemas then Some(t.schemas[typeId].name) else None;
    Success((RawEvent(delta, typeId, name, source, payload), b4))
  }

  function TakeStringDefinition(b: bytes, t: Tables): (r: Result<Parsed<Tables>>)
    ensures r.Success? ==> |r.value.1| < |b|
  {
    var (id, b1) :- TakeVarUint(b);
    var (s, b2) :- TakeString(b1);
    Success((t.(strings := t.strings[id := s]), b2))
  }

  function TakePlayerDefinition(b: bytes, t: Tables): (r: Result<Parsed<Tables>>)
    ensures r.Success? ==> |r.value.1| < |b|
  {
    var (ref, b1) :- TakeVarUint(b);
    var (id, b2) :- TakeStringRef(b1, t);
    var (name, b3) :- TakeOptionalRef(b2, t);
    Success((t.(players := t.players[ref := PlayerDefinition(id, name)]), b3))
  }

  function TakeStateDefinition(b: bytes, t: Tables): (r: Result<Parsed<Tables>>)
    ensures r.Success? ==> |r.value.1| < |b|
  {
    var (ref, b1) :- TakeVarUint(b);
    var (name, b2) :- TakeStringRef(b1, t);
    Success((t.(states := t.states[ref := name]), b2))
  }

  function TakeComponentDefinition(b: bytes, t: Tables): (r: Result<Parsed<Tables>>)
    ensures r.Success? ==> |r.value.1| < |b|
  {
    var (ref, b1) :- TakeVarUint(b);
    var (stateRef, b2) :- TakeVarUint(b1);
    var (name, b3) :- TakeStringRef(b2, t);
    var (tag, b4) :- TakeOptionalRef(b3, t);
    Success((t.(components := t.components[ref := ComponentDefinition(stateRef, name, tag)]), b4))
  }

  function TakeSchemaDefinition(b: bytes, t: Tables): (r: Result<Parsed<Tables>>)
    ensures r.Success? ==> |r.value.1| < |b|
  {
    var (typeId, b1) :- TakeVarUint(b);
    var (name, b2) :- TakeStringRef(b1, t);
    var (count, b3) :- TakeVarUint(b2);
    var (fields, b4) :- TakeFieldDefinitions(b3, t, count);
    Success((t.(schemas := t.schemas[typeId := SchemaDefinition(name, fields)]), b4))
  }

  function TakeDefinition(tag: byte, b: bytes, t: Tables): (r: Result<Parsed<Tables>>)
    ensures r.Success? ==> |r.value.1| < |b|
  {
    match tag
    case 1 => TakeStringDefinition(b, t)
    case 2 => TakePlayerDefinition(b, t)
    case 3 => TakeStateDefinition(b, t)
    case 4 => TakeComponentDefinition(b, t)
    case 5 => TakeSchemaDefinition(b, t)
    case _ => Failure
  }

  /** One record: a definition that extends the tables, or an event. */
  function TakeRecord(b: bytes, p: Progress): (r: Result<Parsed<Progress>>)
    ensures r.Success? ==> |r.value.1| < |b|
  {
    if b == [] then Failure
    else if b[0] == 16 then
      var (event, rest) :- TakeEvent(b[1..], p.tables);
      Success((p.(raws := p.raws + [event]), rest))
    else
      var (tables, rest) :- TakeDefinition(b[0], b[1..], p.tables);
      Success((p.(tables := tables), rest))
  }

  /** All records up to the end of the chunk. */
  function Records(b: bytes, p: Progress): Result<Progress>
    decreases |b|
  {
    if b == [] then Success(p)
    else
      var (p', rest) :- TakeRecord(b, p);
      Records(rest, p')
  }

  // ---------- chunks and files ----------

  /** Sequences count up from `first`; ticks accumulate from `tick`. */
  function Assemble(first: nat, tick: nat, raws: seq<RawEvent>): seq<TraceEvent>
    decreases raws
  {
    if raws == [] then []
    else
      var r := raws[0];
      [TraceEvent(first, tick + r.delta, r.typeId, r.schemaName, r.source, r.payload)]
        + Assemble(first + 1, tick + r.delta, raws[1..])
  }

  function LastTick(tick: nat, raws: seq<RawEvent>): nat
    decreases raws
  {
    if raws == [] then tick else LastTick(tick + raws[0].delta, raws[1..])
  }

  lemma {:induction false} AssembleLast(first: nat, tick: nat, raws: seq<RawEvent>, r: RawEvent)
    ensures LastTick(tick, raws + [r]) == LastTick(tick, raws) + r.delta
    ensures Assemble(first, tick, raws + [r]) ==
      Assemble(first, tick, raws)
      + [TraceEvent(first + |raws|, LastTick(tick, raws) + r.delta, r.typeId, r.schemaName, r.source, r.payload)]
    decreases raws
  {
    if raws == [] {
      assert [] + [r] == [r];
    } else {
      AssembleLast(first + 1, tick + raws[0].delta, raws[1..], r);
      assert (raws + [r])[1..] == raws[1..] + [r];
    }
  }

  lemma {:induction false} AssembleLength(first: nat, tick: nat, raws: seq<RawEvent>)
    ensures |Assemble(first, tick, raws)| == |raws|
    decreases raws
  {
    if raws != [] {
      AssembleLength(first + 1, tick + raws[0].delta, raws[1..]);
    }
  }

  datatype ChunkHead = ChunkHead(index: nat, firstSequence: nat, baseTick: nat, eventCount: nat)

  function TakeChunkHead(b: bytes): Result<Parsed<ChunkHead>> {
    var (magic, b1) :- TakeBytes(b, 4);
    if magic != CHUNK_MAGIC then Failure
    else
      var (version, b2) :- TakeByte(b1);
      if version != FORMAT_VERSION then Failure
      else
        var (index, b3) :- TakeVarUint(b2);
        var (first, b4) :- TakeVarUint(b3);
        var (tick, b5) :- TakeVarUint(b4);
        var (count, b6) :- TakeVarUint(b5);
        Success((ChunkHead(index, first, tick, count), b6))
  }

  function DecodedChunk(b: bytes, t: Tables): Result<(Tables, seq<TraceEvent>)> {
    var (head, body) :- TakeChunkHead(b);
    var p :- Records(body, Progress(t, []));
    if |p.raws| != head.eventCount then Failure
    else Success((p.tables, Assemble(head.firstSequence, head.baseTick, p.raws)))
  }

  /** The chunks in order, each under the tables left by the ones before. */
  function DecodedChunks(chunks: seq<bytes>, t: Tables): Result<(Tables, seq<TraceEvent>)> {
    if chunks == [] then Success((t, []))
    else
      var (t1, first) :- DecodedChunk(chunks[0], t);
      var (t2, more) :- DecodedChunks(chunks[1..], t1);
      Success((t2, first + more))
  }

  /** Unknown tags, codes and references are refused. */
  lemma UnknownRefused(b: bytes, t: Tables, p: Progress, code: byte, ref: nat)
    ensures b != [] && b[0] > 9 ==> TakeValue(b, t) == Failure
    ensures b != [] && b[0] !in {1, 2, 3, 4, 5, 16} ==> TakeRecord(b, p) == Failure
    ensures b != [] && b[0] > 7 ==> TakeSource(b, t) == Failure
    ensures code > 5 ==> TakeField(b, t, code) == Failure
    ensures GetString(t, ref) == (if ref in t.strings then Success(t.strings[ref]) else Failure)
    ensures ref !in t.players ==> GetPlayer(t, ref) == Failure
  {
    hide TakeVarUint, TakeVarInt, TakeFloat64, TakeStringRef, TakePlayerId, TakeItems, TakeProperties, TakeEvent, TakeOptionalRef;
  }

  /** A chunk begins with "BGTC" and format version 1 and has as many events as its head says, or it is refused. */
  lemma OtherChunksRefused(b: bytes, t: Tables)
    requires DecodedChunk(b, t).Success?
    ensures |b| > 5 && b[..5] == [66, 71, 84, 67, 1]
    ensures TakeChunkHead(b).Success? && |DecodedChunk(b, t).value.1| == TakeChunkHead(b).value.0.eventCount
  {
    hide Records, TakeVarUint, Assemble;
    assert b[..5] == b[..4] + [b[4]];
    var p := Records(TakeChunkHead(b).value.1, Progress(t, [])).value;
    AssembleLength(TakeChunkHead(b).value.0.firstSequence, TakeChunkHead(b).value.0.baseTick, p.raws);
  }

  lemma {:induction false} DecodedChunksLast(chunks: seq<bytes>, t: Tables, last: bytes)
    requires DecodedChunks(chunks, t).Success?
    ensures var (t1, events) := DecodedChunks(chunks, t).value;
      DecodedChunks(chunks + [last], t) ==
      match DecodedChunk(last, t1)
      case Success((t2, more)) => Success((t2, events + more))
      case Failure => Failure
  {
    hide DecodedChunk;
    if chunks == [] {
      assert chunks + [last] == [last] && [last][1..] == [];
      assert forall s: seq<TraceEvent> :: s + [] == s && [] + s == s;
      assert forall u: Tables :: DecodedChunks([], u) == Success((u, []));
    } else {
      var (t1, first) := DecodedChunk(chunks[0], t).value;
      DecodedChunksLast(chunks[1..], t1, last);
      assert (chunks + [last])[1..] == chunks[1..] + [last];
      assert forall a: seq<TraceEvent>, b: seq<TraceEvent> :: first + (a + b) == first + a + b;
    }
  }

  datatype DecodedTrace = DecodedTrace(header: SessionHeader, end: SessionEnd, events: seq<TraceEvent>)

  function DecodedFile(b: bytes): Result<DecodedTrace> {
    var file :- ReadFile(b);
    var (_, events) :- DecodedChunks(file.chunks, EMPTY_TABLES);
    if |events| != file.end.eventCount then Failure else Success(DecodedTrace(file.header, file.end, events))
  }
}
