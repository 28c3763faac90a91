/**
 * The decoder of packages/trace/src/wire/decoder.ts as it runs: a reader whose offset
 * advances, tables that are filled and a list of events that grows. Every method does
 * what the functions of `Decoder` say.
 */
module DecoderReader {
  import opened Wrappers
  import opened Bytes
  import opened Binary
  import opened TraceTypes
  import opened Container
  import opened Decoder
  import RawValues

  method ReadStringRef(reader: BinaryReader, t: Tables) returns (r: Result<seq<unit>>)
    requires reader.Valid()
    modifies reader
    ensures reader.Follows(TakeStringRef(old(reader.Rest()), t), r)
  {
    hide TakeVarUint;
    var ref := reader.ReadVarUint();
    if ref.Failure? { return Failure; }
    return GetString(t, ref.value);
  }

  method ReadOptionalRef(reader: BinaryReader, t: Tables) returns (r: Result<Option<seq<unit>>>)
    requires reader.Valid()
    modifies reader
    ensures reader.Follows(TakeOptionalRef(old(reader.Rest()), t), r)
  {
    hide TakeVarUint;
    var shifted := reader.ReadVarUint();
    if shifted.Failure? { return Failure; }
    if shifted.value == 0 { return Success(None); }
    var s := GetString(t, shifted.value - 1);
    return if s.Success? then Success(Some(s.value)) else Failure;
  }

  method ReadPlayerId(reader: BinaryReader, t: Tables) returns (r: Result<seq<unit>>)
    requires reader.Valid()
    modifies reader
    ensures reader.Follows(TakePlayerId(old(reader.Rest()), t), r)
  {
    hide TakeVarUint;
    var ref := reader.ReadVarUint();
    if ref.Failure? { return Failure; }
    var p := GetPlayer(t, ref.value);
    return if p.Success? then Success(p.value.id) else Failure;
  }

  method ReadSource(reader: BinaryReader, t: Tables) returns (r: Result<TraceSource>)
    requires reader.Valid()
    modifies reader
    ensures reader.Follows(TakeSource(old(reader.Rest()), t), r)
  {
    hide TakeVarUint, TakeOptionalRef;
    var code := reader.ReadByte();
    if code.Failure? { return Failure; }
    var kind := KindOf(code.value);
    if kind.Failure? { return Failure; }
    var shifted := reader.ReadVarUint();
    if shifted.Failure? { return Failure; }
    var name := ReadOptionalRef(reader, t);
    if name.Failure? { return Failure; }
    return Success(TraceSource(kind.value, if shifted.value == 0 then None else Some(shifted.value - 1), name.value));
  }

  method ReadValue(reader: BinaryReader, t: Tables) returns (r: Result<TraceValue>)
    requires reader.Valid()
    modifies reader
    ensures reader.Follows(TakeValue(old(reader.Rest()), t), r)
    decreases |reader.Rest()|, 0
  {
    hide TakeVarUint, TakeVarInt, TakeFloat64, TakeStringRef, TakePlayerId, TakeItems, TakeProperties;
    var tag := reader.ReadByte();
    if tag.Failure? { return Failure; }
    match tag.value {
      case 0 => return Success(Null);
      case 1 => return Success(Bool(false));
      case 2 => return Success(Bool(true));
      case 3 =>
        var n := reader.ReadVarUint();
        return if n.Success? then Success(Num(Whole(n.value))) else Failure;
      case 4 =>
        var n := reader.ReadVarInt();
        return if n.Success? then Success(Num(Whole(n.value))) else Failure;
      case 5 =>
        var n := reader.ReadFloat64();
        return if n.Success? then Success(Num(n.value)) else Failure;
      case 6 =>
        var s := ReadStringRef(reader, t);
        return if s.Success? then Success(Text(s.value)) else Failure;
      case 7 =>
        var length := reader.ReadVarUint();
        if length.Failure? { return Failure; }
        var items := ReadItems(reader, t, length.value);
        return if items.Success? then Success(Arr(items.value)) else Failure;
      case 8 =>
        var length := reader.ReadVarUint();
        if length.Failure? { return Failure; }
        var entries := ReadProperties(reader, t, length.value);
        return if entries.Success? then Success(Obj(entries.value)) else Failure;
      case 9 =>
        var id := ReadPlayerId(reader, t);
        return if id.Success? then Success(Text(id.value)) else Failure;
      case _ => return Failure;
    }
  }

  /** The loop over the elements of an array. */
  method ReadItems(reader: BinaryReader, t: Tables, count: nat) returns (r: Result<seq<TraceValue>>)
    requires reader.Valid()
    modifies reader
    ensures reader.Follows(TakeItems(old(reader.Rest()), t, count), r)
    decreases |reader.Rest()|, count + 1
  {
    hide TakeValue;
    var items: seq<TraceValue> := [];
    ghost var body := TakeItems(reader.Rest(), t, count);
    RawValues.JoinedNothing(body);
    for i := 0 to count
      invariant reader.Valid() && |reader.Rest()| <= old(|reader.Rest()|)
      invariant body == RawValues.Joined(items, TakeItems(reader.Rest(), t, count - i))
    {
      var v := ReadValue(reader, t);
      if v.Failure? { return Failure; }
      RawValues.JoinedTwice(items, v.value, TakeItems(reader.Rest(), t, count - i - 1));
      items := items + [v.value];
    }
    assert items + [] == items;
    return Success(items);
  }

  /** The loop over the own entries of an object. */
  method ReadProperties(reader: BinaryReader, t: Tables, count: nat) returns (r: Result<seq<Entry>>)
    requires reader.Valid()
    modifies reader
    ensures reader.Follows(TakeProperties(old(reader.Rest()), t, count, []), r)
    decreases |reader.Rest()|, count + 1
  {
    hide TakeValue, TakeStringRef, Put;
    var entries: seq<Entry> := [];
    ghost var body := TakeProperties(reader.Rest(), t, count, []);
    for i := 0 to count
      invariant reader.Valid() && |reader.Rest()| <= old(|reader.Rest()|)
      invariant body == TakeProperties(reader.Rest(), t, count - i, entries)
    {
      var key := ReadStringRef(reader, t);
      if key.Failure? { return Failure; }
      var v := ReadValue(reader, t);
      if v.Failure? { return Failure; }
      entries := Put(entries, key.value, v.value);
    }
    return Success(entries);
  }

  method ReadCustomField(reader: BinaryReader, t: Tables, code: byte) returns (r: Result<TraceValue>)
    requires reader.Valid()
    modifies reader
    ensures reader.Follows(TakeField(old(reader.Rest()), t, code), r)
  {
    hide TakeVarUint, TakeVarInt, TakeFloat64, TakeStringRef, TakePlayerId;
    match code {
      case 0 =>
        var x := reader.ReadByte();
        return if x.Success? then Success(Bool(x.value != 0)) else Failure;
      case 1 =>
        var n := reader.ReadVarUint();
        return if n.Success? then Success(Num(Whole(n.value))) else Failure;
      case 2 =>
        var n := reader.ReadVarInt();
        return if n.Success? then Success(Num(Whole(n.value))) else Failure;
      case 3 =>
        var n := reader.ReadFloat64();
        return if n.Success? then Success(Num(n.value)) else Failure;
      case 4 =>
        var s := ReadStringRef(reader, t);
        return if s.Success? then Success(Text(s.value)) else Failure;
      case 5 =>
        var id := ReadPlayerId(reader, t);
        return if id.Success? then Success(Text(id.value)) else Failure;
      case _ => return Failure;
    }
  }

  method ReadCustomPayload(reader: BinaryReader, t: Tables, fields: seq<SchemaField>) returns (r: Result<TraceValue>)
    requires reader.Valid()
    modifies reader
    ensures reader.Follows(TakeCustomPayload(old(reader.Rest()), t, fields), r)
  {
    hide TakeVarUint, TakeFields;
    var length := reader.ReadVarUint();
    if length.Failure? { return Failure; }
    var bitset := reader.ReadBytes(length.value);
    if bitset.Failure? { return Failure; }
    var entries := ReadFields(reader, t, fields, bitset.value);
    return if entries.Success? then Success(Obj(entries.value)) else Failure;
  }

  /** The loop over the schema fields. */
  method ReadFields(reader: BinaryReader, t: Tables, fields: seq<SchemaField>, bitset: bytes) returns (r: Result<seq<Entry>>)
    requires reader.Valid()
    modifies reader
    ensures reader.Follows(TakeFields(old(reader.Rest()), t, fields, bitset, 0, []), r)
  {
    hide TakeField, Bit, Put;
    var optionalIndex := 0;
    var entries: seq<Entry> := [];
    assert fields[0..] == fields;
    for i := 0 to |fields|
      invariant reader.Valid()
      invariant TakeFields(old(reader.Rest()), t, fields, bitset, 0, []) ==
        TakeFields(reader.Rest(), t, fields[i..], bitset, optionalIndex, entries)
    {
      var field := fields[i];
      assert fields[i..][0] == field && fields[i..][1..] == fields[i + 1..];
      var present := true;
      if field.optional {
        present := Bit(bitset, optionalIndex);
        optionalIndex := optionalIndex + 1;
      }
      if present {
        var v := ReadCustomField(reader, t, field.code);
        if v.Failure? { return Failure; }
        entries := Put(entries, field.name, v.value);
      }
    }
    return Success(entries);
  }

  method ReadEvent(reader: BinaryReader, t: Tables) returns (r: Result<RawEvent>)
    requires reader.Valid()
    modifies reader
    ensures reader.Follows(TakeEvent(old(reader.Rest()), t), r)
  {
    hide TakeVarUint, TakeSource, TakeCustomPayload, TakeValue;
    var delta := reader.ReadVarUint();
    if delta.Failure? { return Failure; }
    var typeId := reader.ReadVarUint();
    if typeId.Failure? { return Failure; }
    var source := ReadSource(reader, t);
    if source.Failure? { return Failure; }
    if typeId.value in t.schemas {
      var schema := t.schemas[typeId.value];
      var payload := ReadCustomPayload(reader, t, schema.fields);
      if payload.Failure? { return Failure; }
      return Success(RawEvent(delta.value, typeId.value, Some(schema.name), source.value, payload.value));
    }
    var payload := ReadValue(reader, t);
    if payload.Failure? { return Failure; }
    return Success(RawEvent(delta.value, typeId.value, None, source.value, payload.value));
  }

  method ReadStringDefinition(reader: BinaryReader, t: Tables) returns (r: Result<Tables>)
    requires reader.Valid()
    modifies reader
    ensures reader.Follows(TakeStringDefinition(old(reader.Rest()), t), r)
  {
    hide TakeVarUint, TakeString;
    var id := reader.ReadVarUint();
    if id.Failure? { return Failure; }
    var s := reader.ReadString();
    if s.Failure? { return Failure; }
    return Success(t.(strings := t.strings[id.value := s.value]));
  }

  method ReadPlayerDefinition(reader: BinaryReader, t: Tables) returns (r: Result<Tables>)
    requires reader.Valid()
    modifies reader
    ensures reader.Follows(TakePlayerDefinition(old(reader.Rest()), t), r)
  {
    hide TakeVarUint, TakeStringRef, TakeOptionalRef;
    var ref := reader.ReadVarUint();
    if ref.Failure? { return Failure; }
    var id := ReadStringRef(reader, t);
    if id.Failure? { return Failure; }
    var name := ReadOptionalRef(reader, t);
    if name.Failure? { return Failure; }
    return Success(t.(players := t.players[ref.value := PlayerDefinition(id.value, name.value)]));
  }

  method ReadStateDefinition(reader: BinaryReader, t: Tables) returns (r: Result<Tables>)
    requires reader.Valid()
    modifies reader
    ensures reader.Follows(TakeStateDefinition(old(reader.Rest()), t), r)
  {
    hide TakeVarUint, TakeStringRef;
    var ref := reader.ReadVarUint();
    if ref.Failure? { return Failure; }
    var name := ReadStringRef(reader, t);
    if name.Failure? { return Failure; }
    return Success(t.(states := t.states[ref.value := name.value]));
  }

  method ReadComponentDefinition(reader: BinaryReader, t: Tables) returns (r: Result<Tables>)
    requires reader.Valid()
    modifies reader
    ensures reader.Follows(TakeComponentDefinition(old(reader.Rest()), t), r)
  {
    hide TakeVarUint, TakeStringRef, TakeOptionalRef;
    var ref := reader.ReadVarUint();
    if ref.Failure? { return Failure; }
    var stateRef := reader.ReadVarUint();
    if stateRef.Failure? { return Failure; }
    var name := ReadStringRef(reader, t);
    if name.Failure? { return Failure; }
    var tag := ReadOptionalRef(reader, t);
    if tag.Failure? { return Failure; }
    return Success(t.(components := t.components[ref.value := ComponentDefinition(stateRef.value, name.value, tag.value)]));
  }

  ghost function Defined(done: seq<SchemaField>, r: Result<Parsed<seq<SchemaField>>>): Result<Parsed<seq<SchemaField>>> {
    if r.Success? then Success((done + r.value.0, r.value.1)) else Failure
  }

  method ReadFieldDefinitions(reader: BinaryReader, t: Tables, count: nat) returns (r: Result<seq<SchemaField>>)
    requires reader.Valid()
    modifies reader
    ensures reader.Follows(TakeFieldDefinitions(old(reader.Rest()), t, count), r)
  {
    hide TakeStringRef;
    var fields: seq<SchemaField> := [];
    assert forall s: seq<SchemaField> :: [] + s == s;
    for i := 0 to count
      invariant reader.Valid()
      invariant TakeFieldDefinitions(old(reader.Rest()), t, count) ==
        Defined(fields, TakeFieldDefinitions(reader.Rest(), t, count - i))
    {
      var name := ReadStringRef(reader, t);
      if name.Failure? { return Failure; }
      var code := reader.ReadByte();
      if code.Failure? { return Failure; }
      var optional := reader.ReadByte();
      if optional.Failure? { return Failure; }
      var field := SchemaField(name.value, code.value, optional.value != 0);
      assert forall s: seq<SchemaField> :: fields + ([field] + s) == fields + [field] + s;
      fields := fields + [field];
    }
    assert fields + [] == fields;
    return Success(fields);
  }

  method ReadSchemaDefinition(reader: BinaryReader, t: Tables) returns (r: Result<Tables>)
    requires reader.Valid()
    modifies reader
    ensures reader.Follows(TakeSchemaDefinition(old(reader.Rest()), t), r)
  {
    hide TakeVarUint, TakeStringRef, TakeFieldDefinitions;
    var typeId := reader.ReadVarUint();
    if typeId.Failure? { return Failure; }
    var name := ReadStringRef(reader, t);
    if name.Failure? { return Failure; }
    var count := reader.ReadVarUint();
    if count.Failure? { return Failure; }
    var fields := ReadFieldDefinitions(reader, t, count.value);
    if fields.Failure? { return Failure; }
    return Success(t.(schemas := t.schemas[typeId.value := SchemaDefinition(name.value, fields.value)]));
  }

  method ReadDefinition(reader: BinaryReader, tag: byte, t: Tables) returns (r: Result<Tables>)
    requires reader.Valid()
    modifies reader
    ensures reader.Follows(TakeDefinition(tag, old(reader.Rest()), t), r)
  {
    hide TakeStringDefinition, TakePlayerDefinition, TakeStateDefinition, TakeComponentDefinition, TakeSchemaDefinition;
    match tag {
      case 1 => r := ReadStringDefinition(reader, t);
      case 2 => r := ReadPlayerDefinition(reader, t);
      case 3 => r := ReadStateDefinition(reader, t);
      case 4 => r := ReadComponentDefinition(reader, t);
      case 5 => r := ReadSchemaDefinition(reader, t);
      case _ => r := Failure;
    }
  }

  method ReadChunkHead(reader: BinaryReader) returns (r: Result<ChunkHead>)
    requires reader.Valid()
    modifies reader
    ensures reader.Follows(TakeChunkHead(old(reader.Rest())), r)
  {
    hide TakeVarUint;
    var magic := reader.ReadBytes(4);
    if magic.Failure? || magic.value != CHUNK_MAGIC { return Failure; }
    var version := reader.ReadByte();
    if version.Failure? || version.value != FORMAT_VERSION { return Failure; }
    var index := reader.ReadVarUint();
    if index.Failure? { return Failure; }
    var first := reader.ReadVarUint();
    if first.Failure? { return Failure; }
    var tick := reader.ReadVarUint();
    if tick.Failure? { return Failure; }
    var count := reader.ReadVarUint();
    if count.Failure? { return Failure; }
    return Success(ChunkHead(index.value, first.value, tick.value, count.value));
  }

  function Recorded(raws: seq<RawEvent>, e: Option<RawEvent>): seq<RawEvent> {
    if e.Some? then raws + [e.value] else raws
  }

  /** Reads one record: new tables, and the event if it is one. */
  method ReadRecord(reader: BinaryReader, t: Tables, ghost raws: seq<RawEvent>) returns (r: Result<(Tables, Option<RawEvent>)>)
    requires reader.Valid()
    modifies reader
    ensures reader.Valid()
    ensures match TakeRecord(old(reader.Rest()), Progress(t, raws))
      case Success((p, rest)) => r.Success? && p == Progress(r.value.0, Recorded(raws, r.value.1)) && reader.Rest() == rest
      case Failure => r.Failure?
  {
    hide TakeEvent, TakeDefinition;
    var tag := reader.ReadByte();
    if tag.Failure? { return Failure; }
    if tag.value == 16 {
      var event := ReadEvent(reader, t);
      return if event.Success? then Success((t, Some(event.value))) else Failure;
    }
    var definition := ReadDefinition(reader, tag.value, t);
    return if definition.Success? then Success((definition.value, None)) else Failure;
  }

  /** Decodes one chunk: the tables grow and the events are appended to `output`. */
  method DecodeChunk(content: bytes, tables: Tables, output: seq<TraceEvent>) returns (r: Result<(Tables, seq<TraceEvent>)>)
    ensures r == match DecodedChunk(content, tables)
      case Success((t, events)) => Success((t, output + events))
      case Failure => Failure
  {
    hide TakeChunkHead, TakeRecord, Records, Assemble, LastTick, Output;
    var reader := new BinaryReader(content);
    var head := ReadChunkHead(reader);
    if head.Failure? { return Failure; }
    var t, events := tables, output;
    var eventIndex := 0;
    var previousTick := head.value.baseTick;
    ghost var body := reader.Rest();
    ghost var raws: seq<RawEvent> := [];
    NoOutput(output, head.value);
    while true
      invariant reader.Valid()
      invariant Records(body, Progress(tables, [])) == Records(reader.Rest(), Progress(t, raws))
      invariant events == Output(output, head.value, raws)
      invariant eventIndex == |raws| && previousTick == LastTick(head.value.baseTick, raws)
      decreases |reader.Rest()|
    {
      NextRecord(reader.Rest(), Progress(t, raws));
      var remaining := reader.Remaining();
      if remaining == 0 { break; }
      var record := ReadRecord(reader, t, raws);
      if record.Failure? { return Failure; }
      t := record.value.0;
      if record.value.1.Some? {
        var e := record.value.1.value;
        var tick := previousTick + e.delta;
        var event := TraceEvent(head.value.firstSequence + eventIndex, tick, e.typeId, e.schemaName, e.source, e.payload);
        OutputLast(output, head.value, raws, e);
        previousTick := tick;
        events := events + [event];
        eventIndex := eventIndex + 1;
        raws := raws + [e];
      }
    }
    OutputIs(output, head.value, raws);
    if eventIndex != head.value.eventCount { return Failure; }
    return Success((t, events));
  }

  /** What has been put out when `raws` were read. */
  ghost function Output(output: seq<TraceEvent>, head: ChunkHead, raws: seq<RawEvent>): seq<TraceEvent> {
    output + Assemble(head.firstSequence, head.baseTick, raws)
  }

  lemma OutputIs(output: seq<TraceEvent>, head: ChunkHead, raws: seq<RawEvent>)
    ensures Output(output, head, raws) == output + Assemble(head.firstSequence, head.baseTick, raws)
  {
  }

  lemma NoOutput(output: seq<TraceEvent>, head: ChunkHead)
    ensures Output(output, head, []) == output && LastTick(head.baseTick, []) == head.baseTick
  {
    assert output + [] == output;
  }

  lemma OutputLast(output: seq<TraceEvent>, head: ChunkHead, raws: seq<RawEvent>, e: RawEvent)
    ensures var tick := LastTick(head.baseTick, raws) + e.delta;
      && LastTick(head.baseTick, raws + [e]) == tick
      && Output(output, head, raws + [e]) ==
           Output(output, head, raws)
           + [TraceEvent(head.firstSequence + |raws|, tick, e.typeId, e.schemaName, e.source, e.payload)]
  {
    hide Assemble, LastTick;
    AssembleLast(head.firstSequence, head.baseTick, raws, e);
  }

  lemma NextRecord(b: bytes, p: Progress)
    ensures b == [] ==> Records(b, p) == Success(p)
    ensures b != [] && TakeRecord(b, p).Success? ==> Records(b, p) == Records(TakeRecord(b, p).value.1, TakeRecord(b, p).value.0)
    ensures b != [] && TakeRecord(b, p).Failure? ==> Records(b, p).Failure?
  {
  }

  /** Decodes a whole file. */
  method DecodeBegTrace(content: bytes) returns (r: Result<DecodedTrace>)
    ensures r == DecodedFile(content)
  {
    hide ReadFile, DecodedChunk;
    var file := DecodeBegTraceContainer(content);
    if file.Failure? { return Failure; }
    var tables, events := EMPTY_TABLES, [];
    var chunks := file.value.chunks;
    assert chunks[0..] == chunks;
    ghost var all := DecodedChunks(chunks, EMPTY_TABLES);
    Following([], all);
    for i := 0 to |chunks|
      invariant all == Follow(events, DecodedChunks(chunks[i..], tables))
    {
      assert chunks[i..][0] == chunks[i] && chunks[i..][1..] == chunks[i + 1..];
      var one := DecodeChunk(chunks[i], tables, events);
      if one.Failure? { return Failure; }
      ghost var more := DecodedChunk(chunks[i], tables).value.1;
      FollowTwice(events, more, DecodedChunks(chunks[i + 1..], one.value.0));
      tables, events := one.value.0, one.value.1;
    }
    assert events + [] == events;
    if |events| != file.value.end.eventCount { return Failure; }
    return Success(DecodedTrace(file.value.header, file.value.end, events));
  }

  /** Events decoded so far come before those still to be decoded. */
  ghost function Follow(done: seq<TraceEvent>, r: Result<(Tables, seq<TraceEvent>)>): Result<(Tables, seq<TraceEvent>)> {
    if r.Success? then Success((r.value.0, done + r.value.1)) else Failure
  }

  lemma Following(done: seq<TraceEvent>, r: Result<(Tables, seq<TraceEvent>)>)
    ensures done == [] ==> Follow(done, r) == r
  {
    if r.Success? {
      assert [] + r.value.1 == r.value.1;
    }
  }

  lemma FollowTwice(done: seq<TraceEvent>, more: seq<TraceEvent>, r: Result<(Tables, seq<TraceEvent>)>)
    ensures Follow(done, Follow(more, r)) == Follow(done + more, r)
  {
    if r.Success? {
      assert done + (more + r.value.1) == done + more + r.value.1;
    }
  }
}
