/**
 * `TraceSession` of packages/trace/src/runtime/session.ts. The ghost field `log` lists the
 * events accepted so far; `Valid` says that decoding what has been written yields exactly
 * that list, as long as no counter has left the safe-integer range.
 */
module Session {
  import opened Wrappers
  import opened Bytes
  import opened Float64
  import opened Binary
  import opened TraceTypes
  import opened Container
  import opened Decoder
  import opened SessionWire
  import opened SchemaSignatures

  datatype ActiveChunk = ActiveChunk(
    index: nat, eventCount: nat, firstSequence: nat, lastSequence: nat,
    startTick: nat, endTick: nat, previousTick: nat)

  /** The own fields of a schema object: an object's entries, so fewer than 2^32 and with distinct names. */
  type FieldList = fs: seq<FieldSpec> | |fs| < 0x1_0000_0000 && DistinctNames(fs)

  datatype EventSchema = EventSchema(name: HostString, fields: FieldList)

  datatype CustomSchema = CustomSchema(typeId: nat, fields: FieldList)

  /** What an event carries: a built-in value, or the fields of a registered schema. */
  datatype EventBody = Builtin(value: InputValue) | Custom(name: HostString, fields: FieldList, values: Payload)

  predicate BodyEncodable(body: EventBody) {
    match body
    case Builtin(v) => Encodable(v)
    case Custom(_, fields, values) => PayloadEncodable(fields, values)
  }

  function BodyMeaning(body: EventBody): TraceValue {
    match body
    case Builtin(v) => Meaning(v)
    case Custom(_, fields, values) => Obj(Project(fields, values))
  }

  function BodyName(body: EventBody): Option<seq<unit>> {
    if body.Custom? then Some(body.name) else None
  }

  /** How many ids preparing a value can take up: one for a text, and up to three for a player. */
  function ValueCost(v: InputValue): nat
    decreases v
  {
    match v
    case InText(_) => 1
    case InPlayer(_, _) => 3
    case InArr(items) => ItemsCost(items)
    case InObj(es) => EntriesCost(es)
    case _ => 0
  }

  function ItemsCost(items: seq<InputValue>): nat
    decreases items
  {
    if items == [] then 0 else ItemsCost(items[..|items| - 1]) + ValueCost(items[|items| - 1])
  }

  function EntriesCost(es: seq<InputEntry>): nat
    decreases es
  {
    if es == [] then 0 else EntriesCost(es[..|es| - 1]) + 1 + ValueCost(es[|es| - 1].value)
  }

  /** An unusable tick reads as zero. */
  function CurrentTick(tick: int): (t: nat)
    ensures t <= MAX_SAFE
  {
    if 0 <= tick <= MAX_SAFE then tick else 0
  }

  function Contents(chunks: seq<TraceChunk>): (r: seq<bytes>)
    ensures |r| == |chunks|
  {
    if chunks == [] then [] else [chunks[0].content] + Contents(chunks[1..])
  }

  lemma {:induction false} ContentsLast(chunks: seq<TraceChunk>, c: TraceChunk)
    ensures Contents(chunks + [c]) == Contents(chunks) + [c.content]
  {
    if chunks == [] {
      assert chunks + [c] == [c] && [c][1..] == [];
    } else {
      assert (chunks + [c])[1..] == chunks[1..] + [c];
      ContentsLast(chunks[1..], c);
    }
  }

  /** Events told by the first `k` chunks. */
  function Told(chunks: seq<TraceChunk>, k: nat): nat
    requires k <= |chunks|
  {
    if k == 0 then 0 else chunks[k - 1].lastSequence
  }

  ghost predicate TellsPrefix(chunks: seq<TraceChunk>, log: seq<TraceEvent>, k: nat) {
    && k <= |chunks|
    && Told(chunks, k) <= |log|
    && DecodedChunks(Contents(chunks[..k]), EMPTY_TABLES).Success?
    && DecodedChunks(Contents(chunks[..k]), EMPTY_TABLES).value.1 == log[..Told(chunks, k)]
  }

  /** Every number of leading chunks decodes to the leading events. */
  ghost predicate TellsPrefixes(chunks: seq<TraceChunk>, log: seq<TraceEvent>) {
    forall k :: 0 <= k <= |chunks| ==> TellsPrefix(chunks, log, k)
  }

  /** The events of the active chunk continue the sealed ones. */
  ghost predicate Continues(active: ActiveChunk, raws: seq<RawEvent>, log: seq<TraceEvent>, told: nat) {
    && told + active.eventCount == |log|
    && |raws| == active.eventCount
    && active.startTick <= MAX_SAFE && active.previousTick <= MAX_SAFE
    && (active.eventCount > 0 ==>
          && active.firstSequence == told + 1
          && active.lastSequence == |log|
          && log[told..] == Assemble(active.firstSequence, active.startTick, raws)
          && active.previousTick == LastTick(active.startTick, raws)
          && log[told].tick == active.startTick && log[|log| - 1].tick == active.previousTick)
  }

  /** The numbers of a chunk are those of its events: it goes on where the one before ends, and starts and ends with their ticks. */
  predicate Metered(chunks: seq<TraceChunk>, log: seq<TraceEvent>) {
    forall k :: 0 <= k < |chunks| ==> Meters(chunks[k], Told(chunks, k), log)
  }

  predicate Meters(c: TraceChunk, before: nat, log: seq<TraceEvent>) {
    && c.firstSequence == before + 1 && c.eventCount == c.lastSequence - before && c.firstSequence <= c.lastSequence <= |log|
    && c.startTick == log[c.firstSequence - 1].tick && c.endTick == log[c.lastSequence - 1].tick
  }

  lemma MeteredLonger(chunks: seq<TraceChunk>, log: seq<TraceEvent>, event: TraceEvent)
    requires Metered(chunks, log)
    ensures Metered(chunks, log + [event])
  {
    forall k | 0 <= k < |chunks| ensures Meters(chunks[k], Told(chunks, k), log + [event]) {
      assert Meters(chunks[k], Told(chunks, k), log);
    }
  }

  lemma NextMetered(
    chunks: seq<TraceChunk>, c: TraceChunk, sequence: nat, log: seq<TraceEvent>, chunkCount: nat, active: ActiveChunk, raws: seq<RawEvent>,
    maxSpan: int)
    requires Counted(sequence, log, chunkCount, chunks, active, raws) && Metered(chunks, log) && active.eventCount > 0
    requires InSpan(active, maxSpan)
    requires c.firstSequence == active.firstSequence && c.lastSequence == active.lastSequence && c.eventCount == active.eventCount
    requires c.startTick == active.startTick && c.endTick == active.endTick
    ensures Metered(chunks + [c], log)
  {
    hide Meters, Continues, WithinSpan;
    var all := chunks + [c];
    ActiveMeters(c, Told(chunks, |chunks|), log, active, raws, maxSpan);
    forall k | 0 <= k < |all| ensures Meters(all[k], Told(all, k), log) {
      assert Told(all, k) == Told(chunks, k);
      if k < |chunks| {
        assert all[k] == chunks[k];
      }
    }
  }

  /** A chunk with the numbers of the active one goes on where the sealed ones end. */
  lemma ActiveMeters(c: TraceChunk, told: nat, log: seq<TraceEvent>, active: ActiveChunk, raws: seq<RawEvent>, maxSpan: int)
    requires Continues(active, raws, log, told) && InSpan(active, maxSpan) && active.eventCount > 0
    requires c.firstSequence == active.firstSequence && c.lastSequence == active.lastSequence && c.eventCount == active.eventCount
    requires c.startTick == active.startTick && c.endTick == active.endTick
    ensures Meters(c, told, log)
  {
    hide Assemble, LastTick, WithinSpan;
  }

  function EmptyChunk(index: nat): ActiveChunk { ActiveChunk(index, 0, 0, 0, 0, 0, 0) }

  /** The chunks carry the session's id and count from zero, and none spans more ticks than allowed. */
  predicate Labelled(chunks: seq<TraceChunk>, sessionId: seq<unit>, maxSpan: int) {
    forall i :: 0 <= i < |chunks| ==>
      chunks[i].index == i && chunks[i].sessionId == sessionId && WithinSpan(chunks[i].startTick, chunks[i].endTick, maxSpan)
  }

  /** Ticks of one chunk: less than the span apart, or the same. */
  predicate WithinSpan(first: nat, last: nat, maxSpan: int) { first == last || last - first < maxSpan }

  predicate InSpan(active: ActiveChunk, maxSpan: int) {
    active.eventCount > 0 ==> active.endTick == active.previousTick && WithinSpan(active.startTick, active.endTick, maxSpan)
  }

  /** An event either leaves the chunk below the size limit, or the chunk is sealed with it. */
  predicate Sized(active: ActiveChunk, payload: bytes, chunks: seq<TraceChunk>, maxBytes: int) {
    if active.eventCount == 0 then chunks != [] && |chunks[|chunks| - 1].content| >= maxBytes else |payload| < maxBytes
  }

  /** The counters agree with the ghost log. */
  ghost predicate Counted(sequence: nat, log: seq<TraceEvent>, chunkCount: nat, chunks: seq<TraceChunk>, active: ActiveChunk, raws: seq<RawEvent>) {
    && sequence == |log|
    && chunkCount == |chunks| == active.index
    && |chunks| <= Told(chunks, |chunks|) <= |log|
    && Continues(active, raws, log, Told(chunks, |chunks|))
  }

  /** Decoding what was written yields the log. */
  ghost predicate Decodable(payload: bytes, base: Tables, tables: Tables, raws: seq<RawEvent>, chunks: seq<TraceChunk>, log: seq<TraceEvent>) {
    && Consumes(payload, Progress(base, []), Progress(tables, raws))
    && TellsPrefixes(chunks, log)
    && DecodedChunks(Contents(chunks), EMPTY_TABLES).Success?
    && DecodedChunks(Contents(chunks), EMPTY_TABLES).value.0 == base
  }

  lemma ToldAll(sequence: nat, log: seq<TraceEvent>, chunkCount: nat, chunks: seq<TraceChunk>, active: ActiveChunk, raws: seq<RawEvent>)
    requires Counted(sequence, log, chunkCount, chunks, active, raws)
    ensures active.eventCount == 0 ==> Told(chunks, |chunks|) == |log|
    ensures active.startTick <= MAX_SAFE && active.previousTick <= MAX_SAFE
  {
  }

  /** The first event of a chunk sets its start; an empty chunk has no start yet. */
  predicate Started(active: ActiveChunk, sequence: nat, tick: nat) {
    active.eventCount == 0 ==> active.firstSequence == sequence + 1 && active.startTick == active.previousTick == tick
  }

  lemma StartChunk(sequence: nat, log: seq<TraceEvent>, chunkCount: nat, chunks: seq<TraceChunk>, active: ActiveChunk, raws: seq<RawEvent>, tick: nat)
    requires Counted(sequence, log, chunkCount, chunks, active, raws) && tick <= MAX_SAFE
    ensures active.eventCount == 0 ==>
      Counted(sequence, log, chunkCount, chunks, active.(firstSequence := sequence + 1, startTick := tick, previousTick := tick), raws)
  {
  }

  lemma CountEvent(
    sequence: nat, log: seq<TraceEvent>, chunkCount: nat, chunks: seq<TraceChunk>, active: ActiveChunk, raws: seq<RawEvent>,
    tick: nat, raw: RawEvent, event: TraceEvent)
    requires Counted(sequence, log, chunkCount, chunks, active, raws)
    requires tick <= MAX_SAFE && Started(active, sequence, tick) && tick == active.previousTick + raw.delta
    requires event == TraceEvent(sequence + 1, tick, raw.typeId, raw.schemaName, raw.source, raw.payload)
    ensures Counted(sequence + 1, log + [event], chunkCount, chunks,
      active.(eventCount := active.eventCount + 1, lastSequence := sequence + 1, endTick := tick, previousTick := tick), raws + [raw])
  {
    var told := Told(chunks, |chunks|);
    AssembleLast(active.firstSequence, active.startTick, raws, raw);
    assert (log + [event])[told..] == log[told..] + [event];
    if active.eventCount == 0 {
      assert raws == [] && log[told..] == [];
    }
  }

  lemma EventDecodes(
    payload: bytes, base: Tables, tables: Tables, raws: seq<RawEvent>, chunks: seq<TraceChunk>, log: seq<TraceEvent>,
    record: bytes, raw: RawEvent, event: TraceEvent)
    requires Decodable(payload, base, tables, raws, chunks, log)
    requires IsRecord(record, Progress(tables, raws), Progress(tables, raws + [raw]))
    ensures Decodable(payload + record, base, tables, raws + [raw], chunks, log + [event])
  {
    hide Consumes, IsRecord, TellsPrefixes, DecodedChunks;
    var before, after := Progress(tables, raws), Progress(tables, raws + [raw]);
    RecordConsumes(record, before, after);
    ConsumesTwice(payload, record, Progress(base, []), before, after);
    LongerLog(chunks, log, event);
  }

  lemma SealCounts(
    sequence: nat, log: seq<TraceEvent>, chunkCount: nat, chunks: seq<TraceChunk>, active: ActiveChunk, raws: seq<RawEvent>, c: TraceChunk)
    requires Counted(sequence, log, chunkCount, chunks, active, raws) && active.eventCount > 0
    requires c.lastSequence == active.lastSequence
    ensures Counted(sequence, log, chunkCount + 1, chunks + [c], EmptyChunk(chunkCount + 1), [])
    ensures Told(chunks + [c], |chunks + [c]|) == |log|
  {
  }

  lemma NextLabel(
    chunks: seq<TraceChunk>, sessionId: seq<unit>, c: TraceChunk,
    sequence: nat, log: seq<TraceEvent>, chunkCount: nat, active: ActiveChunk, raws: seq<RawEvent>, maxSpan: int)
    requires Counted(sequence, log, chunkCount, chunks, active, raws)
    requires Labelled(chunks, sessionId, maxSpan) && c.index == active.index && c.sessionId == sessionId
    requires WithinSpan(c.startTick, c.endTick, maxSpan)
    ensures Labelled(chunks + [c], sessionId, maxSpan)
  {
  }

  lemma SealDecodes(
    payload: bytes, base: Tables, tables: Tables, raws: seq<RawEvent>, chunks: seq<TraceChunk>, log: seq<TraceEvent>, c: TraceChunk,
    sequence: nat, chunkCount: nat, active: ActiveChunk)
    requires Decodable(payload, base, tables, raws, chunks, log)
    requires Counted(sequence, log, chunkCount, chunks, active, raws) && active.eventCount > 0
    requires sequence <= MAX_SAFE && chunkCount <= MAX_SAFE
    requires c.lastSequence == active.lastSequence
    requires c.content == ChunkHeadBytes(ChunkHead(active.index, active.firstSequence, active.startTick, active.eventCount)) + payload
    ensures Decodable([], tables, tables, [], chunks + [c], log)
  {
    hide Consumes, TellsPrefixes, DecodedChunk, DecodedChunks, ChunkHeadBytes, Assemble, LastTick;
    ChunkInverts(ChunkHead(active.index, active.firstSequence, active.startTick, active.eventCount), payload, base, tables, raws);
    NextPrefix(chunks, log, c, base, tables);
    ConsumesNothing(Progress(tables, []));
  }

  /** The dictionaries of a session and their next ids; objects are known by identity. */
  datatype Dictionaries = Dictionaries(
    stringIds: map<seq<unit>, nat>, nextStringId: nat,
    playerIds: map<seq<unit>, nat>, playerNames: map<seq<unit>, Option<HostString>>, nextPlayerId: nat,
    stateIds: map<nat, nat>, nextStateId: nat,
    componentIds: map<nat, nat>, nextComponentId: nat,
    schemaIds: map<seq<unit>, CustomSchema>, nextCustomTypeId: nat)
  {
    function Dict(): Dictionary { Dictionary(stringIds, playerIds) }

    /** No id has left the range in which the wire format can write it. */
    predicate Fit() {
      && nextStringId <= MAX_SAFE && nextPlayerId <= MAX_SAFE && nextStateId <= MAX_SAFE
      && nextComponentId <= MAX_SAFE && nextCustomTypeId <= MAX_SAFE
    }

    /** All ids given out so far, with those of the built-in types. */
    function Load(): nat { nextStringId + nextPlayerId + nextStateId + nextComponentId + nextCustomTypeId }

    /** Only strings were added. */
    ghost predicate Interned(n: Dictionaries) {
      && n == this.(stringIds := n.stringIds, nextStringId := n.nextStringId)
      && stringIds.Keys <= n.stringIds.Keys
      && nextStringId <= n.nextStringId
    }

    ghost predicate StringsMatch(t: Tables) {
      && (forall s :: s in stringIds ==> stringIds[s] < nextStringId && stringIds[s] in t.strings && t.strings[stringIds[s]] == s)
      && (forall id :: id in t.strings ==> id < nextStringId)
    }

    ghost predicate PlayersMatch(t: Tables) {
      && (forall p :: p in playerIds ==>
            && playerIds[p] < nextPlayerId && p in stringIds
            && playerIds[p] in t.players && t.players[playerIds[p]].id == p)
      && (forall ref :: ref in t.players ==> ref < nextPlayerId)
      && (forall p :: p in playerNames && playerNames[p].Some? ==> playerNames[p].value in stringIds)
    }

    ghost predicate SchemasMatch(t: Tables) {
      && nextCustomTypeId >= 128
      && (forall n :: n in schemaIds ==>
            && 128 <= schemaIds[n].typeId < nextCustomTypeId
            && schemaIds[n].typeId in t.schemas
            && t.schemas[schemaIds[n].typeId] == SchemaDefinition(n, WireFields(schemaIds[n].fields)))
      && (forall id :: id in t.schemas ==> 128 <= id < nextCustomTypeId)
    }

    /** Every state and component instance has a reference of its own, known to the reader. */
    ghost predicate InstancesMatch(t: Tables) {
      && (forall o :: o in stateIds ==> stateIds[o] < nextStateId && stateIds[o] in t.states)
      && (forall o, o' :: o in stateIds && o' in stateIds && stateIds[o] == stateIds[o'] ==> o == o')
      && (forall o :: o in componentIds ==> componentIds[o] < nextComponentId && componentIds[o] in t.components)
      && (forall o, o' :: o in componentIds && o' in componentIds && componentIds[o] == componentIds[o'] ==> o == o')
    }

    /** The reader knows every name under the same id. */
    ghost predicate Match(t: Tables) {
      StringsMatch(t) && PlayersMatch(t) && SchemasMatch(t) && InstancesMatch(t)
    }

    lemma AddString(t: Tables, s: seq<unit>)
      requires Match(t) && s !in stringIds
      ensures this.(stringIds := stringIds[s := nextStringId], nextStringId := nextStringId + 1)
                .Match(t.(strings := t.strings[nextStringId := s]))
    {
    }

    lemma PlayerKnown(t: Tables, id: seq<unit>)
      requires Match(t)
      ensures id in playerIds ==> id in stringIds
      ensures id in playerNames && playerNames[id].Some? ==> playerNames[id].value in stringIds
    {
    }

    lemma RenamePlayer(t: Tables, id: seq<unit>, name: Option<HostString>)
      requires Match(t) && id in playerIds && (name.Some? ==> name.value in stringIds)
      ensures playerIds[id] < nextPlayerId
      ensures this.(playerNames := playerNames[id := name])
                .Match(t.(players := t.players[playerIds[id] := PlayerDefinition(id, name)]))
    {
    }

    lemma AddPlayer(t: Tables, id: seq<unit>, name: Option<HostString>)
      requires Match(t) && id !in playerIds && id in stringIds && (name.Some? ==> name.value in stringIds)
      ensures
        this.(playerIds := playerIds[id := nextPlayerId], playerNames := playerNames[id := name], nextPlayerId := nextPlayerId + 1)
          .Match(t.(players := t.players[nextPlayerId := PlayerDefinition(id, name)]))
    {
    }

    lemma StateRefs(t: Tables, o: nat)
      requires Match(t) && o in stateIds
      ensures stateIds[o] < nextStateId
    {
    }

    lemma SchemaKnown(t: Tables, name: seq<unit>)
      requires Match(t) && name in schemaIds
      ensures var s := schemaIds[name];
        s.typeId < nextCustomTypeId && s.typeId in t.schemas && t.schemas[s.typeId] == SchemaDefinition(name, WireFields(s.fields))
    {
    }

    lemma BuiltinFree(t: Tables, typeId: nat)
      requires Match(t) && typeId < 128
      ensures typeId !in t.schemas && typeId <= nextCustomTypeId
    {
    }

    lemma AddState(t: Tables, o: nat, name: seq<unit>)
      requires Match(t) && o !in stateIds
      ensures this.(stateIds := stateIds[o := nextStateId], nextStateId := nextStateId + 1)
                .Match(t.(states := t.states[nextStateId := name]))
    {
    }

    lemma AddComponent(t: Tables, o: nat, c: ComponentDefinition)
      requires Match(t) && o !in componentIds
      ensures this.(componentIds := componentIds[o := nextComponentId], nextComponentId := nextComponentId + 1)
                .Match(t.(components := t.components[nextComponentId := c]))
    {
    }

    lemma AddSchema(t: Tables, name: seq<unit>, fields: FieldList)
      requires Match(t)
      ensures this.(schemaIds := schemaIds[name := CustomSchema(nextCustomTypeId, fields)], nextCustomTypeId := nextCustomTypeId + 1)
                .Match(t.(schemas := t.schemas[nextCustomTypeId := SchemaDefinition(name, WireFields(fields))]))
    {
    }

    lemma StringsAgree(t: Tables)
      requires Match(t)
      ensures Fit() ==> Agree(Dictionary(stringIds, map[]), t)
    {
    }

    /** Under the counter limits the writer's ids agree with the reader's tables. */
    lemma DictionaryAgrees(t: Tables)
      requires Match(t) && Fit()
      ensures Agree(Dict(), t)
    {
    }
  }

  class TraceSession {
    const sessionId: seq<unit>
    const maxChunkBytes: int
    const maxChunkTickSpan: int

    var names: Dictionaries
    var active: ActiveChunk
    var payload: bytes  // of the active chunk
    var sequence: nat
    var chunkCount: nat
    var ended: bool
    var chunks: seq<TraceChunk>  // handed to the sink, in order

    ghost var base: Tables  // what a reader knows before the active chunk
    ghost var tables: Tables  // and after what was written so far
    ghost var raws: seq<RawEvent>
    ghost var log: seq<TraceEvent>

    function Dict(): Dictionary
      reads this`names
    {
      names.Dict()
    }

    /** No counter has left the range in which the wire format can write it. */
    ghost predicate InRange()
      reads this
    {
      names.Fit() && sequence <= MAX_SAFE && chunkCount <= MAX_SAFE
    }

    /** How far the counters have come. */
    function Load(): nat
      reads this`names, this`sequence
    {
      names.Load() + sequence
    }

    /** There are no more chunks than events. */
    lemma LightIsInRange()
      requires Valid() && Load() <= MAX_SAFE
      ensures InRange()
    {
      hide Decodable, Continues, Dictionaries.Match;
    }

    /** What was written so far decodes to the log. */
    ghost predicate Recorded()
      reads this
    {
      && Counted(sequence, log, chunkCount, chunks, active, raws) && Metered(chunks, log)
      && (InRange() ==> Decodable(payload, base, tables, raws, chunks, log))
    }

    ghost predicate Valid()
      reads this
    {
      Recorded() && names.Match(tables) && Labelled(chunks, sessionId, maxChunkTickSpan) && InSpan(active, maxChunkTickSpan)
    }

    constructor (sessionId: seq<unit>, maxChunkBytes: int, maxChunkTickSpan: int)
      ensures Valid() && !ended && log == [] && chunks == []
      ensures names.schemaIds == map[] && names.nextCustomTypeId == 128 && active.eventCount == 0
      ensures InRange() && Load() == 128
      ensures this.sessionId == sessionId && this.maxChunkBytes == maxChunkBytes && this.maxChunkTickSpan == maxChunkTickSpan
    {
      this.sessionId := sessionId;
      this.maxChunkBytes := maxChunkBytes;
      this.maxChunkTickSpan := maxChunkTickSpan;
      names := Dictionaries(map[], 0, map[], map[], 0, map[], 0, map[], 0, map[], 128);
      active := EmptyChunk(0);
      payload := [];
      sequence, chunkCount, ended, chunks := 0, 0, false, [];
      base, tables, raws, log := EMPTY_TABLES, EMPTY_TABLES, [], [];
      new;
      ConsumesNothing(Progress(EMPTY_TABLES, []));
      assert chunks[..0] == [];
    }

    // ---------- definitions ----------

    /** Appends one definition record to the active chunk. */
    method Define(record: bytes, ghost t: Tables)
      requires InRange() ==>
        && Decodable(payload, base, tables, raws, chunks, log)
        && IsRecord(record, Progress(tables, raws), Progress(t, raws))
      modifies `payload, `tables
      ensures tables == t && payload == old(payload) + record
      ensures InRange() ==> Decodable(payload, base, tables, raws, chunks, log)
    {
      ghost var before, after := Progress(tables, raws), Progress(t, raws);
      if InRange() {
        hide Consumes, IsRecord, TellsPrefixes;
        RecordConsumes(record, before, after);
        ConsumesTwice(payload, record, Progress(base, []), before, after);
      }
      payload := payload + record;
      tables := t;
    }

    method EnsureString(value: HostString) returns (id: nat)
      requires Valid()
      modifies `names, `payload, `tables
      ensures Valid()
      ensures names.Fit() ==> old(names).Fit()
      ensures value in names.stringIds && id == names.stringIds[value]
      ensures old(names).Interned(names) && (value in old(names).stringIds ==> names == old(names))
      ensures names.Load() <= old(names).Load() + 1
      ensures tables == old(tables).(strings := tables.strings)
    {
      hide Counted, Decodable, IsRecord, Dictionaries.Match, StringRecord;
      if value in names.stringIds {
        return names.stringIds[value];
      }
      id := names.nextStringId;
      ghost var t := tables.(strings := tables.strings[id := value]);
      names.AddString(tables, value);
      names := names.(stringIds := names.stringIds[value := id], nextStringId := id + 1);
      if InRange() {
        StringRecordReads(id, value, Progress(tables, raws));
      }
      Define(StringRecord(id, value), t);
    }

    method EnsurePlayer(id: HostString, name: Option<HostString>) returns (ref: nat)
      requires Valid()
      modifies `names, `payload, `tables
      ensures Valid()
      ensures Known(InPlayer(id, name), Dict()) && ref == names.playerIds[id]
      ensures Grows(old(Dict()), Dict())
      ensures Known(InPlayer(id, name), old(Dict())) ==> Dict() == old(Dict()) && names.Load() == old(names).Load()
      ensures names.Load() <= old(names).Load() + 3
      ensures tables.schemas == old(tables.schemas) && SameRegistry(names, old(names))
      ensures PlayerTold(old(names), old(tables), tables, id, name, ref)
    {
      hide Valid;
      var knownName := KnownName(id);
      if id in names.playerIds && (name.None? || name == knownName) {
        return names.playerIds[id];
      }
      var nameRef := if name.Some? then name else knownName;
      EnsureNames(id, nameRef);
      ref := DefinePlayer(id, nameRef);
    }

    /** The name last given to the player. */
    method KnownName(id: HostString) returns (name: Option<HostString>)
      requires Valid()
      ensures name == if id in names.playerNames then names.playerNames[id] else None
      ensures id in names.playerIds ==> id in names.stringIds
      ensures name.Some? ==> name.value in names.stringIds
    {
      hide Recorded, Dictionaries.Match;
      names.PlayerKnown(tables, id);
      return if id in names.playerNames then names.playerNames[id] else None;
    }

    method EnsureNames(id: HostString, name: Option<HostString>)
      requires Valid()
      modifies `names, `payload, `tables
      ensures Valid() && old(names).Interned(names) && (names.Fit() ==> old(names).Fit())
      ensures id in names.stringIds && (name.Some? ==> name.value in names.stringIds)
      ensures id in old(names).stringIds && (name.Some? ==> name.value in old(names).stringIds) ==> names == old(names)
      ensures names.Load() <= old(names).Load() + 2
      ensures tables == old(tables).(strings := tables.strings)
    {
      hide Valid;
      var _ := EnsureString(id);
      if name.Some? {
        assert id in names.stringIds.Keys;
        var _ := EnsureString(name.value);
        assert id in names.stringIds.Keys;
      }
    }

    /** Gives the player a reference if it has none and writes its definition. */
    method DefinePlayer(id: HostString, name: Option<HostString>) returns (ref: nat)
      requires Valid() && Known(InPlayer(id, name), Dictionary(names.stringIds, map[id := 0]))
      modifies `names, `payload, `tables
      ensures Valid() && id in names.playerIds && ref == names.playerIds[id]
      ensures names.stringIds == old(names).stringIds
      ensures names.playerIds == if id in old(names).playerIds then old(names).playerIds else old(names).playerIds[id := ref]
      ensures names.Load() == old(names).Load() + if id in old(names).playerIds then 0 else 1
      ensures SameRegistry(names, old(names))
      ensures tables == old(tables).(players := old(tables).players[ref := PlayerDefinition(id, name)])
    {
      hide Counted, Decodable, Dictionaries.Match, IsRecord, PlayerRecord, OptionalRef, Agree;
      var d := Dictionary(names.stringIds, map[]);
      ref := if id in names.playerIds then names.playerIds[id] else names.nextPlayerId;
      ghost var t := tables.(players := tables.players[ref := PlayerDefinition(id, name)]);
      names.StringsAgree(tables);
      if id in names.playerIds {
        names.RenamePlayer(tables, id, name);
        names := names.(playerNames := names.playerNames[id := name]);
      } else {
        names.AddPlayer(tables, id, name);
        names := names.(playerIds := names.playerIds[id := ref], playerNames := names.playerNames[id := name],
                        nextPlayerId := ref + 1);
      }
      if InRange() {
        PlayerRecordReads(ref, id, name, d, Progress(tables, raws));
      }
      Define(PlayerRecord(ref, d.strings[id], OptionalRef(name, d)), t);
    }

    method RegisterPlayer(id: HostString, name: Option<HostString>)
      requires Valid()
      modifies `names, `payload, `tables
      ensures Valid() && id in names.playerIds && SameRegistry(names, old(names))
      ensures names.Load() <= old(names).Load() + 3
    {
      var _ := EnsurePlayer(id, name);
    }

    method EnsureState(state: nat, name: HostString) returns (ref: nat)
      requires Valid()
      modifies `names, `payload, `tables
      ensures Valid()
      ensures state in names.stateIds && ref == names.stateIds[state]
      ensures names.stateIds ==
        if state in old(names).stateIds then old(names).stateIds else old(names).stateIds[state := old(names).nextStateId]
      ensures tables == old(tables).(strings := tables.strings, states :=
        if state in old(names).stateIds then old(tables).states else old(tables).states[ref := name])
      ensures SameRegistry(names, old(names)) && names.Load() <= old(names).Load() + 2
    {
      hide Counted, Decodable, Dictionaries.Match, IsRecord, StateRecord, Agree;
      if state in names.stateIds {
        return names.stateIds[state];
      }
      var nameRef := EnsureString(name);
      var d := Dictionary(names.stringIds, map[]);
      ref := names.nextStateId;
      ghost var t := tables.(states := tables.states[ref := name]);
      names.AddState(tables, state, name);
      names.StringsAgree(tables);
      names := names.(stateIds := names.stateIds[state := ref], nextStateId := ref + 1);
      if InRange() {
        StateRecordReads(ref, name, d, Progress(tables, raws));
      }
      Define(StateRecord(ref, nameRef), t);
    }

    /** Fails when the state of the component is not registered. */
    method EnsureComponent(component: nat, state: nat, name: HostString, tag: Option<HostString>) returns (r: Result<nat>)
      requires Valid()
      modifies `names, `payload, `tables
      ensures Valid()
      ensures r.Failure? <==> component !in old(names).componentIds && state !in names.stateIds
      ensures r.Success? ==> component in names.componentIds && r.value == names.componentIds[component]
      ensures names.componentIds ==
        if component in old(names).componentIds || r.Failure? then old(names).componentIds
        else old(names).componentIds[component := old(names).nextComponentId]
      ensures r.Success? && component !in old(names).componentIds ==> state in names.stateIds
      ensures r.Success? && component !in old(names).componentIds ==>
        tables == old(tables).(strings := tables.strings, components :=
          old(tables).components[r.value := ComponentDefinition(names.stateIds[state], name, tag)])
      ensures names.stateIds == old(names).stateIds && SameRegistry(names, old(names))
      ensures names.Load() <= old(names).Load() + 3
    {
      hide Counted, Decodable, Dictionaries.Match, IsRecord, ComponentRecord, OptionalRef, Agree;
      if component in names.componentIds {
        return Success(names.componentIds[component]);
      }
      if state !in names.stateIds {
        return Failure;
      }
      var nameRef := EnsureString(name);
      if tag.Some? {
        assert name in names.stringIds.Keys;
        var _ := EnsureString(tag.value);
      }
      var d := Dictionary(names.stringIds, map[]);
      var ref, stateRef := names.nextComponentId, names.stateIds[state];
      ghost var definition := ComponentDefinition(stateRef, name, tag);
      ghost var t := tables.(components := tables.components[ref := definition]);
      names.AddComponent(tables, component, definition);
      names.StringsAgree(tables);
      names.StateRefs(tables, state);
      names := names.(componentIds := names.componentIds[component := ref], nextComponentId := ref + 1);
      if InRange() {
        ComponentRecordReads(ref, stateRef, name, tag, d, Progress(tables, raws));
      }
      Define(ComponentRecord(ref, stateRef, d.strings[name], OptionalRef(tag, d)), t);
      return Success(ref);
    }

    /**
     * Registers a schema under its name, or finds the one already registered. Fails when
     * the signatures differ; equal signatures make the registered fields the ones used.
     */
    method EnsureSchema(schema: EventSchema) returns (r: Result<CustomSchema>)
      requires Valid()
      modifies `names, `payload, `tables
      ensures Valid()
      ensures names.Fit() ==> old(names).Fit()
      ensures Grows(old(Dict()), Dict())
      ensures var (known, next, result) := Registered(old(names).schemaIds, old(names).nextCustomTypeId, schema);
        names.schemaIds == known && names.nextCustomTypeId == next && r == result
      ensures schema.name !in old(names).schemaIds ==>
        && r == Success(CustomSchema(old(names).nextCustomTypeId, schema.fields))
        && names.schemaIds == old(names).schemaIds[schema.name := r.value] && names.nextCustomTypeId == old(names).nextCustomTypeId + 1
      ensures schema.name in old(names).schemaIds ==>
        var existing := old(names).schemaIds[schema.name];
        && (r.Success? <==> Signature(existing.fields) == Signature(schema.fields)) && (r.Success? ==> r.value == existing)
        && names.schemaIds == old(names).schemaIds && names.nextCustomTypeId == old(names).nextCustomTypeId
      ensures names.Load() <= old(names).Load() + |schema.fields| + 2
      ensures r.Success? ==>
        && r.value.typeId in tables.schemas && r.value.typeId < names.nextCustomTypeId
        && tables.schemas[r.value.typeId] == SchemaDefinition(schema.name, WireFields(r.value.fields))
    {
      hide Counted, Decodable, Dictionaries.Match, IsRecord, SchemaRecord, Agree, Signature, WireFields;
      if schema.name in names.schemaIds {
        var existing := names.schemaIds[schema.name];
        names.SchemaKnown(tables, schema.name);
        return if Signature(existing.fields) == Signature(schema.fields) then Success(existing) else Failure;
      }
      EnsureSchemaNames(schema);
      var record := DefineSchema(schema);
      return Success(record);
    }

    method EnsureSchemaNames(schema: EventSchema)
      requires Valid()
      modifies `names, `payload, `tables
      ensures Valid() && (names.Fit() ==> old(names).Fit())
      ensures old(names).Interned(names) && names.Load() <= old(names).Load() + |schema.fields| + 1
      ensures schema.name in names.stringIds && forall j :: 0 <= j < |schema.fields| ==> schema.fields[j].name in names.stringIds
    {
      hide Valid;
      var _ := EnsureString(schema.name);
      EnsureFieldNames(schema.fields);
      assert schema.name in names.stringIds.Keys;
    }

    /** Gives the schema the next type id and writes its definition. */
    method DefineSchema(schema: EventSchema) returns (record: CustomSchema)
      requires Valid() && schema.name !in names.schemaIds && schema.name in names.stringIds
      requires forall j :: 0 <= j < |schema.fields| ==> schema.fields[j].name in names.stringIds
      modifies `names, `payload, `tables
      ensures Valid() && record == CustomSchema(old(names).nextCustomTypeId, schema.fields)
      ensures names == old(names).(schemaIds := old(names).schemaIds[schema.name := record],
                                   nextCustomTypeId := old(names).nextCustomTypeId + 1)
      ensures record.typeId in tables.schemas && tables.schemas[record.typeId] == SchemaDefinition(schema.name, WireFields(schema.fields))
    {
      hide Counted, Decodable, Dictionaries.Match, IsRecord, SchemaRecord, Agree, Signature, WireFields;
      var d := Dictionary(names.stringIds, map[]);
      var typeId := names.nextCustomTypeId;
      record := CustomSchema(typeId, schema.fields);
      ghost var t := tables.(schemas := tables.schemas[typeId := SchemaDefinition(schema.name, WireFields(schema.fields))]);
      names.AddSchema(tables, schema.name, schema.fields);
      names.StringsAgree(tables);
      names := names.(schemaIds := names.schemaIds[schema.name := record], nextCustomTypeId := typeId + 1);
      if InRange() {
        SchemaRecordReads(typeId, schema.name, schema.fields, d, Progress(tables, raws));
      }
      Define(SchemaRecord(typeId, schema.name, schema.fields, d), t);
    }

    method EnsureFieldNames(fields: seq<FieldSpec>)
      requires Valid()
      modifies `names, `payload, `tables
      ensures Valid()
      ensures names.Fit() ==> old(names).Fit()
      ensures old(names).Interned(names) && names.Load() <= old(names).Load() + |fields|
      ensures tables == old(tables).(strings := tables.strings)
      ensures forall j :: 0 <= j < |fields| ==> fields[j].name in names.stringIds
    {
      hide Valid;
      for i := 0 to |fields|
        invariant Valid() && old(names).Interned(names) && names.Load() <= old(names).Load() + i
        invariant tables == old(tables).(strings := tables.strings)
        invariant forall j :: 0 <= j < i ==> fields[j].name in names.stringIds.Keys
      {
        var _ := EnsureString(fields[i].name);
      }
    }

    // ---------- payloads ----------

    method PrepareSource(source: InputSource)
      requires Valid()
      modifies `names, `payload, `tables
      ensures Valid()
      ensures source.name.Some? ==> source.name.value in names.stringIds
      ensures names.Load() <= old(names).Load() + 1
      ensures Grows(old(Dict()), Dict())
      ensures tables.schemas == old(tables.schemas) && SameRegistry(names, old(names))
    {
      hide Valid;
      if source.name.Some? {
        var _ := EnsureString(source.name.value);
      }
    }

    method PrepareValue(v: InputValue)
      requires Valid()
      modifies `names, `payload, `tables
      ensures Valid() && Known(v, Dict())
      ensures names.Load() <= old(names).Load() + ValueCost(v)
      ensures Grows(old(Dict()), Dict())
      ensures tables.schemas == old(tables.schemas) && SameRegistry(names, old(names))
      decreases v
    {
      hide Valid, PlayerTold;
      match v {
        case InPlayer(id, name) =>
          var _ := EnsurePlayer(id, name);
        case InText(s) =>
          var _ := EnsureString(s);
        case InArr(items) =>
          for i := 0 to |items|
            invariant Valid() && Grows(old(Dict()), Dict()) && tables.schemas == old(tables.schemas) && SameRegistry(names, old(names))
            invariant KnownItems(items[..i], Dict()) && names.Load() <= old(names).Load() + ItemsCost(items[..i])
          {
            assert items[..i + 1][..i] == items[..i];
            ghost var before := Dict();
            PrepareValue(items[i]);
            forall j | 0 <= j < i ensures Known(items[j], Dict()) {
              assert items[j] == items[..i][j];
              KnownGrows(items[j], before, Dict());
            }
          }
          assert items[..|items|] == items;
        case InObj(es) =>
          for i := 0 to |es|
            invariant Valid() && Grows(old(Dict()), Dict()) && tables.schemas == old(tables.schemas) && SameRegistry(names, old(names))
            invariant KnownEntries(es[..i], Dict()) && names.Load() <= old(names).Load() + EntriesCost(es[..i])
          {
            assert es[..i + 1][..i] == es[..i];
            ghost var before := Dict();
            var _ := EnsureString(es[i].key);
            assert es[i].key in Dict().strings.Keys;
            PrepareValue(es[i].value);
            forall j | 0 <= j < i ensures es[j].key in Dict().strings && Known(es[j].value, Dict()) {
              assert es[j] == es[..i][j];
              assert es[j].key in before.strings.Keys;
              KnownGrows(es[j].value, before, Dict());
            }
          }
          assert es[..|es|] == es;
        case _ =>
      }
    }

    /** Writes a prepared value. Player definitions may be refreshed on the way, ids are not. */
    method WriteValue(v: InputValue) returns (r: Result<bytes>)
      requires Valid() && Known(v, Dict())
      modifies `names, `payload, `tables
      ensures Valid() && Dict() == old(Dict()) && names.Load() == old(names).Load()
      ensures r == ValueBytes(v, Dict())
      ensures tables.schemas == old(tables.schemas) && SameRegistry(names, old(names))
      decreases v
    {
      hide Valid, PlayerTold;
      match v {
        case InNull => return Success([0]);
        case InBool(b) => return Success([if b then 2 else 1]);
        case InNum(Whole(n)) =>
          if n >= 0 {
            return Success([3] + VarUint(n));
          }
          return if FitsVarInt(n) then Success([4] + VarUint(ZigZag(n))) else Failure;
        case InNum(Other(image)) => return Success([5] + image);
        case InText(s) =>
          var ref := EnsureString(s);
          return Success([6] + VarUint(ref));
        case InPlayer(id, name) =>
          var ref := EnsurePlayer(id, name);
          return Success([9] + VarUint(ref));
        case InArr(items) =>
          if |items| > MAX_SAFE { return Failure; }
          var body := WriteItems(items);
          return if body.Success? then Success([7] + VarUint(|items|) + body.value) else Failure;
        case InObj(es) =>
          if |es| > MAX_SAFE { return Failure; }
          var body := WriteProperties(es);
          return if body.Success? then Success([8] + VarUint(|es|) + body.value) else Failure;
        case InUnsupported => return Failure;
      }
    }

    /** The loop over the elements of an array. */
    method WriteItems(items: seq<InputValue>) returns (r: Result<bytes>)
      requires Valid() && KnownItems(items, Dict())
      modifies `names, `payload, `tables
      ensures Valid() && Dict() == old(Dict()) && names.Load() == old(names).Load()
      ensures r == ItemBytes(items, Dict())
      ensures tables.schemas == old(tables.schemas) && SameRegistry(names, old(names))
      decreases items
    {
      hide Valid, Known, ValueBytes;
      var written: bytes := [];
      ghost var d := Dict();
      assert items[0..] == items;
      AfterNothing(ItemBytes(items, d));
      for i := 0 to |items|
        invariant Valid() && Dict() == d && names.Load() == old(names).Load() && tables.schemas == old(tables.schemas) && SameRegistry(names, old(names))
        invariant KnownItems(items[i..], d)
        invariant ItemBytes(items, d) == After(written, ItemBytes(items[i..], d))
      {
        assert items[i..][0] == items[i] && items[i..][1..] == items[i + 1..];
        var one := WriteValue(items[i]);
        if one.Failure? { return Failure; }
        AfterTwice(written, one.value, ItemBytes(items[i + 1..], d));
        written := written + one.value;
      }
      AfterAll(written);
      return Success(written);
    }

    /** The loop over the own entries of an object. */
    method WriteProperties(es: seq<InputEntry>) returns (r: Result<bytes>)
      requires Valid() && KnownEntries(es, Dict())
      modifies `names, `payload, `tables
      ensures Valid() && Dict() == old(Dict()) && names.Load() == old(names).Load()
      ensures r == PropertyBytes(es, Dict())
      ensures tables.schemas == old(tables.schemas) && SameRegistry(names, old(names))
      decreases es
    {
      hide Valid, Known, ValueBytes, VarUint;
      var written: bytes := [];
      ghost var d := Dict();
      assert es[0..] == es;
      AfterNothing(PropertyBytes(es, d));
      for i := 0 to |es|
        invariant Valid() && Dict() == d && names.Load() == old(names).Load() && tables.schemas == old(tables.schemas) && SameRegistry(names, old(names))
        invariant KnownEntries(es[i..], d)
        invariant PropertyBytes(es, d) == After(written, PropertyBytes(es[i..], d))
      {
        assert es[i..][0] == es[i] && es[i..][1..] == es[i + 1..];
        var key := EnsureString(es[i].key);
        var one := WriteValue(es[i].value);
        if one.Failure? { return Failure; }
        AfterTwice(written, VarUint(key) + one.value, PropertyBytes(es[i + 1..], d));
        written := written + (VarUint(key) + one.value);
      }
      AfterAll(written);
      return Success(written);
    }

    /** Fails on a missing required field or a field of the wrong type. */
    method PrepareFields(fields: FieldList, values: Payload) returns (ok: bool)
      requires Valid()
      modifies `names, `payload, `tables
      ensures Valid() && Grows(old(Dict()), Dict())
      ensures names.Load() <= old(names).Load() + 3 * |values|
      ensures tables.schemas == old(tables.schemas) && SameRegistry(names, old(names))
      ensures ok <==> forall i :: 0 <= i < |fields| ==> FieldChecked(fields[i], values)
      ensures ok ==> FieldsKnown(fields, values, Dict())
    {
      hide Valid, Dictionaries.Load, Dictionaries.Fit, FieldKnown, FieldChecked;
      var fs: seq<FieldSpec> := fields;
      ghost var given: set<seq<unit>> := {};
      for i := 0 to |fs|
        invariant given <= values.Keys && forall n :: n in given ==> exists j :: 0 <= j < i && fs[j].name == n
        invariant names.Load() <= old(names).Load() + 3 * |given| && |given| <= |values|
        invariant Valid() && Grows(old(Dict()), Dict()) && tables.schemas == old(tables.schemas) && SameRegistry(names, old(names))
        invariant forall j :: 0 <= j < i ==> FieldChecked(fs[j], values) && FieldKnown(fs[j], values, Dict())
      {
        var f := fs[i];
        ghost var before := Dict();
        var checked := PrepareField(f, values);
        if !checked { return false; }
        if f.name in values {
          given := given + {f.name};
          FewGiven(given, values);
        }
        forall j | 0 <= j < i ensures FieldKnown(fs[j], values, Dict()) {
          FieldKnownGrows(fs[j], values, before, Dict());
        }
      }
      return true;
    }

    method PrepareField(f: FieldSpec, values: Payload) returns (ok: bool)
      requires Valid()
      modifies `names, `payload, `tables
      ensures Valid() && Grows(old(Dict()), Dict())
      ensures names.Load() <= old(names).Load() + if ok && f.name in values then 3 else 0
      ensures tables.schemas == old(tables.schemas) && SameRegistry(names, old(names))
      ensures ok <==> FieldChecked(f, values)
      ensures ok ==> FieldKnown(f, values, Dict())
    {
      hide Valid;
      if f.name !in values { return f.optional; }
      var v := values[f.name];
      if !FieldAccepts(f.kind, v) { return false; }
      if f.kind.StringKind? {
        var _ := EnsureString(v.s);
      } else if f.kind.PlayerKind? {
        var _ := EnsurePlayer(v.s, None);
      }
      return true;
    }

    /** The loop that writes the present fields. */
    method WriteFields(fields: seq<FieldSpec>, values: Payload) returns (r: Result<bytes>)
      requires Valid() && FieldsKnown(fields, values, Dict())
      requires forall i :: 0 <= i < |fields| ==> FieldChecked(fields[i], values)
      modifies `names, `payload, `tables
      ensures Valid() && Dict() == old(Dict()) && names.Load() == old(names).Load()
      ensures r == FieldsBytes(fields, values, Dict())
      ensures tables.schemas == old(tables.schemas) && SameRegistry(names, old(names))
    {
      hide Valid, VarUint, ZigZag, NumberBytes;
      var written: bytes := [];
      ghost var d := Dict();
      assert fields[0..] == fields;
      AfterNothing(FieldsBytes(fields, values, d));
      for i := 0 to |fields|
        invariant Valid() && Dict() == d && names.Load() == old(names).Load() && tables.schemas == old(tables.schemas) && SameRegistry(names, old(names))
        invariant FieldsKnown(fields[i..], values, d)
        invariant FieldsBytes(fields, values, d) == After(written, FieldsBytes(fields[i..], values, d))
      {
        var f := fields[i];
        assert fields[i..][0] == f && fields[i..][1..] == fields[i + 1..];
        assert FieldChecked(f, values) && FieldKnown(f, values, d);
        var one: Result<bytes> := Success([]);
        if f.name in values {
          one := WriteField(f.kind, values[f.name]);
          if one.Failure? { return Failure; }
        }
        AfterTwice(written, one.value, FieldsBytes(fields[i + 1..], values, d));
        written := written + one.value;
      }
      AfterAll(written);
      return Success(written);
    }

    method WriteField(kind: FieldKind, v: FieldInput) returns (r: Result<bytes>)
      requires Valid() && FieldAccepts(kind, v)
      requires v.AsText? ==> (kind.StringKind? ==> v.s in names.stringIds) && (kind.PlayerKind? ==> v.s in names.playerIds)
      modifies `names, `payload, `tables
      ensures Valid() && Dict() == old(Dict()) && names.Load() == old(names).Load()
      ensures r == FieldBytes(kind, v, Dict())
      ensures tables.schemas == old(tables.schemas) && SameRegistry(names, old(names))
    {
      hide PlayerTold;
      match kind {
        case BooleanKind => return Success([if v.b then 1 else 0]);
        case UIntKind => return Success(VarUint(v.n.n));
        case IntKind => return if FitsVarInt(v.n.n) then Success(VarUint(ZigZag(v.n.n))) else Failure;
        case NumberKind => return Success(NumberBytes(v.n));
        case StringKind =>
          var ref := EnsureString(v.s);
          return Success(VarUint(ref));
        case PlayerKind =>
          var ref := EnsurePlayer(v.s, None);
          return Success(VarUint(ref));
      }
    }

    /** The body is prepared and the reader's schema table gives `typeId` the right form. */
    ghost predicate BodyReady(body: EventBody, typeId: nat)
      reads this
    {
      match body
      case Builtin(v) => ProperInput(v) && Known(v, Dict()) && typeId !in tables.schemas
      case Custom(name, fields, values) =>
        && FieldsKnown(fields, values, Dict())
        && (forall i :: 0 <= i < |fields| ==> FieldChecked(fields[i], values))
        && typeId in tables.schemas && tables.schemas[typeId] == SchemaDefinition(name, WireFields(fields))
    }

    method WriteBody(body: EventBody, typeId: nat) returns (r: Result<bytes>)
      requires Valid() && BodyReady(body, typeId)
      modifies `names, `payload, `tables
      ensures Valid() && Dict() == old(Dict()) && names.Load() == old(names).Load()
      ensures tables.schemas == old(tables.schemas) && SameRegistry(names, old(names))
      ensures r.Success? <==> BodyEncodable(body)
      ensures r.Success? && InRange() ==> IsPayload(r.value, tables, typeId, BodyMeaning(body))
    {
      match body {
        case Builtin(v) =>
          r := WriteValue(v);
          ValueBytesExist(v, Dict());
          if r.Success? && InRange() {
            names.DictionaryAgrees(tables);
            BuiltinReads(v, Dict(), tables, typeId);
          }
        case Custom(_, fields, values) =>
          var bitset := BuildBitset(fields, values);
          var rest := WriteFields(fields, values);
          FieldsBytesExist(fields, values, Dict());
          if rest.Failure? { return Failure; }
          r := Success(VarUint(|bitset|) + bitset + rest.value);
          if InRange() {
            names.DictionaryAgrees(tables);
            CustomReads(fields, values, Dict(), tables, typeId, bitset);
          }
      }
    }

    // ---------- chunks ----------

    method RotateByTick(tick: nat)
      requires Valid()
      modifies `active, `payload, `chunkCount, `chunks, `base, `raws
      ensures Valid() && old(chunks) <= chunks && chunkCount >= old(chunkCount)
      ensures active.eventCount == 0 || tick >= active.previousTick <==> TickAccepted(old(active), tick)
      ensures if old(active).eventCount > 0 && tick - old(active).startTick >= maxChunkTickSpan then
          active.eventCount == 0 && chunks == old(chunks) + [old(Sealed())]
        else active == old(active) && chunks == old(chunks) && payload == old(payload)
    {
      hide Recorded, Dictionaries.Match, Sealed;
      if active.eventCount > 0 && tick - active.startTick >= maxChunkTickSpan {
        SealChunk();
      }
    }

    /** The tick starts a new chunk or does not go back in the active one. */
    predicate TickAccepted(active: ActiveChunk, tick: nat) {
      active.eventCount == 0 || tick - active.startTick >= maxChunkTickSpan || tick >= active.previousTick
    }

    /** The active chunk as it is handed over. */
    function Sealed(): TraceChunk
      reads this
    {
      TraceChunk(sessionId, active.index, active.firstSequence, active.lastSequence, active.startTick, active.endTick, active.eventCount,
                 ChunkHeadBytes(ChunkHead(active.index, active.firstSequence, active.startTick, active.eventCount)) + payload)
    }

    method SealChunk()
      requires Valid()
      modifies `active, `payload, `chunkCount, `chunks, `base, `raws
      ensures Valid() && old(chunks) <= chunks && chunkCount >= old(chunkCount)
      ensures active.eventCount == 0
      ensures if old(active).eventCount == 0 then active == old(active) && chunks == old(chunks) && payload == old(payload)
        else chunks == old(chunks) + [old(Sealed())]
      ensures Told(chunks, |chunks|) == |log|
    {
      hide Counted, Decodable, Dictionaries.Match, ChunkHeadBytes, Labelled, WithinSpan, Metered;
      ToldAll(sequence, log, chunkCount, chunks, active, raws);
      if active.eventCount == 0 {
        return;
      }
      var head := ChunkHead(active.index, active.firstSequence, active.startTick, active.eventCount);
      var content := ChunkHeadBytes(head) + payload;
      var chunk := TraceChunk(sessionId, active.index, active.firstSequence, active.lastSequence,
                              active.startTick, active.endTick, active.eventCount, content);
      chunkCount := chunkCount + 1;
      NextLabel(chunks, sessionId, chunk, sequence, log, chunkCount - 1, active, raws, maxChunkTickSpan);
      NextMetered(chunks, chunk, sequence, log, chunkCount - 1, active, raws, maxChunkTickSpan);
      SealCounts(sequence, log, chunkCount - 1, chunks, active, raws, chunk);
      if InRange() {
        SealDecodes(payload, base, tables, raws, chunks, log, chunk, sequence, chunkCount - 1, active);
      }
      chunks := chunks + [chunk];
      active := EmptyChunk(chunkCount);
      payload, base, raws := [], tables, [];
    }

    /** Seal the current chunk so that a snapshot can include it. */
    method Flush()
      requires Valid()
      modifies `active, `payload, `chunkCount, `chunks, `base, `raws
      ensures Valid() && old(chunks) <= chunks && chunkCount >= old(chunkCount)
      ensures !ended ==> Told(chunks, |chunks|) == |log| && active.eventCount == 0
      ensures ended ==> chunks == old(chunks) && active == old(active)
    {
      hide Recorded, Dictionaries.Match;
      if !ended {
        SealChunk();
      }
    }

    // ---------- events ----------

    /** The event that `log` gains. */
    function EventOf(tick: nat, typeId: nat, source: InputSource, body: EventBody): TraceEvent
      reads this
    {
      TraceEvent(sequence + 1, tick, typeId, BodyName(body), SourceMeaning(source), BodyMeaning(body))
    }

    /** Appends the event, or throws on the way and leaves no trace of it. */
    method AppendEvent(typeId: nat, tick: nat, source: InputSource, body: EventBody) returns (ok: bool)
      requires Valid() && BodyReady(body, typeId) && typeId <= names.nextCustomTypeId && tick <= MAX_SAFE
      requires source.name.Some? ==> source.name.value in names.stringIds
      requires active.eventCount > 0 ==> tick - active.startTick < maxChunkTickSpan
      modifies `names, `payload, `tables,
               `active, `sequence, `log, `raws, `chunkCount, `chunks, `base
      ensures Valid() && old(chunks) <= chunks
      ensures InRange() ==>
        (ok <==> (old(active).eventCount == 0 || tick >= old(active).previousTick) && SourceEncodable(source) && BodyEncodable(body))
      ensures log == if ok then old(log) + [old(EventOf(tick, typeId, source, body))] else old(log)
      ensures SameRegistry(names, old(names))
      ensures InRange() ==> old(InRange())
      ensures Load() <= old(Load()) + 1
      ensures LastTickIs(old(active), active, tick)
      ensures if ok then Sized(active, payload, chunks, maxChunkBytes) else chunks == old(chunks)
    {
      hide Dictionaries.Load, Sized, WithinSpan, Labelled, Counted, Decodable, Dictionaries.Match, EventHead, EventRecord, IsRecord, IsPayload, Agree, Known,
           SourceEncodable, BodyEncodable, BodyMeaning, SourceMeaning, FieldsKnown, FieldChecked, ProperInput, WireFields;
      StartChunk(sequence, log, chunkCount, chunks, active, raws, tick);
      if active.eventCount == 0 {
        active := active.(firstSequence := sequence + 1, startTick := tick, previousTick := tick);
      }
      var delta := tick - active.previousTick;
      var record := EncodeEvent(delta, typeId, source, body);
      if record.Failure? {
        return false;
      }
      ghost var raw := RawEvent(delta, typeId, BodyName(body), SourceMeaning(source), BodyMeaning(body));
      Commit(record.value, tick, raw, EventOf(tick, typeId, source, body));
      return true;
    }

    /** The record of an event, unless something in it cannot be written. */
    method EncodeEvent(delta: int, typeId: nat, source: InputSource, body: EventBody) returns (r: Result<bytes>)
      requires Valid() && BodyReady(body, typeId) && typeId <= names.nextCustomTypeId && delta <= MAX_SAFE
      requires source.name.Some? ==> source.name.value in names.stringIds
      modifies `names, `payload, `tables
      ensures Valid() && names.Load() == old(names).Load() && SameRegistry(names, old(names))
      ensures InRange() ==> (r.Success? <==> delta >= 0 && SourceEncodable(source) && BodyEncodable(body))
      ensures r.Success? ==> delta >= 0
      ensures r.Success? && InRange() ==>
        IsRecord(r.value, Progress(tables, raws),
                 Progress(tables, raws + [RawEvent(delta, typeId, BodyName(body), SourceMeaning(source), BodyMeaning(body))]))
    {
      hide Dictionaries.Load, WithinSpan, Labelled, Counted, Decodable, Dictionaries.Match, EventHead, EventRecord, IsRecord, IsPayload, Agree,
           Known, SourceEncodable, BodyEncodable, BodyMeaning, SourceMeaning, FieldsKnown, FieldChecked, ProperInput, WireFields;
      var head := EventHead(delta, typeId, source, Dict());
      HeadExists(delta, typeId, source, Dict());
      if head.Failure? {
        return Failure;
      }
      var written := WriteBody(body, typeId);
      if written.Failure? {
        return Failure;
      }
      RecordReads(delta, typeId, source, body, head.value, written.value);
      return Success(EventRecord(head.value, written.value));
    }

    lemma RecordReads(delta: nat, typeId: nat, source: InputSource, body: EventBody, head: bytes, written: bytes)
      requires Valid() && BodyReady(body, typeId) && (source.name.Some? ==> source.name.value in names.stringIds)
      requires EventHead(delta, typeId, source, Dict()) == Success(head)
      requires InRange() ==> IsPayload(written, tables, typeId, BodyMeaning(body))
      ensures InRange() ==>
        IsRecord(EventRecord(head, written), Progress(tables, raws),
                 Progress(tables, raws + [RawEvent(delta, typeId, BodyName(body), SourceMeaning(source), BodyMeaning(body))]))
    {
      hide Counted, Decodable, Dictionaries.Match, EventHead, EventRecord, IsRecord, IsPayload, Agree, Known,
           SourceEncodable, BodyEncodable, BodyMeaning, SourceMeaning, FieldsKnown, FieldChecked, ProperInput, WireFields;
      if InRange() {
        names.DictionaryAgrees(tables);
        EventRecordReads(delta, typeId, source, Dict(), written, BodyMeaning(body), Progress(tables, raws));
      }
    }

    /** Appends a complete event record and counts it; a full chunk is sealed. */
    method Commit(record: bytes, tick: nat, ghost raw: RawEvent, ghost event: TraceEvent)
      requires Valid() && tick <= MAX_SAFE && Started(active, sequence, tick)
      requires tick == active.previousTick + raw.delta && (active.eventCount > 0 ==> tick - active.startTick < maxChunkTickSpan)
      requires event == TraceEvent(sequence + 1, tick, raw.typeId, raw.schemaName, raw.source, raw.payload)
      requires InRange() ==> IsRecord(record, Progress(tables, raws), Progress(tables, raws + [raw]))
      modifies `payload, `active, `sequence, `log, `raws, `chunkCount, `chunks, `base
      ensures Valid() && old(chunks) <= chunks
      ensures log == old(log) + [event]
      ensures sequence == old(sequence) + 1 && chunkCount >= old(chunkCount)
      ensures active.eventCount > 0 ==> active.previousTick == tick
      ensures Sized(active, payload, chunks, maxChunkBytes)
      ensures active.eventCount == 0 <==> |old(payload)| + |record| >= maxChunkBytes
    {
      hide Counted, Decodable, Dictionaries.Match, IsRecord, Labelled, Metered;
      MeteredLonger(chunks, log, event);
      CountEvent(sequence, log, chunkCount, chunks, active, raws, tick, raw, event);
      if InRange() {
        EventDecodes(payload, base, tables, raws, chunks, log, record, raw, event);
      }
      payload := payload + record;
      sequence := sequence + 1;
      active := active.(eventCount := active.eventCount + 1, lastSequence := sequence, endTick := tick, previousTick := tick);
      raws := raws + [raw];
      log := log + [event];
      if |payload| >= maxChunkBytes {
        SealChunk();
      }
    }

    /** `emitBuiltin`: accepted exactly when nothing on the way throws. */
    method EmitBuiltin(tickSource: int, typeId: nat, value: InputValue, source: InputSource) returns (ok: bool)
      requires Valid() && typeId < 128 && ProperInput(value)
      modifies this
      ensures Valid() && ended == old(ended) && old(chunks) <= chunks
      ensures InRange() ==> old(InRange())
      ensures LastTickIs(old(active), active, CurrentTick(tickSource))
      ensures ok ==> Sized(active, payload, chunks, maxChunkBytes)
      ensures SameRegistry(names, old(names)) && Load() <= old(Load()) + ValueCost(value) + 2
      ensures InRange() ==>
        (ok <==> !ended && TickAccepted(old(active), CurrentTick(tickSource)) && SourceEncodable(source) && Encodable(value))
      ensures log == if ok then old(log) + [old(EventOf(CurrentTick(tickSource), typeId, source, Builtin(value)))] else old(log)
      ensures ok ==>
        var e := log[|old(log)|];
        && e.sequence == old(sequence) + 1 && e.tick == (if 0 <= tickSource <= 9007199254740991 then tickSource else 0)
        && e.typeId == typeId && e.schemaName == None
    {
      hide Recorded, Dictionaries.Match, Known, ProperInput, Encodable, SourceEncodable, Meaning, Labelled, WithinSpan, Sized, Sealed,
           Dictionaries.Load, Dictionaries.Fit;
      if ended { return false; }
      var tick := CurrentTick(tickSource);
      RotateByTick(tick);
      PrepareSource(source);
      ghost var prepared := Dict();
      PrepareValue(value);
      names.BuiltinFree(tables, typeId);
      assert source.name.Some? ==> source.name.value in prepared.strings.Keys;
      ok := AppendEvent(typeId, tick, source, Builtin(value));
    }

    /** Registers the schema and defines what source and fields need, or throws on the way. */
    method PrepareCustom(schema: EventSchema, values: Payload, source: InputSource) returns (r: Result<CustomSchema>)
      requires Valid()
      modifies `names, `payload, `tables
      ensures Valid() && (names.Fit() ==> old(names).Fit())
      ensures names.Load() <= old(names).Load() + |schema.fields| + 3 * |values| + 3
      ensures var (known, next, result) := Registered(old(names).schemaIds, old(names).nextCustomTypeId, schema);
        && names.schemaIds == known && names.nextCustomTypeId == next
        && (r.Success? ==> r == result)
        && (r.Failure? ==> result.Failure? || !PayloadEncodable(result.value.fields, values))
      ensures r.Success? ==>
        && (source.name.Some? ==> source.name.value in names.stringIds)
        && BodyReady(Custom(schema.name, r.value.fields, values), r.value.typeId) && r.value.typeId <= names.nextCustomTypeId
    {
      hide Valid, Registered, FieldKnown, FieldChecked, PayloadEncodable, WireFields, Dictionaries.Load;
      PrepareSource(source);
      ghost var prepared := Dict();
      r := EnsureSchema(schema);
      if r.Failure? { return; }
      var checked := PrepareFields(r.value.fields, values);
      WritableIsChecked(r.value.fields, values);
      assert source.name.Some? ==> source.name.value in prepared.strings.Keys;
      if !checked { return Failure; }
    }

    /** `emitCustom`: the schema is registered first, and stays registered if the rest throws. */
    method EmitCustom(tickSource: int, schema: EventSchema, values: Payload, source: InputSource) returns (ok: bool)
      requires Valid()
      modifies this
      ensures Valid() && ended == old(ended) && old(chunks) <= chunks
      ensures InRange() ==> old(InRange())
      ensures LastTickIs(old(active), active, CurrentTick(tickSource))
      ensures ok ==> Sized(active, payload, chunks, maxChunkBytes)
      ensures var (known, next, result) := Registered(old(names).schemaIds, old(names).nextCustomTypeId, schema);
        && (!ended ==> names.schemaIds == known && names.nextCustomTypeId == next)
        && (ended ==> SameRegistry(names, old(names)))
        && (InRange() ==>
              (ok <==> !ended && TickAccepted(old(active), CurrentTick(tickSource)) && SourceEncodable(source)
                       && result.Success? && PayloadEncodable(result.value.fields, values)))
        && (ok ==> result.Success?)
        && (ok ==>
              var body := Custom(schema.name, result.value.fields, values);
              log == old(log) + [old(EventOf(CurrentTick(tickSource), result.value.typeId, source, body))])
      ensures !ok ==> log == old(log)
      ensures ok ==>
        var e := log[|old(log)|];
        && e.sequence == old(sequence) + 1 && e.tick == (if 0 <= tickSource <= 9007199254740991 then tickSource else 0)
        && schema.name in names.schemaIds && e.typeId == names.schemaIds[schema.name].typeId && e.schemaName == Some(schema.name)
      ensures Load() <= old(Load()) + |schema.fields| + 3 * |values| + 4
    {
      hide Recorded, Dictionaries.Match, FieldKnown, FieldChecked, PayloadEncodable, SourceEncodable, Project, WireFields, Signature,
           Labelled, WithinSpan, Sized, Sealed, Dictionaries.Load, Dictionaries.Fit;
      if ended { return false; }
      var tick := CurrentTick(tickSource);
      RotateByTick(tick);
      var record := PrepareCustom(schema, values, source);
      if record.Failure? { return false; }
      ok := AppendEvent(record.value.typeId, tick, source, Custom(schema.name, record.value.fields, values));
    }

    method End(status: Status, endReason: Option<HostString>, endTick: int, endWallTime: int) returns (end: SessionEnd)
      requires Valid()
      modifies `ended, `active, `payload, `chunkCount, `chunks, `base, `raws
      ensures Valid() && ended && old(chunks) <= chunks && chunkCount >= old(chunkCount)
      ensures end.eventCount == |log| && end.chunkCount == |chunks| && end.sessionId == sessionId
      ensures end.status == status && end.endTick == endTick && end.endWallTime == endWallTime
      ensures end.endReason.Some? <==> endReason.Some? && endReason.value != []
      ensures end.endReason.Some? ==> end.endReason.value == endReason.value
      ensures !old(ended) ==> Told(chunks, |chunks|) == |log|
    {
      hide Decodable, Dictionaries.Match, Labelled, WithinSpan, Metered, Told;
      if !ended {
        ended := true;
        SealChunk();
      }
      var reason: Option<seq<unit>> := if endReason.Some? && endReason.value != [] then endReason else None;
      end := SessionEnd(sessionId, status, endTick, endWallTime, reason, sequence, chunkCount);
    }
  }

  /** The active chunk, if not empty, ends at `tick` or where it ended before. */
  predicate LastTickIs(before: ActiveChunk, after: ActiveChunk, tick: nat) {
    after.eventCount > 0 ==>
      after.previousTick == tick || (before.eventCount > 0 && after.previousTick == before.previousTick)
  }

  /** From `n'` to `n` the schema registry is untouched and no counter came back into range. */
  predicate SameRegistry(n: Dictionaries, n': Dictionaries) {
    n.schemaIds == n'.schemaIds && n.nextCustomTypeId == n'.nextCustomTypeId && (n.Fit() ==> n'.Fit())
  }

  /** A player who is new or has a new name is defined, with the name given now or else the last one. */
  predicate PlayerTold(n: Dictionaries, t: Tables, t': Tables, id: HostString, name: Option<HostString>, ref: nat) {
    var known := if id in n.playerNames then n.playerNames[id] else None;
    t' == t.(strings := t'.strings, players :=
      if id in n.playerIds && (name.None? || name == known) then t.players
      else t.players[ref := PlayerDefinition(id, if name.Some? then name else known)])
  }

  /** What `ensureSchema` does to the registry, and whether it throws. */
  function Registered(known: map<seq<unit>, CustomSchema>, next: nat, schema: EventSchema):
    (map<seq<unit>, CustomSchema>, nat, Result<CustomSchema>)
  {
    if schema.name in known then
      var existing := known[schema.name];
      (known, next, if Signature(existing.fields) == Signature(schema.fields) then Success(existing) else Failure)
    else
      var record := CustomSchema(next, schema.fields);
      (known[schema.name := record], next + 1, Success(record))
  }

  lemma FewGiven(given: set<seq<unit>>, values: Payload)
    requires given <= values.Keys
    ensures |given| <= |values|
  {
    Subset(given, values.Keys);
    assert |values.Keys| == |values|;
  }

  lemma {:induction false} Subset<T>(a: set<T>, b: set<T>)
    requires a <= b
    ensures |a| <= |b|
    decreases a
  {
    if a != {} {
      var x :| x in a;
      Subset(a - {x}, b - {x});
    }
  }

  lemma WritableIsChecked(fields: seq<FieldSpec>, values: Payload)
    ensures PayloadEncodable(fields, values) ==> forall i :: 0 <= i < |fields| ==> FieldChecked(fields[i], values)
  {
    if PayloadEncodable(fields, values) {
      forall i | 0 <= i < |fields| ensures FieldChecked(fields[i], values) {
        assert FieldWritable(fields[i], values);
      }
    }
  }

  lemma FieldKnownGrows(f: FieldSpec, values: Payload, d: Dictionary, d': Dictionary)
    requires FieldKnown(f, values, d) && Grows(d, d')
    ensures FieldKnown(f, values, d')
  {
    if f.name in values && values[f.name].AsText? {
      assert f.kind.StringKind? ==> values[f.name].s in d.strings.Keys;
      assert f.kind.PlayerKind? ==> values[f.name].s in d.players.Keys;
    }
  }

  lemma BuiltinReads(v: InputValue, d: Dictionary, t: Tables, typeId: nat)
    requires ProperInput(v) && Known(v, d) && Agree(d, t) && ValueBytes(v, d).Success? && typeId !in t.schemas
    ensures IsPayload(ValueBytes(v, d).value, t, typeId, Meaning(v))
  {
    hide Agree, Known, ProperInput, ValueBytes, TakeValue, Meaning;
    forall rest: bytes ensures TakePayload(ValueBytes(v, d).value + rest, t, typeId) == Success((Meaning(v), rest)) {
      ValueInverts(v, d, t, rest);
    }
  }

  lemma CustomReads(fields: FieldList, values: Payload, d: Dictionary, t: Tables, typeId: nat, bitset: bytes)
    requires FieldsKnown(fields, values, d) && PayloadEncodable(fields, values) && Agree(d, t)
    requires forall i :: 0 <= i < |fields| ==> FieldChecked(fields[i], values)
    requires |bitset| <= MAX_SAFE && HoldsBits(bitset, Presence(fields, values))
    requires typeId in t.schemas && t.schemas[typeId].fields == WireFields(fields)
    ensures FieldsBytes(fields, values, d).Success?
    ensures IsPayload(VarUint(|bitset|) + bitset + FieldsBytes(fields, values, d).value, t, typeId, Obj(Project(fields, values)))
  {
    hide Agree, FieldWritable, FieldChecked, FieldKnown, HoldsBits, TakeCustomPayload, FieldsBytes, Project, WireFields, Presence, VarUint;
    CustomPayloadInverts(fields, values, d, t, bitset, []);
    var body := VarUint(|bitset|) + bitset + FieldsBytes(fields, values, d).value;
    forall rest: bytes ensures TakePayload(body + rest, t, typeId) == Success((Obj(Project(fields, values)), rest)) {
      CustomPayloadInverts(fields, values, d, t, bitset, rest);
    }
  }

  lemma HeadExists(delta: int, typeId: nat, source: InputSource, d: Dictionary)
    requires source.name.Some? ==> source.name.value in d.strings
    ensures EventHead(delta, typeId, source, d).Success? ==> delta >= 0
    ensures typeId <= MAX_SAFE && delta <= MAX_SAFE ==>
      (EventHead(delta, typeId, source, d).Success? <==> delta >= 0 && SourceEncodable(source))
  {
  }

  // ---------- bit sets ----------

  function Optionals(fields: seq<FieldSpec>): seq<FieldSpec> {
    if fields == [] then []
    else (if fields[0].optional then [fields[0]] else []) + Optionals(fields[1..])
  }

  lemma {:induction false} PresenceOfOptionals(fields: seq<FieldSpec>, values: Payload)
    ensures |Presence(fields, values)| == |Optionals(fields)| <= |fields|
    ensures forall i :: 0 <= i < |Optionals(fields)| ==> Presence(fields, values)[i] == (Optionals(fields)[i].name in values)
  {
    if fields != [] {
      PresenceOfOptionals(fields[1..], values);
    }
  }

  method BuildBitset(fields: FieldList, values: Payload) returns (bitset: bytes)
    ensures |bitset| <= MAX_SAFE && HoldsBits(bitset, Presence(fields, values))
    ensures var optional := Optionals(fields);
      && 8 * (|bitset| - 1) < |optional| <= 8 * |bitset|
      && forall i :: 0 <= i < |optional| ==> (BitOf(bitset[i / 8], i % 8) <==> optional[i].name in values)
  {
    var optional := Optionals(fields);
    PresenceOfOptionals(fields, values);
    bitset := seq((|optional| + 7) / 8, _ => 0);
    forall i | 0 <= i < 8 * |bitset| ensures !Bit(bitset, i) { NoBitOfZero(i % 8); }
    for index := 0 to |optional|
      invariant |bitset| == (|optional| + 7) / 8
      invariant forall i :: 0 <= i < index ==> Bit(bitset, i) == (optional[i].name in values)
      invariant forall i :: index <= i < 8 * |bitset| ==> !Bit(bitset, i)
    {
      if optional[index].name in values {
        var before := bitset;
        bitset := bitset[index / 8 := SetBit(bitset[index / 8], index % 8)];
        assert forall i | 0 <= i < 8 * |bitset| :: Bit(bitset, i) == (i == index || Bit(before, i));
      }
    }
  }

  // ---------- prefixes of the log ----------

  /** One more event does not change what the sealed chunks tell. */
  lemma LongerLog(chunks: seq<TraceChunk>, log: seq<TraceEvent>, event: TraceEvent)
    requires TellsPrefixes(chunks, log)
    ensures TellsPrefixes(chunks, log + [event])
  {
    forall k | 0 <= k <= |chunks| ensures TellsPrefix(chunks, log + [event], k) {
      assert TellsPrefix(chunks, log, k);
      assert (log + [event])[..Told(chunks, k)] == log[..Told(chunks, k)];
    }
  }

  /** One more chunk tells the events recorded in it. */
  lemma NextPrefix(chunks: seq<TraceChunk>, log: seq<TraceEvent>, c: TraceChunk, base: Tables, tables: Tables)
    requires TellsPrefixes(chunks, log) && Told(chunks, |chunks|) <= c.lastSequence == |log|
    requires DecodedChunks(Contents(chunks), EMPTY_TABLES).Success?
    requires DecodedChunks(Contents(chunks), EMPTY_TABLES).value.0 == base
    requires DecodedChunk(c.content, base) == Success((tables, log[Told(chunks, |chunks|)..]))
    ensures TellsPrefixes(chunks + [c], log)
    ensures DecodedChunks(Contents(chunks + [c]), EMPTY_TABLES).Success?
    ensures DecodedChunks(Contents(chunks + [c]), EMPTY_TABLES).value.0 == tables
  {
    hide DecodedChunk, DecodedChunks, Contents;
    var all := chunks + [c];
    var told := Told(chunks, |chunks|);
    assert chunks[..|chunks|] == chunks;
    assert TellsPrefix(chunks, log, |chunks|);
    ContentsLast(chunks, c);
    DecodedChunksLast(Contents(chunks), EMPTY_TABLES, c.content);
    assert log[..told] + log[told..] == log[..|log|];
    forall k | 0 <= k <= |all| ensures TellsPrefix(all, log, k) {
      if k <= |chunks| {
        assert all[..k] == chunks[..k] && Told(all, k) == Told(chunks, k);
        assert TellsPrefix(chunks, log, k);
      } else {
        assert all[..k] == all;
      }
    }
  }
}
