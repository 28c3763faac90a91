# Verified models of BEGame

BEGame is a framework for Minecraft Bedrock minigames with a tracing pipeline. This project
models its hardest parts in Dafny and proves what they are for. Four clusters are covered.

**The trace pipeline** (`packages/trace/src`). A `TraceSession` turns calls into bytes: it
interns strings, players, states, components and schemas, writes each definition before its
first use, delta-codes ticks and rotates chunks. `decodeBegTrace` rebuilds the dictionaries and
the events. The class `Session.TraceSession` keeps a ghost `log` of accepted events, and its
invariant says that what has been written so far decodes to that log. From there:
`SessionRuns.RecordFile` (any run, then the file, then the decoder, gives the accepted events),
`HistoryStore` (a key-value store with switching, recovery and retention, whose ghost fields
`past` and `known` list every content a crash can find and what the store was told of each
session), `Pipeline` (session and store together: snapshots, the finished file, and what a crash
between any two writes leaves) and `TraceManagers` (the sessions of any number of games in one
store, interleaved in any way). Varints, UTF-8, raw values, the container, Base64, the ingest
parts and the log lines lie below and beside it. `TraceErrors` is the serializer of thrown values.

**WebSocket framing** (`packages/observatory/server/ws.ts`). The incremental parser gives the
same result for every segmentation, and streams of fragmented messages with pings in between
arrive message by message (sections 5.2 to 5.5 of RFC 6455).

**Lifecycle machines** (`packages/core/src`, `packages/trace/src/serverNet.ts`). The state stack
with scripts of failing callbacks and its rollback, the runner table, the room policies on one
clock, and the reconnecting bridge. Each has a machine on values, theorems about all its runs,
and a class whose methods are proved to do the steps of the machine.

**Geometry and packing.** Splitting a region into an exact partition, the occupancy mask, and
the ZIP writer with the reader that inverts it.

## How to read it

`Take...` functions define what a reader takes off the front of some bytes; a lemma called
`...Inverts` says that this undoes the writer whatever follows. `BinaryReader.Follows` ties a
reading method to such a function. Lemmas called `...Sound` say that a step keeps an invariant.
What a round trip or an invariant leaves open is said without the functions it is about: `WireVectors`
writes out bytes, `RetentionRule` says which sessions stay without any list, `StackEffects` says what
each operation on the stack takes and leaves, and masks and checksums are told bit by bit.
`dafny verify dfyconfig.toml` checks everything.

Numbers are mathematical integers; what the wire format can hold is written out (`MAX_SAFE` is
2^53 - 1), and so are 32-bit operations. A number of the host language is a safe integer or the 8
bytes of any other float. Text is a sequence of 16-bit units of fewer than 2^30, the limit of
the engine. What the session has counted (strings, players, events and so on) is unbounded in the model, and
its file is promised to decode while all counters are safe integers (`InRange`). A new session is
in range, no call takes the counters further than its `Cost`, which counts the texts, players and
fields in it, and so a session is in range as long as its calls are `Affordable`: their costs add
up to at most 2^53 - 129.

## Where the code does not do what one would expect

- A source whose reference is -1 loses it: `SessionWire.SourceKept`.
- Schema signatures collide exactly when a bar may occur in field names, and a collision loses
  fields: `SchemaSignatures`.
- `index >> 3` works on 32 bits, so the occupancy mask is wrong for every size above 2^31 blocks
  and right for all others: `BlockMask.FaithfulExactly`.
- `splitCubeRegion` keeps its batch limit if and only if the batch size is at least one.
- A room deserted from tick T on, with nobody joining or coming back, is stopped by tick
  T + timeout + 2 if and only if it is stopped already, has members, has a check outstanding or
  has its periodic check by then: `RoomLifecycle.DesertedRoomStops`. So a room that starts empty
  keeps the bound if and only if the grace period is at least 198 ticks.
- The rollback of a failed `pushState` takes the first state it cuts off to be the entering one.
  That is right if and only if `StackSafety.RollbackSound` says so; concrete runs show what is
  lost otherwise. What a state acquires while it is off the stack leaks, without any failure:
  a runner always (`StackSafety.LaunchLeaks`), a component exactly if anything of it stays
  (`StackSafety.AttachLeaks`).
- The bridge gets stuck, neither stopped nor paused and with nothing on its way that would
  connect it again, if and only if `Reconnect.Strands` says so: the first report of a failure
  throws while no retry is set, `start()` is called from within the report of a pause, or the
  close event of the adopted socket could not be subscribed to. `start()` does not help then.
- With a cap of one, a first report that throws lets the bridge count two failures:
  `Reconnect.StepCapped`. With a larger cap the failures never exceed it.
- `enable()` recovers and then cleans up, so a session can be recovered and removed in one go.
  `restoreEnabled()` followed by `enable()` before the world is ready ends with the old persisted
  choice, since callbacks run in the order in which they came: `HistoryStore.LastRestoreWins`.
- `delete` reaches another session's keys if and only if the other id begins with the given one
  and a dot: `StoreKeys.PrefixReaches`. The ids that the manager builds have no dots.
- An error that a generator throws is lost if and only if the generator called its own job off
  in the same turn: `Runners.OwnErrorIsLost`.
- `traceError` limits entries, depth and text, but mentions of an error that is being told already
  use no entries: with aggregates of up to w errors there are up to 15 w + 1 of them, and that many
  are reached: `TraceErrors.ManyCircles`.

## Preconditions

They are those the code needs. Built-in type ids are below 128 (`docs/game-trace.md:154`);
payload keys do not repeat; session ids have no dot and are not used twice
(`packages/trace/src/runtime/manager.ts:283-286`); regions have ordered integer corners; log lines
have rising offsets; the room's grace period is at least one tick.

## Model

| member | source | states |
|---|---|---|
| `Utf8.RoundTrip` | packages/trace/src/wire/binary.ts:4-152 | Decoding the encoding of any sequence of 16-bit units gives it back, lone surrogates included. |
| `Utf8.EncodeUtf8` | packages/trace/src/wire/binary.ts:4-41 | The loop yields, unit by unit and pair by pair, the same bytes as the recursive encoding that `RoundTrip` is about. |
| `Utf8.DecodeUtf8` | packages/trace/src/wire/binary.ts:99-152 | The loop accepts and yields exactly what the recursive decoder does, errors included. |
| `Utf8.Utf8ByteLength` | packages/trace/src/wire/binary.ts:43-69 | The counted length is the length of the encoding. |
| `Utf8.TruncateUtf8` | packages/trace/src/wire/binary.ts:71-97 | The result is a prefix that fits and splits no surrogate pair, and no longer prefix does; with a negative budget it is empty. |
| `Utf8.EncodeSplit` | packages/trace/src/wire/binary.ts:4-41 | The encoding of a text is the encodings of its two parts joined, wherever the cut does not split a pair. |
| `Utf8.CharIsNumbered` | packages/trace/src/wire/binary.ts:4-41 | Section 3 of RFC 3629: the lead byte tells how many bytes there are, and all of them together hold the number of the character, six bits in each continuation. |
| `Utf8.CharDecodes` | packages/trace/src/wire/binary.ts:99-152 | Of any bytes the decoder takes a character if and only if the lead is one, all its continuations are there and it is within Unicode; what it takes has the number they stand for. |
| `Binary.VarUintInverts` | packages/trace/src/wire/binary.ts:169-245 | Every safe integer takes at most 8 bytes and reads back with what follows left over; any larger number written in the same digits would be refused. |
| `Binary.VarIntInverts` | packages/trace/src/wire/binary.ts:181-250 | Zig-zag coding stays within the safe integers exactly on -2^52 to 2^52-1, and there it reads back with what follows left over. |
| `Binary.Float64Inverts` | packages/trace/src/wire/binary.ts:188-255 | A number written as 8 bytes reads back as the same number, integers as integers. |
| `Binary.StringInverts` | packages/trace/src/wire/binary.ts:194-260 | A length-prefixed string reads back with what follows left over. |
| `Binary.VarUintIs` | packages/trace/src/wire/binary.ts:169-179 | The bytes are the digits of the number to the base 128, lowest first; all but the last are marked, and none is superfluous. |
| `Binary.VarUintReads` | packages/trace/src/wire/binary.ts:232-245 | Any digits, superfluous ones included, are read up to the first unmarked byte if that is one of the first eight and the number is safe; otherwise they are refused. |
| `Binary.VarUintEnds` | packages/trace/src/wire/binary.ts:232-245 | Digits without an unmarked byte are refused. |
| `Binary.ZigZagCounts` | packages/trace/src/wire/binary.ts:181-186 | Signed numbers are counted in the order 0, -1, 1, -2, 2 and so on. |
| `Float64.WordMeans` | packages/trace/src/wire/binary.ts:188-192 | Section 3.4 of IEEE 754: the word of an integer has its sign, its exponent biased by 1023 and 52 bits of its significand. |
| `Binary.BinaryWriter.WriteVarUint` | packages/trace/src/wire/binary.ts:169-179 | Succeeds exactly on the non-negative safe integers, appends the digits, and appends nothing when refused. |
| `Binary.BinaryWriter.WriteVarInt` | packages/trace/src/wire/binary.ts:181-186 | Succeeds exactly on -2^52 to 2^52-1 and appends nothing when refused. |
| `Binary.BinaryWriter.WriteString` | packages/trace/src/wire/binary.ts:194-198 | Appends length and encoding of the string behind what was written before. |
| `Binary.BinaryReader.ReadVarUint` | packages/trace/src/wire/binary.ts:232-245 | The multiplying loop reads what the digit-by-digit definition reads, moves past exactly those bytes, and fails on the same inputs (end of data, ninth digit, overflow). |
| `Binary.BinaryReader.ReadVarInt` | packages/trace/src/wire/binary.ts:247-250 | Reads a zig-zag number, or fails, as the definition on the unread bytes says. |
| `Binary.BinaryReader.ReadBytes` | packages/trace/src/wire/binary.ts:223-230 | Hands out exactly the asked number of unread bytes, or fails when there are fewer or the number is negative. |
| `Binary.BinaryReader.ReadString` | packages/trace/src/wire/binary.ts:257-260 | Reads a length-prefixed string off the unread bytes, or fails where the definition does. |
| `RawValues.RawInverts` | packages/trace/src/wire/binary.ts:275-358 | A nested value that could be written reads back, followed by any bytes, and leaves exactly those bytes. |
| `RawValues.RawExists` | packages/trace/src/wire/binary.ts:275-322 | A value has an encoding if and only if every integer in it is safe and every text and list can be counted, at any depth. |
| `RawValues.WriteRawValue` | packages/trace/src/wire/binary.ts:275-322 | The recursive writer succeeds exactly where the format has an encoding and appends it. |
| `RawValues.ReadRawValue` | packages/trace/src/wire/binary.ts:324-358 | The recursive reader takes off the unread bytes what the format's definition takes. |
| `WireVectors.RawVectors` | packages/trace/src/wire/binary.ts:275-322 | The bytes of each kind of raw value, written out. |
| `Container.FileInverts` | packages/trace/src/wire/container.ts:26-123 | Decoding an encoded container returns its header, its chunks in order and its footer. |
| `Container.FileExists` | packages/trace/src/wire/container.ts:26-63 | A file can be written if and only if all numbers of header and footer and all lengths are safe integers and the texts and values in them have an encoding. |
| `Container.EncodeBegTrace` | packages/trace/src/wire/container.ts:26-63 | The writer calls produce the file that `FileInverts` is about, or fail where a field has no encoding. |
| `Container.DecodeBegTraceContainer` | packages/trace/src/wire/container.ts:65-123 | The reader calls decode the whole file or fail, exactly as the format's definition does; left-over bytes are refused. |
| `Container.HeaderInverts` | packages/trace/src/wire/container.ts:31-95 | A header with any choice of optional fields reads back with what follows left over. |
| `Container.ChunksInvert` | packages/trace/src/wire/container.ts:49-101 | A list of length-prefixed chunks reads back with what follows left over. |
| `Container.EndInverts` | packages/trace/src/wire/container.ts:55-121 | A footer of any status reads back with what follows left over. |
| `Container.NothingFollows` | packages/trace/src/wire/container.ts:65-123 | A file with anything behind it is refused. |
| `Container.OtherFilesRefused` | packages/trace/src/wire/container.ts:65-123 | Whatever is decoded begins with "BEGT" and version 1, and a footer of an unknown status is refused. |
| `Container.OtherFlagsIgnored` | packages/trace/src/wire/container.ts:65-95 | Only the three low bits of the flags of a header count. |
| `WireVectors.HeaderVectors` | packages/trace/src/wire/container.ts:26-63 | The bytes of a header and the flag of each optional field, written out. |
| `WireVectors.EndVectors` | packages/trace/src/wire/container.ts:26-63 | The bytes of a footer, the code of each status and a chunk with its length, written out. |
| `DecoderReader.DecodeBegTrace` | packages/trace/src/wire/decoder.ts:44-61 | The imperative decoder computes the format's definition: chunk after chunk with the tables carried over, failing where that fails. |
| `DecoderReader.DecodeChunk` | packages/trace/src/wire/decoder.ts:63-161 | The record loop fills the tables and appends the chunk's events with running sequence and ticks, exactly as defined on the chunk's bytes. |
| `DecoderReader.ReadRecord` | packages/trace/src/wire/decoder.ts:82-154 | One record changes the tables or yields one event as the definition says, for every tag; an unknown tag fails. |
| `DecoderReader.ReadValue` | packages/trace/src/wire/decoder.ts:197-233 | Reads a tagged value with its references resolved, or fails, as defined on the unread bytes. |
| `DecoderReader.ReadCustomPayload` | packages/trace/src/wire/decoder.ts:235-253 | Reads the presence bits and then exactly the fields that are there. |
| `DecoderReader.ReadSource` | packages/trace/src/wire/decoder.ts:163-195 | Reads kind, optional reference and optional name of a source. |
| `Decoder.AssembleLast` | packages/trace/src/wire/decoder.ts:79-150 | One more event gets the next sequence and its delta on top of the last tick. |
| `Decoder.DecodedChunksLast` | packages/trace/src/wire/decoder.ts:44-61 | Decoding one chunk more continues with the tables of the chunks before it and keeps their events. |
| `Decoder.UnknownRefused` | packages/trace/src/wire/decoder.ts:82-253 | Unknown tags of values, records, sources and fields and unknown references are refused. |
| `Decoder.OtherChunksRefused` | packages/trace/src/wire/decoder.ts:63-161 | Whatever chunk is decoded begins with "BGTC" and version 1 and has as many events as its head says. |
| `SessionWire.ValueInverts` | packages/trace/src/runtime/session.ts:709-748 | What the session writes for a prepared value decodes to its meaning, with player markers turned into ids, whatever follows. |
| `SessionWire.ValueBytesExist` | packages/trace/src/runtime/session.ts:709-748 | Once its strings and players are interned, writing a value fails exactly when it holds a number the format cannot write. |
| `SessionWire.MeaningShows` | packages/trace/src/runtime/session.ts:709-748 | What a value decodes to shows just that value: text for text, item for item, entry for entry, and the id for a player. |
| `SessionWire.CustomPayloadInverts` | packages/trace/src/runtime/session.ts:614-647 | A custom payload decodes to its schema's fields in order, absent optional ones staying absent. |
| `SessionWire.FieldsInvert` | packages/trace/src/runtime/session.ts:614-647 | The fields decode one after the other with the presence bits read at the right places. |
| `SessionWire.ProjectShows` | packages/trace/src/runtime/session.ts:614-647 | A field that is given is decoded as given and behind those before it; one that is not given leaves no trace. |
| `SessionWire.FieldTakes` | packages/trace/src/runtime/session.ts:750-806 | What a field of each kind takes: any finite number, unsigned and signed numbers up to their bounds, texts and booleans, and nothing else. |
| `SessionWire.OnlyGiven` | packages/trace/src/runtime/session.ts:614-647 | Nothing but given values is decoded. |
| `SessionWire.SourceInverts` | packages/trace/src/runtime/session.ts:678-686 | A source can be written exactly for references from -1 on that stay a safe integer, and then decodes. |
| `SessionWire.SourceKept` | packages/trace/src/runtime/session.ts:682-686 | The decoded source is the given one if and only if its reference is not -1, which is lost. |
| `SessionWire.StringRecordReads` | packages/trace/src/runtime/session.ts:808-819 | A string definition decodes to that one table entry and changes nothing else. |
| `SessionWire.PlayerRecordReads` | packages/trace/src/runtime/session.ts:821-838 | A player definition decodes to the player's id and name under its reference. |
| `SessionWire.StateRecordReads` | packages/trace/src/runtime/session.ts:840-852 | A state definition decodes to its name under its reference. |
| `SessionWire.ComponentRecordReads` | packages/trace/src/runtime/session.ts:854-870 | A component definition decodes to its state, name and optional tag. |
| `SessionWire.SchemaRecordReads` | packages/trace/src/runtime/session.ts:872-903 | A schema definition decodes to its name and its fields with their types and optionality. |
| `SessionWire.EventRecordReads` | packages/trace/src/runtime/session.ts:648-676 | An event record decodes to one event with its delta, type, schema name, source and payload, and leaves the tables alone. |
| `SessionWire.ConsumesTwice` | packages/trace/src/runtime/session.ts:648-676 | Records written one after the other decode to the composition of what each of them does. |
| `SessionWire.ChunkInverts` | packages/trace/src/runtime/session.ts:914-937 | A sealed chunk decodes to the events that were counted into it. |
| `WireVectors.ValueVectors` | packages/trace/src/runtime/session.ts:709-748 | The bytes of each kind of value, with references for strings and players, written out. |
| `WireVectors.FieldVectors` | packages/trace/src/runtime/session.ts:781-806 | The bytes and the code of each kind of field, written out. |
| `WireVectors.PayloadVector` | packages/trace/src/wire/decoder.ts:235-253 | The bytes of a custom payload with an absent, a required and a present field decode to the last two in order. |
| `WireVectors.RecordVectors` | packages/trace/src/runtime/session.ts:808-903 | The bytes of each kind of definition, written out. |
| `WireVectors.EventVectors` | packages/trace/src/runtime/session.ts:648-686 | The bytes of an event and of a source and the code of each kind of source, written out; an absent reference is 0. |
| `WireVectors.ChunkVector` | packages/trace/src/runtime/session.ts:914-937 | The bytes of a chunk's head, written out. |
| `SchemaSignatures.SignatureInjective` | packages/trace/src/runtime/session.ts:1007-1011 | Without a bar in a field name, equal signatures mean equal field lists; colons in names do no harm. |
| `SchemaSignatures.FoldedCollides` | packages/trace/src/runtime/session.ts:1007-1011 | With bars allowed, every list of two or more fields has the signature of a different list with a bar in a name. |
| `SchemaSignatures.CollisionLosesFields` | packages/trace/src/runtime/session.ts:872-903 | A concrete collision: the second schema is accepted as the first, and its payload loses a field. |
| `Session.TraceSession.constructor` | packages/trace/src/runtime/session.ts:432-468 | A new session has an empty log and all counters in range, and satisfies the invariant that ties everything written to the log. |
| `Session.TraceSession.LightIsInRange` | packages/trace/src/runtime/session.ts:432-468 | As long as all ids given out and all events together are a safe integer, every counter can be written; there are never more chunks than events. |
| `Session.TraceSession.EnsureString` | packages/trace/src/runtime/session.ts:808-819 | Known strings keep their id and nothing is written; a new one is defined first, and everything written still decodes. |
| `Session.TraceSession.EnsurePlayer` | packages/trace/src/runtime/session.ts:821-838 | The player is known afterwards under its old or next reference, which decodes to its id and to the name given now or else the last one known; known names and players are never renumbered. |
| `Session.TraceSession.EnsureState` | packages/trace/src/runtime/session.ts:840-852 | Exactly one new number for a new state, which decodes to its name, and none for a known one. |
| `Session.TraceSession.EnsureComponent` | packages/trace/src/runtime/session.ts:854-870 | Fails exactly for a new component of an unknown state; otherwise as for states, and a new number decodes to state, name and tag. |
| `Session.TraceSession.EnsureSchema` | packages/trace/src/runtime/session.ts:872-903 | Registers a new schema under the next id, reuses one with the same signature, refuses the name with another signature. |
| `Session.TraceSession.PrepareValue` | packages/trace/src/runtime/session.ts:688-707 | Afterwards every string and player of the value is defined, so definitions precede uses; no more new ids than the texts, keys and players in it need. |
| `Session.TraceSession.WriteValue` | packages/trace/src/runtime/session.ts:709-748 | Writing a prepared value defines nothing more and yields the bytes that `ValueInverts` is about. |
| `Session.TraceSession.PrepareFields` | packages/trace/src/runtime/session.ts:750-779 | Succeeds exactly when all required fields are there and all given ones have their type, and defines their texts; at most three new ids for each given field, whichever schema is registered. |
| `Session.TraceSession.WriteFields` | packages/trace/src/runtime/session.ts:781-806 | The bytes of the present fields in schema order, nothing for absent ones. |
| `Session.BuildBitset` | packages/trace/src/runtime/session.ts:614-647 | Bit i modulo 8 of byte i / 8 is set if and only if the i-th optional field is there, for every i, and there are no more bytes than that needs. |
| `Session.TraceSession.RotateByTick` | packages/trace/src/runtime/session.ts:905-912 | The chunk is sealed exactly if it has events and the tick is at least the span after its first; otherwise nothing changes. The tick is taken then unless it goes back within the chunk. |
| `Session.TraceSession.SealChunk` | packages/trace/src/runtime/session.ts:914-937 | A chunk with events is handed over with its own numbers and bytes, and then accounts for every event of the log; an empty one is not. Earlier chunks are untouched. |
| `Session.TraceSession.Flush` | packages/trace/src/runtime/session.ts:483-485 | Afterwards the handed-over chunks tell the whole log; after the end it does nothing. |
| `Session.TraceSession.AppendEvent` | packages/trace/src/runtime/session.ts:648-676 | Appends exactly that event to the log or leaves the log alone; fails exactly on a tick that goes back within its chunk or a value that has no encoding; what was written decodes to the log either way. No id is given out, and at most one event is counted. |
| `Session.TraceSession.Commit` | packages/trace/src/runtime/session.ts:655-675 | One complete record becomes one event of the log, and the chunk is sealed with it exactly if its bytes reach the limit. |
| `Session.TraceSession.EmitBuiltin` | packages/trace/src/runtime/session.ts:602-613 | An accepted call adds one event with the next sequence number, the given type, source and meaning, and the tick the clock reads, or 0 if that is not a safe non-negative integer; a refused one adds nothing. The condition for acceptance is exact, and the counters grow by no more than what the value needs. |
| `Session.TraceSession.EmitCustom` | packages/trace/src/runtime/session.ts:614-647 | The same for schema events: the event at the tick the clock reads has the type id its schema is registered under and the schema's name. The schema stays registered even if the event is refused. |
| `Session.TraceSession.End` | packages/trace/src/runtime/session.ts:563-592 | The footer counts the events of the log and the chunks handed over, which after the first call tell the whole log; it has the status, tick and time given and the reason if that is a non-empty text. |
| `SessionRuns.Run` | packages/trace/src/runtime/session.ts:432-964 | For any list of calls and any clock there are exactly as many events as accepted calls, and each accepted call has its event in its place: the tick its clock read (0 if out of range), the type and name it gave, its source, and a payload that shows its value. As long as the calls are affordable: an accepted call is one that can be written; a call that can be written and is not before the newest event is accepted. So with a clock that does not run back the accepted calls are exactly those that can be written. |
| `SessionRuns.Perform` | packages/trace/src/runtime/session.ts:602-676 | For one call the verdict is exact even when the clock runs back: accepted if and only if it can be written and its tick is accepted by the open chunk, which an accepted event leaves below the size limit or closes. An accepted event has the tick the clock read, or 0 if that is out of range. Nothing of a refused event is logged, and the counters grow by no more than the cost of the call. |
| `SessionRuns.RecordFile` | packages/trace/src/runtime/session.ts:432-964 | Any affordable calls, any clock, any chunk limits, then the end: no chunk spans more ticks than allowed, and its ticks are those of its first and last event; the file is that of the handed-over chunks, it exists if and only if header, footer and lengths can be written, and what it decodes to has one event for each accepted call, in order, with the tick its clock read (0 if out of range), its type, name, source and value. No call that can be written is refused unless its tick is before the newest event, and none accepted that cannot. |
| `SessionRuns.Sequences` | packages/trace/src/runtime/session.ts:648-676 | The accepted events are numbered 1 to n without gaps. |
| `SessionRuns.HistoryRecounts` | packages/trace/src/runtime/session.ts:602-676 | A history has as many events as calls were accepted, and every accepted call has its event in its place with its own tick, type, name, source and value. |
| `SessionRuns.OnlyEmissionsMatter` | packages/trace/src/runtime/session.ts:483-517 | Flushes and registrations of players, states and components can be put in or left out anywhere without changing the recorded events. |
| `SessionRuns.FileDecodes` | packages/trace/src/wire/decoder.ts:44-61 | A file made of handed-over chunks decodes to exactly the events they account for. |
| `Base64.EncodedDecodes` | packages/trace/src/wire/base64.ts:14-66 | Decoding the encoding of any bytes gives them back. |
| `Base64.RoundTrip` | packages/trace/src/wire/base64.ts:14-66 | The same with white space strewn into the text. |
| `Base64.DecodesExactly` | packages/trace/src/wire/base64.ts:33-66 | A text is accepted if and only if it is empty or consists of full groups of symbols with padding only at the end; the length of the result follows from the padding. |
| `Base64.SymbolIsTabled` | packages/trace/src/wire/base64.ts:1-25 | Table 1 of RFC 4648. |
| `Base64.RfcVectors` | packages/trace/src/wire/base64.ts:14-37 | Three of the test vectors in section 10 of RFC 4648. |
| `Base64.SpacesAre` | packages/trace/src/wire/base64.ts:33-35 | White space is that of ECMAScript, unit by unit. |
| `Base64.EncodeBase64` | packages/trace/src/wire/base64.ts:14-31 | The loop over three bytes at a time computes the encoding. |
| `Base64.DecodeBase64` | packages/trace/src/wire/base64.ts:33-66 | The loop that fills the output array by offset returns the decoding of the stripped text, or fails with it. |
| `Ingest.CutJoins` | packages/trace/src/bridge/ingest.ts:35-55 | The pieces of a cut text join to the text. |
| `Ingest.CutCount` | packages/trace/src/bridge/ingest.ts:35-55 | The number of pieces is the quotient rounded up, and one for an empty text. |
| `Ingest.EncodeTraceIngestParts` | packages/trace/src/bridge/ingest.ts:35-55 | The parts are the numbered pieces of the encoded bytes; a size below one counts as one. |
| `Ingest.PartsAre` | packages/trace/src/bridge/ingest.ts:35-55 | Every part names the session, its number from zero on and how many there are, and carries its piece of the text. |
| `Ingest.DecodeTraceIngestParts` | packages/trace/src/bridge/ingest.ts:88-103 | Sorts by number, refuses gaps, repeats and wrong totals, and decodes the joined text, as defined. |
| `Ingest.AnyOrder` | packages/trace/src/bridge/ingest.ts:35-103 | A collection of parts of one export is accepted if and only if it is all of them, each once, in any order, and then gives the original bytes. |
| `LogParser.ExtractTraceLogParts` | packages/trace/src/tools/logParser.ts:31-59 | Exactly the records with a part number from 1 up to their total, safe numbers and a payload remain. |
| `LogParser.GatherGroups` | packages/trace/src/tools/logParser.ts:74-101 | Refused exactly when two lines of one export contradict each other, in total or text; otherwise every export has all its received parts. |
| `LogParser.BuildExport` | packages/trace/src/tools/logParser.ts:103-128 | Received and missing numbers are exact and ascending, and the text is there if and only if nothing is missing. |
| `LogParser.CollectTraceExports` | packages/trace/src/tools/logParser.ts:65-130 | Exactly one export for every key that occurs, in the order of their last lines, or a refusal exactly on a contradiction. |
| `LogParser.Select` | packages/trace/src/tools/logParser.ts:133-160 | With an id the complete export of that session that ended first, without one the complete export that ended last; none only if there is none. |
| `LogParser.ExtractBegTraceBytes` | packages/trace/src/tools/logParser.ts:133-160 | The bytes of the chosen export, whichever order the groups were kept in. |
| `LogParser.RecoversExport` | packages/trace/src/tools/logParser.ts:65-130 | Lines of one export, in any order and with repeats, give its total, exactly its missing parts, and the original bytes once all are there. |
| `LogParser.ExtractsExport` | packages/trace/src/tools/logParser.ts:133-160 | Asked for a session whose lines come from one export: its bytes if every part occurs and no two lines of the log contradict each other, and a refusal otherwise, whatever other lines there are, in any order and with repeats. |
| `StoreKeys.PrefixSelects` | packages/trace/src/runtime/historyStore.ts:310-321 | With ids without a dot, a key starts with a session's prefix if and only if it belongs to that session. |
| `StoreKeys.PrefixReaches` | packages/trace/src/runtime/historyStore.ts:310-321 | For any ids: a key starts with a session's prefix if and only if it belongs to that session or its id begins with the session's id and a dot. |
| `StoreKeys.DottedIdLeaks` | packages/trace/src/runtime/historyStore.ts:310-321 | The key of any session whose id is this id, a dot and anything else starts with this session's prefix, although it is not its own. |
| `StoreKeys.MetaSelects` | packages/trace/src/runtime/historyStore.ts:237-246 | Prefix and suffix pick out exactly the session records among all keys. |
| `StoreKeys.RenderInjective` | packages/trace/src/runtime/historyStore.ts:437-447 | Different keys are different strings. |
| `StoreKeys.KeyTexts` | packages/trace/src/runtime/historyStore.ts:437-447 | The texts of the keys, written out. |
| `StoredSessions.Begun` | packages/trace/src/runtime/historyStore.ts:187-200 | Writing the first record keeps store and accepted sessions consistent. |
| `StoredSessions.ChunkWritten` | packages/trace/src/runtime/historyStore.ts:202-218 | Between the two writes of a chunk the store, seen after a crash, still holds exactly the chunks committed before. |
| `StoredSessions.ChunkCommitted` | packages/trace/src/runtime/historyStore.ts:202-218 | After the second write it holds one chunk more, with contiguous keys and the sum of the stored lengths. |
| `StoredSessions.Closed` | packages/trace/src/runtime/historyStore.ts:220-235 | The footer ends that session and touches no other. |
| `StoredSessions.Removed` | packages/trace/src/runtime/historyStore.ts:310-321 | Deleting sessions that are not active takes all their keys and nobody else's. |
| `Retention.LongestPrefix` | packages/trace/src/runtime/historyStore.ts:323-367 | The survivors are the longest prefix of the unexpired sessions, newest first, that keeps both limits. |
| `Retention.RankedUnique` | packages/trace/src/runtime/historyStore.ts:237-255 | The order of the list is determined by the sessions in it. |
| `RetentionRule.CleanupExactly` | packages/trace/src/runtime/historyStore.ts:323-367 | What age, count and size leave, taken one after the other, are exactly the sessions that stay by the rule of `Cleanup`, which knows no lists. |
| `RetentionRule.NewestStay` | packages/trace/src/runtime/historyStore.ts:323-367 | No unexpired completed session that was removed started later than a completed one that remains. |
| `RetentionRule.AboveIsPrefix` | packages/trace/src/runtime/historyStore.ts:339-364 | Up to any session, the list of the unexpired holds just those that are not older than it. |
| `HistoryStore.TraceHistoryStore.constructor` | packages/trace/src/runtime/historyStore.ts:48-68 | A store opened over any contents that an earlier one can have left, orphaned chunk keys included, is consistent with them. |
| `HistoryStore.TraceHistoryStore.OnSessionStart` | packages/trace/src/runtime/historyStore.ts:187-200 | The session is accepted exactly while the store is enabled and ready, with one write and one more moment for a crash; otherwise nothing happens. |
| `HistoryStore.TraceHistoryStore.OnChunk` | packages/trace/src/runtime/historyStore.ts:202-218 | An active session takes exactly its next chunk, also when the store has been disabled meanwhile; other chunks are refused or ignored without a change. The two writes touch two keys, and a crash between them finds the records as they were before. |
| `HistoryStore.TraceHistoryStore.OnSessionEnd` | packages/trace/src/runtime/historyStore.ts:220-235 | Whatever the footer says, it ends exactly an active session of its id; a crash before the cleanup finds just that; retention then decides over the records as they are after the footer; what was known of other sessions stays known. |
| `HistoryStore.Lifetime` | packages/trace/src/runtime/historyStore.ts:187-235 | Over the whole past of a store: a session that started in it is on the disk from the moment of its start on, first without a chunk; of its chunks none is lost from one moment to a later one; and if it goes, then for good and not before it had its end. |
| `HistoryStore.TraceHistoryStore.List` | packages/trace/src/runtime/historyStore.ts:237-255 | Every stored session is listed once, with what its record says; the start times descend, and of two equal ones the greater id comes first. |
| `HistoryStore.TraceHistoryStore.Delete` | packages/trace/src/runtime/historyStore.ts:310-321 | An active session is refused; otherwise exactly its keys go, and the answer says whether there were any. |
| `HistoryStore.TraceHistoryStore.RemoveExpired` | packages/trace/src/runtime/historyStore.ts:327-337 | Removes exactly the expired of the completed sessions. |
| `HistoryStore.TraceHistoryStore.RemoveBeyond` | packages/trace/src/runtime/historyStore.ts:339-346 | Removes what is beyond the number limit, and no removed session started later than one that remains. |
| `HistoryStore.TraceHistoryStore.RemoveOldest` | packages/trace/src/runtime/historyStore.ts:348-364 | Removes until the bytes of the rest keep the limit, and no removed session started later than one that remains. |
| `HistoryStore.TraceHistoryStore.Cleanup` | packages/trace/src/runtime/historyStore.ts:323-367 | Deletes exactly the completed, inactive sessions that do not stay: one stays if and only if it has not expired and the unexpired ones that are not older, itself included, are at most `maxSessions` and have at most `maxBytes` together. All others are untouched. |
| `HistoryStore.CleanedRetains` | packages/trace/src/runtime/historyStore.ts:323-367 | Wherever a cleanup happens it leaves exactly the sessions that stay by the rule of `Cleanup`. |
| `HistoryStore.TraceHistoryStore.RecoverInterruptedSessions` | packages/trace/src/runtime/historyStore.ts:369-392 | Every running session that is not active gets an interrupted footer for its committed chunks; nothing else changes. |
| `HistoryStore.RecoveryEnds` | packages/trace/src/runtime/historyStore.ts:369-392 | Recovery ends exactly the running sessions that are not active, as interrupted now, with the last stored tick and the stored counts and with its own reason; all else stays. |
| `HistoryStore.TraceHistoryStore.ScheduleMaintenance` | packages/trace/src/runtime/historyStore.ts:394-406 | Maintenance happens now if the world is ready, and otherwise waits exactly once. |
| `HistoryStore.TraceHistoryStore.RunMaintenance` | packages/trace/src/runtime/historyStore.ts:408-415 | Recovery if it is due, then retention over its result, then one timer. |
| `HistoryStore.TraceHistoryStore.StartCleanupTimer` | packages/trace/src/runtime/historyStore.ts:417-429 | There is never more than one timer, and only while enabled. |
| `HistoryStore.TraceHistoryStore.StopCleanupTimer` | packages/trace/src/runtime/historyStore.ts:431-435 | Afterwards no timer is left. |
| `HistoryStore.TraceHistoryStore.SetEnabled` | packages/trace/src/runtime/historyStore.ts:155-173 | Turning on recovers and cleans up once; turning off cancels timer, wait and due recovery; no accepted session is touched by turning off. |
| `HistoryStore.TraceHistoryStore.Enable` | packages/trace/src/runtime/historyStore.ts:120-128 | As `SetEnabled`; the choice is persisted now or waits behind everything that waits already, and the active sessions stay active. |
| `HistoryStore.TraceHistoryStore.Disable` | packages/trace/src/runtime/historyStore.ts:130-138 | Leaves every recorded and active session as it is; the choice is persisted now or waits in its turn. |
| `HistoryStore.TraceHistoryStore.RestoreEnabled` | packages/trace/src/runtime/historyStore.ts:140-153 | In a ready world the store is on exactly if that was persisted, which it never changes; turned on by that, it recovers and cleans up, and otherwise touches no record. Before that the restoring waits in its turn. |
| `HistoryStore.TraceHistoryStore.Configure` | packages/trace/src/runtime/historyStore.ts:84-118 | Refused exactly for a limit that is not positive or, if it is a number of something, not a safe integer, with nothing changed; otherwise the given limits replace the old ones and retention runs with them. |
| `HistoryStore.TraceHistoryStore.WorldReady` | packages/trace/src/runtime/historyStore.ts:140-185 | Nothing waits any more, every waiting callback has run in order, those cancelled by earlier ones included; the switch, the persisted choice and the records stand where that course of maintenances leaves them. |
| `HistoryStore.TraceHistoryStore.RunWaiter` | packages/trace/src/runtime/historyStore.ts:140-185 | One waiting callback does what it was put there for: maintenance exactly if the store is enabled by then, restoring, which recovers and cleans up exactly if that turns the store on, or persisting a choice. |
| `HistoryStore.LastRestoreWins` | packages/trace/src/runtime/historyStore.ts:140-185 | Restored and then enabled before the world is ready, the store ends as persisted before, although the new choice is persisted; the other way round it ends enabled. |
| `HistoryStore.TraceHistoryStore.OnCleanupTimer` | packages/trace/src/runtime/historyStore.ts:417-429 | The timer does one cleanup. |
| `HistoryStore.TraceHistoryStore.Read` | packages/trace/src/runtime/historyStore.ts:262-274 | An ended session reads back as its header, as many chunks as its footer counts, in order, and its footer; one that is running or unknown as nothing; a missing chunk is an error. |
| `HistoryStore.TraceHistoryStore.ToBytes` | packages/trace/src/runtime/historyStore.ts:276-287 | The file of exactly these; an error for a session that is running or unknown, or with a chunk missing. |
| `HistoryStore.TraceHistoryStore.ToSnapshotBytes` | packages/trace/src/runtime/historyStore.ts:289-308 | The same with a footer of its own for a session still running; an error only for an unknown session or a missing chunk. |
| `HistoryStore.SnapshotEnds` | packages/trace/src/runtime/historyStore.ts:289-308 | The footer of a snapshot is the stored one, or that of a session interrupted now with what is stored of it. |
| `Pipeline.Forward` | packages/trace/src/runtime/manager.ts:216-236 | Chunks handed over one by one arrive in the store in order; of all keys, records and accounts only those of this session change. |
| `Pipeline.Advance` | packages/trace/src/runtime/manager.ts:216-236 | The store holds exactly the chunks the session handed over. A call is judged as by the session alone and changes nothing else in the store; a step of the store ends and removes exactly the sessions that its maintenance says, sets switch and limits as asked, and leaves the session alone. |
| `Pipeline.PlayCall` | packages/trace/src/runtime/session.ts:602-676 | One call: the verdict is exact for any clock, the log grows by exactly an accepted event, at the tick its clock read, the counters by no more than the cost of the call, and only this session changes in the store. |
| `Pipeline.StoreStep` | packages/trace/src/runtime/historyStore.ts:84-185 | Switching on, switching off, new limits or the timer: the switch, the persisted choice and the limits afterwards, and exactly when recovery and retention run and what they leave. |
| `Pipeline.Snapshot` | packages/trace/src/runtime/manager.ts:158-163 | At any point of such a run, flush and snapshot give the file of all chunks; it exists if and only if it can be written, and decodes to exactly the events accepted so far. Only this session changes in the store. |
| `Pipeline.Finish` | packages/trace/src/runtime/manager.ts:175-190 | The store first holds the records with this session ended, which a crash then finds, and the cleanup leaves exactly the survivors among its completed sessions. The session is still stored if and only if it is one of them, and then its file is that of all chunks with the footer, exists if and only if it can be written, and decodes to all accepted events. |
| `Pipeline.KeptExactly` | packages/trace/src/runtime/historyStore.ts:323-367 | A session that has ended survives a cleanup if and only if its record is among the survivors of `Retention.LongestPrefix`, and then unchanged. |
| `Pipeline.PartDecodes` | packages/trace/src/wire/decoder.ts:44-61 | A file of the first chunks of a session decodes to a prefix of its events. |
| `Pipeline.Restart` | packages/trace/src/runtime/historyStore.ts:369-415 | A fresh store enabled over any recoverable contents ends with recovery and retention done and nothing active. |
| `Pipeline.CrashLeavesAPrefix` | packages/trace/src/runtime/historyStore.ts:187-235 | Stopped after any write, be it before the start of the session, while it is live, during its end or later: from the moment of its start until it is removed after its end the session comes back as its header and a prefix of its chunks, which never gets shorter, interrupted unless its footer was written; its file decodes to the events of these chunks, a prefix of those accepted, and to all of them once the footer was written. A live session is never missing after its start. |
| `Pipeline.Reopen` | packages/trace/src/runtime/historyStore.ts:262-415 | A new store over what any such stop left, enabled and asked for the session: it is there if and only if it is among the survivors of the retention that follows the recovery, and then its bytes decode to that prefix. |
| `TraceManagers.TraceManager.constructor` | packages/trace/src/runtime/manager.ts:53-63 | A manager over any store begins without sessions. |
| `TraceManagers.TraceManager.BeginSession` | packages/trace/src/runtime/manager.ts:107-151 | A new session exactly if the store accepts sessions and the game has none, the old one if it has one; nothing but the record of the new session changes in the store, and all other live sessions stay linked to their histories. |
| `TraceManagers.TraceManager.Play` | packages/trace/src/runtime/session.ts:602-676 | A call of one game extends the history of just that game by an exact verdict, with all counters in range as long as its calls are affordable; it changes nothing else in the store, and every live session stays linked to its own. |
| `TraceManagers.TraceManager.Administer` | packages/trace/src/runtime/historyStore.ts:84-173 | Switching, configuring and cleaning the store does exactly what `Pipeline.StoreStep` says and leaves every live session linked to its history. |
| `TraceManagers.TraceManager.SnapshotBytes` | packages/trace/src/runtime/manager.ts:158-163 | The snapshot of one of many live sessions decodes to the history of just its own calls, as long as they are affordable. |
| `TraceManagers.TraceManager.LiveComesBack` | packages/trace/src/runtime/historyStore.ts:187-415 | Stopped at any moment so far, every live session of affordable calls that had started by then comes back with the beginning of the history of its own calls. |
| `TraceManagers.TraceManager.EndSession` | packages/trace/src/runtime/manager.ts:175-190 | The session of one game ends with a footer that counts its events; retention decides as in `Pipeline.Finish`, its file decodes to its own history if it is left, the others stay live, and those that ended before stay as they are. |
| `TraceManagers.TraceManager.StoredBytes` | packages/trace/src/runtime/historyStore.ts:262-287 | Whatever has happened since, a session that has ended and is still stored has all its chunks and its footer, and its file decodes to the history of just its own calls, as long as they are affordable. |
| `TraceManagers.Happen` | packages/trace/src/runtime/manager.ts:107-190 | Each such happening keeps all live sessions linked, all ended ones complete and all verdicts justified, and changes switch, limits, the open and the ended sessions and their calls as planned. |
| `TraceManagers.Live` | packages/trace/src/runtime/manager.ts:107-190 | Sessions of any games begin, go on, are read and end in any interleaving while the store is switched, configured and cleaned up: the live ones are exactly those begun under an enabled store and not ended, each with the history of just its own calls; the ended ones were told in full, with the footers asked for. As long as the calls of a session are affordable, none that can be written was refused unless its tick went back. |
| `WebSocketFrames.FrameInverts` | packages/observatory/server/ws.ts:102-137 | A reader recovers the frame, whatever its mask and length form, and leaves what follows; a payload above 2,097,152 bytes is refused. What the mask does to each bit is `MaskedBit`. |
| `WebSocketFrames.TakeMore` | packages/observatory/server/ws.ts:108-131 | More bytes behind it never change a frame that is already complete or refused. |
| `WebSocketFrames.IncompleteIsShort` | packages/observatory/server/ws.ts:102-131 | A buffer in which no frame is complete holds at most the limit and 13 bytes. |
| `WebSocketFrames.FrameIsMinimal` | packages/observatory/server/ws.ts:9-25 | The frame sent is final and unmasked and the shortest of all forms that can hold the payload. |
| `WebSocketFrames.MaskedTwice` | packages/observatory/server/ws.ts:132-136 | Masking twice with the same key gives the payload back. |
| `WebSocketFrames.MaskedBit` | packages/observatory/server/ws.ts:132-136 | Section 5.3 of RFC 6455: bit j of octet i is flipped if and only if bit j of octet i modulo 4 of the key is set. |
| `WebSocketFrames.RfcExamples` | packages/observatory/server/ws.ts:9-137 | Three examples of section 5.7 of RFC 6455. |
| `WebSocket.Unmask` | packages/observatory/server/ws.ts:132-136 | In place, for every i and j: bit j of byte i is flipped if and only if bit j of byte i modulo 4 of the key is set. |
| `WebSocket.RawWebSocketConnection.constructor` | packages/observatory/server/ws.ts:51-68 | Bytes that came with the handshake are received like any other. |
| `WebSocket.RawWebSocketConnection.Receive` | packages/observatory/server/ws.ts:102-170 | Bytes that come in are handled frame by frame as the machine does, unmasked as in section 5.3 of RFC 6455; what is incomplete is kept, and a buffer over its limit ends the connection. |
| `WebSocket.RawWebSocketConnection.NextFrame` | packages/observatory/server/ws.ts:108-137 | Finds the first frame of the buffer, its absence or its being too large. |
| `WebSocket.RawWebSocketConnection.HandleFrame` | packages/observatory/server/ws.ts:138-168 | Close, ping, pong, fragments and texts are handled as defined for every opcode and state of the fragments. |
| `WebSocket.TextFrames` | packages/observatory/server/ws.ts:138-168 | A text that comes whole is delivered, also between the fragments of another one; a first fragment starts a text anew. |
| `WebSocket.IgnoresOthers` | packages/observatory/server/ws.ts:138-168 | Frames of other kinds, continuations of nothing and pongs change nothing. |
| `WebSocket.TooManyFragments` | packages/observatory/server/ws.ts:138-168 | Fragments of more than 2,097,152 bytes together end the connection, whether the last one has come or not. |
| `WebSocket.BufferIsLimited` | packages/observatory/server/ws.ts:102-107 | More than 4,194,304 buffered bytes end the connection, with nothing of them delivered. |
| `WebSocket.RawWebSocketConnection.Send` | packages/observatory/server/ws.ts:74-81 | One text frame, nothing after closing, and the end of the connection if the write throws. |
| `WebSocket.RawWebSocketConnection.Close` | packages/observatory/server/ws.ts:83-94 | A close frame with code 1000 unless that write throws, then the end of the socket, and `onClose` at most once. |
| `WebSocket.RawWebSocketConnection.OnEnd` | packages/observatory/server/ws.ts:60-65 | When the peer ends its side the socket is ended too, and `onClose` runs at most once. |
| `WebSocket.DrainMore` | packages/observatory/server/ws.ts:102-170 | Handling what is there and then the rest is handling both at once. |
| `WebSocket.SegmentationIndependent` | packages/observatory/server/ws.ts:102-170 | Any bytes, cut into any pieces of at most the limit less 13, have the same effect as in one piece, and never trip the buffer limit. |
| `WebSocket.DrainItems` | packages/observatory/server/ws.ts:138-168 | A stream of messages, fragmented and interleaved with pings and pongs, is answered message by message with equal-payload pongs, whatever follows it. |
| `WebSocket.MessagesArrive` | packages/observatory/server/ws.ts:102-170 | Any stream of masked messages, fragmented in any way and with pings and pongs in between, in any segmentation, is delivered message by message, each with the bytes the client masked. |
| `WebSocket.CloseIsAnswered` | packages/observatory/server/ws.ts:138-142 | A close frame behind such a stream is echoed with its payload, `onClose` runs once, and nothing behind it has any effect. |
| `WebSocket.OversizeIsRefused` | packages/observatory/server/ws.ts:124-128 | A frame over the limit behind such a stream destroys the socket after everything before it has been answered. |
| `StackSafety.LiveOnStack` | packages/core/src/gameEngine.ts:162-326 | In a sound machine the live resources are exactly those owned by the states on the stack. |
| `StackSafety.AttachedSound` | packages/core/src/gameState/gameState.ts:163-206 | For a state on the stack, adding a component, also one that throws after acquiring things, keeps the machine sound. |
| `StackSafety.LaunchLeaks` | packages/core/src/gameState/gameState.ts:64-80 | Launching a runner keeps the live resources those of the states on the stack if and only if the launching state is on the stack. |
| `StackSafety.AttachLeaks` | packages/core/src/gameState/gameState.ts:163-206 | Adding a component does so if and only if its state is on the stack or nothing of the component stays: the game is over, the component is there already, or it fails without having launched a runner. |
| `StackSafety.DetachedSound` | packages/core/src/gameState/gameState.ts:231-266 | Deleting a component keeps the machine sound even if its `onDetach` or a subscription throws. |
| `StackSafety.CleanedSound` | packages/core/src/gameState/gameState.ts:343-379 | Cleaning up some states and keeping a stack is sound if and only if exactly the removed states are cleaned. |
| `StackSafety.CutSound` | packages/core/src/gameEngine.ts:286-326 | Removing the states from some index on keeps the machine sound, whatever throws on the way. |
| `StackSafety.DeletedSound` | packages/core/src/gameEngine.ts:345-360 | So does deleting a single state in the middle. |
| `StackSafety.RollbackSound` | packages/core/src/gameEngine.ts:187-217 | The rollback is sound if and only if the entering state is still where it was pushed, or is gone and nothing is above. |
| `StackEffects.GainedIs` | packages/core/src/gameState/gameState.ts:163-206 | Everything a component acquires while it attaches is owned by its state and live under identities of its own, and nothing else changes; a state that does not listen gets no subscriptions. |
| `StackEffects.AttachedStays` | packages/core/src/gameState/gameState.ts:163-206 | A component that attaches without failure stays, with all it gained, and a second one of its kind and tag is refused without effect. |
| `StackEffects.AttachUndone` | packages/core/src/gameState/gameState.ts:163-206 | One that fails to attach is not listed and keeps no subscription; the runners it launched stay its state's, and what was there before stays. |
| `StackEffects.AttachRefused` | packages/core/src/gameState/gameState.ts:163-206 | A component of a kind and tag that is there already changes nothing. |
| `StackEffects.DetachedGoes` | packages/core/src/gameState/gameState.ts:231-266 | Deleting takes exactly the oldest component of that kind and tag, with exactly the subscriptions it made, and fails if and only if one of these throws. |
| `StackEffects.CutGone` | packages/core/src/gameEngine.ts:286-307 | Cutting the stack at an index gives back exactly what the states from there on owned and leaves the others as they are; it fails if and only if something of theirs throws. |
| `StackEffects.PopTakesTop` | packages/core/src/gameEngine.ts:222-225 | The top state goes with what it owns, and nothing else; an empty stack stays. |
| `StackEffects.DeleteTakesFirst` | packages/core/src/gameEngine.ts:345-360 | The lowest state of the kind goes, from wherever it is, and nothing else. |
| `StackEffects.DeleteMisses` | packages/core/src/gameEngine.ts:345-360 | Without a state of the kind nothing happens. |
| `StackEffects.FirstOfKind` | packages/core/src/gameEngine.ts:345-360 | The index found is that of the first state of the kind. |
| `StackEffects.NoneOfKind` | packages/core/src/gameEngine.ts:345-360 | The length of the stack is answered if no state has the kind. |
| `StackEffects.ReplaceTakesBranch` | packages/core/src/gameEngine.ts:246-284 | The state and all above it go, and then the new one is pushed, unless something threw. |
| `StackEffects.ReplaceRefused` | packages/core/src/gameEngine.ts:246-284 | A state that is not on the stack is not replaced, and nothing changes. |
| `StackEffects.ResetTakesAll` | packages/core/src/gameEngine.ts:228-244 | All states go, and then the new root is pushed, unless something threw. |
| `StackEffects.StopTakesAll` | packages/core/src/system/gameManager.ts:197-245 | A game stops once, with everything given back; it fails if and only if `onStop`, the players or something of a state throws. |
| `StackEffects.OverIsOver` | packages/core/src/gameEngine.ts:162-284 | After the end nothing is pushed, attached, replaced or reset. |
| `StackEffects.PushPuts` | packages/core/src/gameEngine.ts:162-219 | A state whose `onEnter` does nothing is on top, listens and owns nothing; all else stays. |
| `StackEffects.ExecJoins` | packages/core/src/gameState/gameState.ts:140-143 | Actions run in turn, and none after one that throws. |
| `StackEffects.AttemptCatches` | packages/core/src/gameState/gameState.ts:140-143 | What throws can be caught, and what was done before it stays done. |
| `StackEffects.OwnThings` | packages/core/src/gameState/gameState.ts:64-80 | What a state subscribes to or launches itself is live and owned by it under a new identity, and nothing else changes. |
| `StackRuns.PushSound` | packages/core/src/gameEngine.ts:162-219 | Pushing a state whose `onEnter` does anything at any depth keeps the machine sound, apart from the named misuses. |
| `StackRuns.RollbackRestores` | packages/core/src/gameEngine.ts:162-219 | If the push throws with the entering state still in its place, the stack, the live resources and every state on it are as before. |
| `StackRuns.GentleRollback` | packages/core/src/gameEngine.ts:162-219 | For an `onEnter` that pushes, attaches, subscribes and launches at any depth but removes no states, every throw restores everything. |
| `StackRuns.AlwaysSound` | packages/core/src/gameEngine.ts:162-360 | Over every run of pushes and actions of states the live resources are exactly those of the states on the stack. |
| `StackRuns.SoundExactly` | packages/core/src/gameEngine.ts:162-360 | Ownership is sound, so that the live resources are those of the states on the stack, at every point of a run, before and after every action of every callback at any depth, if and only if no runner is launched and no component left behind off the stack and every failed push finds its state in its place, or gone with nothing above. |
| `StackRuns.ThrowAfterSwapLeaks` | packages/core/src/gameEngine.ts:187-217 | A state that replaces itself and then throws leaves a subscription of its successor behind. |
| `StackRuns.ThrowAfterDeleteStays` | packages/core/src/gameEngine.ts:187-217 | A state that deletes one below it and then throws stays on the stack without listening. |
| `GameEngines.GameEngine.PushState` | packages/core/src/gameEngine.ts:162-219 | The imperative push, callbacks and rollback included, does what the machine's push does. |
| `GameEngines.GameEngine.Rollback` | packages/core/src/gameEngine.ts:187-217 | The splice and the cleanup loops in reverse order do what one rollback of the machine does. |
| `GameEngines.GameEngine.RunCallback` | packages/core/src/gameState/gameState.ts:140-143 | A callback runs its actions in order up to the first throw. |
| `GameEngines.GameEngine.PopState` | packages/core/src/gameEngine.ts:222-225 | Takes off and cleans up the top state if there is one. |
| `GameEngines.GameEngine.ReplaceFrom` | packages/core/src/gameEngine.ts:246-284 | Removes the state and all above it and pushes the new one, or refuses a state that is not on the stack. |
| `GameEngines.GameEngine.ResetState` | packages/core/src/gameEngine.ts:228-244 | Clears the stack and pushes the new state, or fails without pushing when the clearing does; a stopped game does nothing. |
| `GameEngines.GameEngine.RemoveFrom` | packages/core/src/gameEngine.ts:286-307 | The loop cleans up from the top down to the index although any of them may throw, and throws in the end if one did. |
| `GameEngines.GameEngine.RemoveState` | packages/core/src/gameEngine.ts:309-326 | Cleans up one state with its exit callback. |
| `GameEngines.GameEngine.DeleteState` | packages/core/src/gameEngine.ts:345-360 | Removes the first state of the kind, or does nothing. |
| `GameEngines.GameEngine.StopGame` | packages/core/src/system/gameManager.ts:197-245 | Whatever `onStop`, the states or the player manager throw, the whole stack is cleaned up, and the caller is told exactly if any of them threw; a second call does nothing. |
| `GameEngines.GameEngine.AddComponent` | packages/core/src/gameState/gameState.ts:163-206 | In a running game, with no component of that kind and tag in the state and no failure: the answer is true, exactly one component is new in the state's table, under just that kind, tag and failure flag, it and everything it gained is live and owned by the state, and nothing else changes. With one of that kind and tag there already, the answer is false and nothing changes. |
| `GameEngines.GameEngine.DeleteComponent` | packages/core/src/gameState/gameState.ts:231-266 | Exactly the first component of that kind and tag goes, with its subscriptions. |
| `GameEngines.GameEngine.DeleteAllComponents` | packages/core/src/gameState/gameState.ts:268-308 | All components go with their subscriptions although any may throw, and it throws in the end exactly if one did. |
| `GameEngines.GameEngine.Cleanup` | packages/core/src/gameState/gameState.ts:343-379 | Afterwards the state owns nothing and does not listen, whichever step threw. |
| `GameEngines.GameEngine.OnDetach` | packages/core/src/gameComponent/gameComponent.ts:62-81 | The component is detached and its subscriptions are taken back even if its callback throws. |
| `GameEngines.GameEngine.Subscribe` | packages/core/src/gameEvent/eventManager.ts:18-44 | Recorded for its subscriber, or ignored once the manager is disposed. |
| `GameEngines.GameEngine.Unsubscribe` | packages/core/src/gameEvent/eventManager.ts:140-179 | Every subscription of the list is taken back although any may throw, and it throws in the end exactly if one did. |
| `GameEngines.GameEngine.UnsubscribeBySubscriber` | packages/core/src/gameEvent/eventManager.ts:140-157 | Takes back exactly the subscriptions of that subscriber. |
| `GameEngines.GameEngine.DisposeEvents` | packages/core/src/gameEvent/eventManager.ts:159-179 | Takes back all of them, once. |
| `GameEngines.GameEngine.DisposeRunners` | packages/core/src/Runner/RunnerManager.ts:119-133 | No runner of the state is left. |
| `Runners.StepSound` | packages/core/src/Runner/RunnerManager.ts:10-182 | Every step keeps: at most one settlement of each promise, nothing unsettled outside the table, no pending wait of a cancelled script. |
| `Runners.AlwaysSound` | packages/core/src/Runner/RunnerManager.ts:10-182 | So at every point of every run an unsettled job or unfinished script can still be cancelled. |
| `Runners.SettledInRun` | packages/core/src/Runner/RunnerManager.ts:139-182 | Once settled, a promise keeps its one verdict for ever and its generator is not resumed again, even if the engine resumes the job. |
| `Runners.CancelledInRun` | packages/core/src/Runner/scriptRunner.ts:77-133 | Once cancelled, a script gets past no wait any more, whenever the engine's timers end. |
| `Runners.DisposedSettles` | packages/core/src/Runner/RunnerManager.ts:119-133 | After `dispose` the table is empty, every promise settled once, every script cancelled or over. |
| `Runners.CancelSettles` | packages/core/src/Runner/RunnerManager.ts:98-116 | Cancelling a listed job settles it as resolved, unless it had just settled: then the verdict stays, and it still counts as cancelled. |
| `Runners.OwnErrorIsLost` | packages/core/src/Runner/RunnerManager.ts:139-182 | In any turn of an unsettled job that ends with a throw, after any calls: the verdict is the error if and only if none of the calls cancelled the job or disposed of the manager; otherwise the promise is resolved and the error lost. |
| `Runners.TurnDecides` | packages/core/src/Runner/RunnerManager.ts:139-182 | A turn of an unsettled job that nothing in it calls off is one resumption, and gives the verdict that its end stands for and no other. |
| `Runners.TurnIsOver` | packages/core/src/Runner/RunnerManager.ts:139-182 | A job that is settled is over with its next turn, without a resumption. |
| `Runners.RunsAnew` | packages/core/src/Runner/RunnerManager.ts:10-97 | A new runner is listed under an identity of its own, and the others stay as they are. |
| `Runners.TidyDelists` | packages/core/src/Runner/RunnerManager.ts:145-182 | A settled job takes itself off the table, once. |
| `Runners.WaitPasses` | packages/core/src/Runner/scriptRunner.ts:77-133 | A wait of a script that goes on can return once its timer has ended, not before, and then the script has passed one more. |
| `Runners.AbortedReturns` | packages/core/src/Runner/scriptRunner.ts:77-133 | An aborted wait returns without letting the script go on, and its timer changes nothing any more. |
| `Runners.ScriptEnds` | packages/core/src/Runner/scriptRunner.ts:77-133 | A cancelled script gets no new wait; one that finishes leaves the table. |
| `Runners.CancelIsOfOne` | packages/core/src/Runner/RunnerManager.ts:98-116 | Cancelling touches one runner: a script gets its flag, and just its pending waits are aborted. |
| `Runners.RunnerManager.Cancel` | packages/core/src/Runner/RunnerManager.ts:98-116 | True exactly if the runner was listed, and then it is called off and delisted. |
| `Runners.RunnerManager.CancelScript` | packages/core/src/Runner/scriptRunner.ts:113-126 | Sets the flag and aborts exactly the waits that are still pending. |
| `Runners.RunnerManager.SettleJob` | packages/core/src/Runner/RunnerManager.ts:145-162 | Only the first settlement has an effect. |
| `Runners.RunnerManager.Dispose` | packages/core/src/Runner/RunnerManager.ts:119-133 | The loop over the table cancels every runner and empties the table. |
| `RoomLifecycle.StepSound` | packages/core/src/gameComponent/common/disconnectTimeout.ts:62-215 | Every step keeps: an offline member is timed or about to be, only offline members are timed, and no deadline is missed. |
| `RoomLifecycle.AlwaysSound` | packages/core/src/gameComponent/common/disconnectTimeout.ts:62-215 | The same at every point of every run. |
| `RoomLifecycle.TimerMeansOffline` | packages/core/src/gameComponent/common/disconnectTimeout.ts:120-183 | Whoever has a timer has been offline without a break since it was started. |
| `RoomLifecycle.ReleasedAfterGrace` | packages/core/src/gameComponent/common/disconnectTimeout.ts:185-215 | Nobody is released by timeout who was not offline throughout the whole grace period. |
| `RoomLifecycle.ReleasedInTime` | packages/core/src/gameComponent/common/disconnectTimeout.ts:120-215 | Whoever else is online, in every run of a room that is not stopped: a member who is offline without a break is out of the room no later than the grace period after going offline or after the component attached, and in any other case, as after joining offline, one tick later. |
| `RoomLifecycle.TimeGoesOn` | packages/core/src/gameComponent/common/disconnectTimeout.ts:62-215 | Time never gets stuck: unless the clock can go on, some callback is due that can run, and then fewer are due or the room is stopped. |
| `RoomLifecycle.StepChanges` | packages/core/src/gameComponent/common/disconnectTimeout.ts:62-215 | Who is a member and who is online after each kind of step; in particular a member who is offline when the timer ends is a member no longer. |
| `RoomLifecycle.StepSchedules` | packages/core/src/gameComponent/common/disconnectTimeout.ts:75-183 | A member who goes offline is timed for the grace period unless timed already, coming back or leaving takes the timer back, and a periodic check sets the next one 200 ticks on. |
| `RoomLifecycle.JoinSchedules` | packages/core/src/gameComponent/common/disconnectTimeout.ts:75-84 | A player who joins is looked at one tick later, and so is the membership; an empty room stops at its next check. |
| `RoomLifecycle.OnlyEmptyStops` | packages/core/src/gameComponent/common/autoStop.ts:87-109 | No step stops a room that has members. |
| `RoomLifecycle.DesertedRoomStops` | packages/core/src/gameComponent/common/autoStop.ts:64-109 | At any point of any run with all members offline: every continuation in which nobody joins or returns is stopped by T + timeout + 2 if and only if the room is stopped, has members, has a check outstanding or has its periodic check by then. |
| `RoomLifecycle.StopsExactly` | packages/core/src/gameComponent/common/autoStop.ts:64-109 | The same for any sound state, with a continuation that goes on beyond the bound whenever the condition fails. |
| `RoomLifecycle.EmptyRoomStops` | packages/core/src/gameComponent/common/autoStop.ts:68-76 | A room without members that nobody joins is stopped within 200 ticks, one interval of the periodic check. |
| `RoomLifecycle.EmptyRoomWaits` | packages/core/src/gameComponent/common/autoStop.ts:50-52 | A room that starts empty keeps the bound if and only if timeout + 2 is at least the interval of 200 ticks. |
| `RoomLifecycle.RoomPolicies.constructor` | packages/core/src/gameComponent/common/disconnectTimeout.ts:62-118 | On attaching, exactly the members who are offline are timed, each for the whole grace period, and the first periodic check is in 200 ticks. |
| `RoomLifecycle.RoomPolicies.OnConnection` | packages/core/src/gameComponent/common/disconnectTimeout.ts:120-138 | Going online cancels, going offline starts a member's timer, as the machine does. |
| `RoomLifecycle.RoomPolicies.OnJoined` | packages/core/src/gameComponent/common/disconnectTimeout.ts:75-84 | A joining player is looked at again one tick later, and the membership is checked. |
| `RoomLifecycle.RoomPolicies.OnTimeout` | packages/core/src/gameComponent/common/disconnectTimeout.ts:185-215 | A member who is still offline is a member no longer, whoever else is online; everybody else stays. |
| `RoomLifecycle.RoomPolicies.StopIfEmpty` | packages/core/src/gameComponent/common/autoStop.ts:87-95 | Stops an empty room and takes back every outstanding callback. |
| `RoomLifecycle.RoomPolicies.OnPeriodicCheck` | packages/core/src/gameComponent/common/autoStop.ts:68-76 | Checks, and sets the next periodic check only if the game goes on. |
| `Reconnect.DelayDoubles` | packages/trace/src/serverNet.ts:390-393 | Delays start at the base, double with each failure and stay within base and maximum. |
| `Reconnect.FailuresInARow` | packages/trace/src/serverNet.ts:390-424 | The retry after the n-th failure in a row waits for the base delay doubled n - 1 times (30 at most), within the maximum; the failure at the cap pauses the bridge instead. Any base, maximum and cap. |
| `Reconnect.FailureBacksOff` | packages/trace/src/serverNet.ts:407-424 | The same for one failure of any running bridge, whatever happened before. |
| `Reconnect.SuccessAdopts` | packages/trace/src/serverNet.ts:434-459 | A socket in time is the open one, and all failures are forgotten; one that comes after a stop is not kept. |
| `Reconnect.CloseRetries` | packages/trace/src/serverNet.ts:441-444 | When the open socket drops, its closing is heard of and a running bridge schedules a retry. |
| `Reconnect.RetryConnects` | packages/trace/src/serverNet.ts:395-428 | The retry of a running bridge without a socket is an attempt; of any other it is none. |
| `Reconnect.StartWakes` | packages/trace/src/serverNet.ts:465-472 | Starting wakes a bridge that is stopped or paused, with nothing to remember, and connects it; a running one it leaves alone. |
| `Reconnect.StopQuiets` | packages/trace/src/serverNet.ts:473-487 | After stopping no socket is open, no retry set and nothing remembered. |
| `Reconnect.StepSound` | packages/trace/src/serverNet.ts:395-488 | Every event, with reports that start, stop, restart or throw, sockets that fail after their adoption and late sockets that cannot be closed, keeps: at most one adopted socket open, no attempt in flight while paused, retries within base and maximum, failures within the cap, or two. |
| `Reconnect.AlwaysSound` | packages/trace/src/serverNet.ts:395-488 | The same at every point of every run. |
| `Reconnect.NeverStuck` | packages/trace/src/serverNet.ts:407-488 | An event leaves a running bridge with nothing to wait for if and only if a first report throws without a retry set, `start()` is called from within the pause report, or the closing of the open socket will not be heard of, with no other close outstanding. |
| `Reconnect.AlwaysAlive` | packages/trace/src/serverNet.ts:407-488 | In a run whose reports do not throw and do not start the bridge from the pause report, and whose sockets can be subscribed to, there is at every point an attempt in flight, a retry or a close to come while the bridge is to work. |
| `Reconnect.ThrowingReportStrands` | packages/trace/src/serverNet.ts:262-267 | A new bridge whose first report throws is stuck after one failed attempt, with any options, and `start()` does nothing. |
| `Reconnect.OnlyRunningConnects` | packages/trace/src/serverNet.ts:426-428 | An attempt is made only on `start()` or by the retry of a running bridge, with no other attempt in flight and no open socket. |
| `Reconnect.FailuresBounded` | packages/trace/src/serverNet.ts:407-424 | In any run of a new bridge the failures stay within the cap, and below it while the bridge is not paused, unless with a cap of one a first report throws; then there are at most two. |
| `Reconnect.StepCapped` | packages/trace/src/serverNet.ts:407-424 | A step exceeds the cap if and only if the cap is one and the first report throws without taking the failure back. |
| `Reconnect.NeverHammers` | packages/trace/src/serverNet.ts:407-488 | Without a start and without a success there are at most as many attempts as failures are left to the cap, and one more only where the cap is exceeded. |
| `Reconnect.TraceBridge.constructor` | packages/trace/src/serverNet.ts:253-275 | Options out of range are raised, and the bridge begins stopped. |
| `Reconnect.TraceBridge.BeginConnect` | packages/trace/src/serverNet.ts:426-428 | Begins an attempt exactly when none is in flight, none open, and the bridge is running. |
| `Reconnect.TraceBridge.ScheduleReconnect` | packages/trace/src/serverNet.ts:395-401 | At most one retry, with the delay for the failures so far. |
| `Reconnect.TraceBridge.Start` | packages/trace/src/serverNet.ts:465-472 | Does nothing to a running bridge; otherwise forgets failures and connects. |
| `Reconnect.TraceBridge.Stop` | packages/trace/src/serverNet.ts:473-487 | Cancels the retry, closes and forgets the socket. |
| `Reconnect.TraceBridge.Fail` | packages/trace/src/serverNet.ts:407-424 | Counts, reports the first failure and stops there if that throws, then pauses with a report or retries, whatever the reports call back into. |
| `Reconnect.TraceBridge.Adopt` | packages/trace/src/serverNet.ts:434-459 | The socket is adopted first; a failing subscription or a throwing report of an unsent greeting is then a failure with the socket kept. |
| `Reconnect.TraceBridge.FinishConnect` | packages/trace/src/serverNet.ts:428-461 | Adopts the socket, closes it if stopped meanwhile, which may fail, or fails; in each case the attempt is over and the bridge stays sound. |
| `Reconnect.TraceBridge.OnClose` | packages/trace/src/serverNet.ts:441-444 | Forgets exactly that socket and schedules a retry. |
| `RegionSplit.Halves` | packages/core/src/gameRegion/regionHelper.ts:42-98 | Cutting a side of at least two in the middle gives two ordered halves, every block in exactly one, each with at least a third of the blocks. |
| `RegionSplit.CutIsMiddle` | packages/core/src/gameRegion/regionHelper.ts:42-98 | The first half is half of the side, rounded down; along the other sides both halves are as the region. |
| `RegionSplit.CutIsFirst` | packages/core/src/gameRegion/regionHelper.ts:42-98 | No side is longer than the one that is cut, and none before it, in the order x, y, z, is as long. |
| `RegionSplit.SplitCubeRegion` | packages/core/src/gameRegion/regionHelper.ts:24-101 | Terminates; every block of the region is in exactly one piece and no other block in any; all pieces keep the limit, the batch size but at most 32767, if and only if the batch size is at least one; after a split each piece has more than a third of the limit, so k pieces satisfy k * limit < 3 * volume. |
| `RegionSplit.Capacity` | packages/core/src/gameRegion/gameRegion.ts:116-134 | The capacity of an ordered region is the product of its sides and at least one. |
| `BlockMask.SmallIsFaithful` | packages/core/src/gameStructure/structureBlockMask.ts:43-157 | Up to 2^31 blocks, the mask answers for every position exactly whether it is in bounds and solid, relative to the template and in the world for any origin. |
| `BlockMask.LargeLosesABlock` | packages/core/src/gameStructure/structureBlockMask.ts:132-152 | Above that a full template has a block that the mask denies. |
| `BlockMask.FaithfulExactly` | packages/core/src/gameStructure/structureBlockMask.ts:22-157 | So the masks of a size are right for all templates if and only if it has at most 2^31 blocks. |
| `BlockMask.CountIsNumber` | packages/core/src/gameStructure/structureBlockMask.ts:132-152 | The counter is the number of solid blocks, at any size. |
| `BlockMask.StructureBlockMaskCache.Scan` | packages/core/src/gameStructure/structureBlockMask.ts:113-157 | The reads and pauses of a scan are those of `CourseAt`, up to the end or to the pause at which it is abandoned; a mask is cached if and only if the scan finished; bad sizes, bad batch sizes and a changed size are refused with nothing read. |
| `BlockMask.StructureBlockMaskCache.ScanCells` | packages/core/src/gameStructure/structureBlockMask.ts:132-152 | The triple loop with its running index computes bits and count of the template cell by cell. |
| `BlockMask.CourseAt` | packages/core/src/gameStructure/structureBlockMask.ts:132-145 | Between two pauses exactly `batchSize` cells are read, and all reads together are the cells of the template, each once, in the order of their indices. |
| `Zip.ArchiveReads` | packages/observatory/server/zip.ts:2-40 | A reader that goes from the end record to the central directory to the local headers recovers exactly the names and bytes, with matching CRCs and sizes, within the field limits (sections 4.3.7, 4.3.12 and 4.3.16 of PKWARE APPNOTE). |
| `Zip.ZipFiles` | packages/observatory/server/zip.ts:2-40 | The loop with its running offset builds that archive, and fails exactly when a field limit is exceeded. |
| `Zip.WriteRecord` | packages/observatory/server/zip.ts:8-38 | Writing fields into a zeroed buffer gives the record's layout, or fails exactly when a value exceeds its width. |
| `Zip.Crc32` | packages/observatory/server/zip.ts:42-49 | The bitwise loop computes the checksum that the lemmas speak of. |
| `Zip.CrcFromJoins` | packages/observatory/server/zip.ts:42-49 | The checksum of joined data continues from that of the first part. |
| `Zip.OneByteDetected` | packages/observatory/server/zip.ts:42-49 | Data that differs in exactly one byte has a different checksum. |
| `Zip.CrcIsRegister` | packages/observatory/server/zip.ts:42-49 | The checksum of any data is the complement of a 32-bit shift register that starts full, takes the bits of the data lowest first and feeds back at the taps of the generator 0x04C11DB7. |
| `Zip.PolynomialTaps` | packages/observatory/server/zip.ts:42-49 | The constant of the code is that generator, bit by bit. |
| `Zip.LocalHeaderIs` | packages/observatory/server/zip.ts:2-40 | The local header, byte by byte (section 4.3.7 of APPNOTE). |
| `Zip.CentralHeaderIs` | packages/observatory/server/zip.ts:2-40 | The entry of the central directory, byte by byte (section 4.3.12). |
| `Zip.EndRecordIs` | packages/observatory/server/zip.ts:2-40 | The end record, byte by byte (section 4.3.16). |
| `TraceErrors.TraceError` | packages/trace/src/runtime/session.ts:124-295 | On every finite error graph, cyclic ones included, the call ends and tells exactly what the budget allows: at most 16 non-circular nodes, depth at most 6, at most 8192 bytes of text, each field within its cap, and at most 15 w + 1 circular nodes for aggregates of up to w errors. |
| `TraceErrors.ErrorSerializer.TraceErrorEntry` | packages/trace/src/runtime/session.ts:136-165 | The value tells of the error all that the entries and bytes left at each place allow, uses up exactly those of its parts, and restores the path. |
| `TraceErrors.ErrorSerializer.TraceErrorObject` | packages/trace/src/runtime/session.ts:165-246 | The same for an error not yet on the path: name, message, cause, children and stack in the order in which they use up the budget. |
| `TraceErrors.ErrorSerializer.TraceCause` | packages/trace/src/runtime/session.ts:188-195 | A cause is told if and only if there is one and neither entries nor depth are used up. |
| `TraceErrors.ErrorSerializer.TraceErrors` | packages/trace/src/runtime/session.ts:197-219 | The first children in order, cut short only when entries or depth are used up. |
| `TraceErrors.ErrorSerializer.TakeErrorText` | packages/trace/src/runtime/session.ts:280-295 | The longest prefix that fits both the field's cap and what is left of the budget, none only without budget, told whether it was cut. |
| `TraceErrors.ToldIsBounded` | packages/trace/src/runtime/session.ts:124-295 | Whatever is told within the whole budget has at most 16 nodes, nests at most 6 deep, and holds at most 8192 bytes of text with every text under its cap. |
| `TraceErrors.ToldUnique` | packages/trace/src/runtime/session.ts:124-295 | The error and the budget determine the value: no text can be shorter, no cause and no child be dropped. |
| `TraceErrors.FittingIsWhole` | packages/trace/src/runtime/session.ts:124-295 | Of an error without cycles whose nodes, depth and texts are below all limits nothing is missing. |
| `TraceErrors.FewCircles` | packages/trace/src/runtime/session.ts:151-160 | With at most w aggregated errors each, at most 15 w + 1 mentions of errors that are being told. |
| `TraceErrors.ManyCircles` | packages/trace/src/runtime/session.ts:197-219 | For every w there are fifteen errors of that width of which exactly 15 w + 1 mentions are told. |

## Left out

- Built-in event names: the decoded event carries the type id; the table of display names is not modelled.
- `noteConnection`, `snapshotTraceValue` and the lazy error marker: sessions are given values that are already plain.
- SessionRuns.RecordFile: for a tick before the newest event the verdict depends on whether a chunk is open then; `SessionRuns.Perform` states it call by call.
- `TraceScope` objects and participant groups: calls go to the session, and the room has its plain membership set.
- JSON text, the log-marker pattern and the parsing of ingest records: records are given as already extracted.
- Floats: -0 counts as 0, arithmetic on floats is not modelled; the part size of an export is rounded down as a real number.
- Object keys such as `__proto__` and fields inherited from a prototype: payloads are maps.
- Key-value writes that fail, and crashes in the middle of `delete`, whose key order is not specified.
- The order of equal times in `list()`: `localeCompare` is any total order on ids.
- Asynchronous sinks and their queue: a sink takes a chunk when it is handed over. Sessions that only another sink than the history store takes.
- `latest()`, header and summary projections of the history store.
- Callbacks that call back while something is cleaned up (states pushed from `onExit`, components added from `onDetach`), and an `onMessage` that closes its connection.
- WebSocket data after closing: `receive` does not look at `closed`, and the theorems are about connections that are open.
- WebSocket texts are delivered as bytes; turning them into strings and the handshake are not modelled.
- A pong whose write throws: the exception leaves the parser with the rest of the buffer unread.
- States are records under an identity and tables are maps, so aliasing and the order of insertion are not captured except where the code relies on it (stack, component lists by age).
- `isAttached`: a component is attached while its own resource is live.
- HistoryStore.TraceHistoryStore.List: the skipping of unreadable records is not modelled, because no record that the store writes is unreadable.
- GameEngines.GameEngine.Unsubscribe: a subscription whose `unsubscribe` throws counts as released, because what it leaves behind is up to the event source.
- Game lifecycle: only running or not; `created`, `starting` and `disposed` are not told apart.
- `unsubscribeByEvent` and single `unsubscribe` calls of the event manager; callbacks wrapped for error reports.
- GameEngines.GameEngine.AddComponent: component options and `getComponent` are not modelled, because they hold no resources.
- Runners.StepSound: `wait` failing in the engine and a body that awaits promises of its own are not modelled, because nothing in the table depends on them.
- Runners.RunnerManager.Dispose: runners have no order in the model, because no cancel depends on another.
- RoomLifecycle.AlwaysSound: the default options only (release on timeout, no narrower scope, `canStop` true), and connection events come together with the change they tell.
- Reconnect.StepSound: requests over the socket are not modelled; a report comes back into the bridge only with `start` and `stop`.
- RegionSplit.SplitCubeRegion: the dimension of a region is carried along unchanged in the code and is not modelled.
- BlockMask.SmallIsFaithful: positions are integers, because the check for other numbers is one test.
- Zip.ArchiveReads: names are given as the UTF-8 bytes that the code makes of them.
- TraceErrors.TraceError: properties that throw when read, because each has a fixed fallback that is then an ordinary text.
- The Minecraft API, HTTP, the file archive, the command line, React views and scoreboards.
