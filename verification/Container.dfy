/** The container file of packages/trace/src/wire/container.ts: header, chunks and footer. */
module Container {
  import opened Wrappers
  import opened Bytes
  import opened Binary
  import opened TraceTypes
  import opened RawValues
  import Utf8

  const MAGIC: bytes := [66, 69, 71, 84]  // "BEGT"
  const FORMAT_VERSION: byte := 1

  datatype BegTraceContainer = BegTraceContainer(header: SessionHeader, chunks: seq<bytes>, end: SessionEnd)

  function StatusCode(s: Status): byte {
    match s
    case Completed => 0
    case Aborted => 1
    case Crashed => 2
    case Interrupted => 3
    case Reloaded => 4
  }

  function StatusOf(code: byte): Result<Status> {
    match code
    case 0 => Success(Completed)
    case 1 => Success(Aborted)
    case 2 => Success(Crashed)
    case 3 => Success(Interrupted)
    case 4 => Success(Reloaded)
    case _ => Failure
  }

  // ---------- what is written ----------

  function UintField(n: int): Result<bytes> {
    if 0 <= n <= MAX_SAFE then Success(VarUint(n)) else Failure
  }

  function StringField(s: seq<unit>): Result<bytes> {
    if |Utf8.Encode(s)| <= MAX_SAFE then Success(StringBytes(s)) else Failure
  }

  function OptionalString(s: Option<seq<unit>>): Result<bytes> {
    if s.None? then Success([]) else StringField(s.value)
  }

  function OptionalValue(v: Option<TraceValue>): Result<bytes> {
    if v.None? then Success([]) else RawValue(v.value)
  }

  function Flags(h: SessionHeader): byte {
    (if h.begameVersion.Some? then 1 else 0) + (if h.packVersion.Some? then 2 else 0) + (if h.initialConfig.Some? then 4 else 0)
  }

  function NameBytes(h: SessionHeader): Result<bytes> {
    var sessionId :- StringField(h.sessionId);
    var gameType :- StringField(h.gameType);
    var gameKey :- StringField(h.gameKey);
    var instance :- StringField(h.gameInstanceId);
    Success(sessionId + gameType + gameKey + instance)
  }

  function DetailBytes(h: SessionHeader): Result<bytes> {
    var begame :- OptionalString(h.begameVersion);
    var pack :- OptionalString(h.packVersion);
    var tick :- UintField(h.startTick);
    var wall :- UintField(h.startWallTime);
    var config :- OptionalValue(h.initialConfig);
    Success(begame + pack + tick + wall + config)
  }

  function HeaderBytes(h: SessionHeader): Result<bytes> {
    var names :- NameBytes(h);
    var details :- DetailBytes(h);
    Success(MAGIC + [FORMAT_VERSION] + names + [Flags(h)] + details)
  }

  function ChunkBytes(chunk: bytes): Result<bytes> {
    var length :- UintField(|chunk|);
    Success(length + chunk)
  }

  function ChunkListBytes(chunks: seq<bytes>): Result<bytes> {
    if chunks == [] then Success([])
    else
      var first :- ChunkBytes(chunks[0]);
      var rest :- ChunkListBytes(chunks[1..]);
      Success(first + rest)
  }

  function EndBytes(e: SessionEnd): Result<bytes> {
    var tick :- UintField(e.endTick);
    var wall :- UintField(e.endWallTime);
    var reason :- OptionalString(e.endReason);
    var events :- UintField(e.eventCount);
    var chunks :- UintField(e.chunkCount);
    Success([StatusCode(e.status)] + tick + wall + [if e.endReason.Some? then 1 else 0] + reason + events + chunks)
  }

  /** The whole file; a failure is the exception the encoder throws. */
  function FileBytes(h: SessionHeader, chunks: seq<bytes>, e: SessionEnd): Result<bytes> {
    var header :- HeaderBytes(h);
    var count :- UintField(|chunks|);
    var list :- ChunkListBytes(chunks);
    var end :- EndBytes(e);
    Success(header + count + list + end)
  }

  predicate Countable(n: int) { 0 <= n <= MAX_SAFE }

  predicate Fits(s: seq<unit>) { |Utf8.Encode(s)| <= MAX_SAFE }

  predicate FitsIfAny(s: Option<seq<unit>>) { s.Some? ==> Fits(s.value) }

  predicate WritableHeader(h: SessionHeader) {
    && Fits(h.sessionId) && Fits(h.gameType) && Fits(h.gameKey) && Fits(h.gameInstanceId)
    && FitsIfAny(h.begameVersion) && FitsIfAny(h.packVersion)
    && Countable(h.startTick) && Countable(h.startWallTime)
    && (h.initialConfig.Some? ==> Writable(h.initialConfig.value))
  }

  predicate WritableEnd(e: SessionEnd) {
    Countable(e.endTick) && Countable(e.endWallTime) && FitsIfAny(e.endReason) && Countable(e.eventCount) && Countable(e.chunkCount)
  }

  predicate WritableFile(h: SessionHeader, chunks: seq<bytes>, e: SessionEnd) {
    && WritableHeader(h) && WritableEnd(e)
    && Countable(|chunks|) && forall i :: 0 <= i < |chunks| ==> Countable(|chunks[i]|)
  }

  lemma {:induction false} ChunksExist(chunks: seq<bytes>)
    ensures ChunkListBytes(chunks).Success? <==> forall i :: 0 <= i < |chunks| ==> Countable(|chunks[i]|)
    decreases chunks
  {
    if chunks != [] {
      ChunksExist(chunks[1..]);
      assert forall i :: 0 <= i < |chunks| ==> chunks[i] == if i == 0 then chunks[0] else chunks[1..][i - 1];
      assert forall i :: 0 <= i < |chunks[1..]| ==> chunks[1..][i] == chunks[i + 1];
    }
  }

  lemma HeaderExists(h: SessionHeader)
    ensures HeaderBytes(h).Success? <==> WritableHeader(h)
  {
    hide RawValue, Writable;
    if h.initialConfig.Some? {
      RawExists(h.initialConfig.value);
    }
  }

  /** A file can be written exactly if its numbers are safe integers and its texts and values have an encoding. */
  lemma FileExists(h: SessionHeader, chunks: seq<bytes>, e: SessionEnd)
    ensures FileBytes(h, chunks, e).Success? <==> WritableFile(h, chunks, e)
  {
    hide HeaderBytes, ChunkListBytes, WritableHeader;
    HeaderExists(h);
    ChunksExist(chunks);
  }

  // ---------- what is read ----------

  function TakeOptionalString(present: bool, b: bytes): Result<Parsed<Option<seq<unit>>>> {
    if !present then Success((None, b))
    else
      var (s, rest) :- TakeString(b);
      Success((Some(s), rest))
  }

  function TakeOptionalValue(present: bool, b: bytes): Result<Parsed<Option<TraceValue>>> {
    if !present then Success((None, b))
    else
      var (v, rest) :- TakeRaw(b);
      Success((Some(v), rest))
  }

  datatype Names = Names(sessionId: seq<unit>, gameType: seq<unit>, gameKey: seq<unit>, gameInstanceId: seq<unit>)

  function TakeNames(b: bytes): Result<Parsed<Names>> {
    var (sessionId, b1) :- TakeString(b);
    var (gameType, b2) :- TakeString(b1);
    var (gameKey, b3) :- TakeString(b2);
    var (instance, b4) :- TakeString(b3);
    Success((Names(sessionId, gameType, gameKey, instance), b4))
  }

  function TakeDetails(b: bytes, names: Names, flags: byte): Result<Parsed<SessionHeader>> {
    var (begame, b1) :- TakeOptionalString(flags % 2 == 1, b);
    var (pack, b2) :- TakeOptionalString(flags / 2 % 2 == 1, b1);
    var (tick, b3) :- TakeVarUint(b2);
    var (wall, b4) :- TakeVarUint(b3);
    var (config, b5) :- TakeOptionalValue(flags / 4 % 2 == 1, b4);
    Success((SessionHeader(names.sessionId, names.gameType, names.gameKey, names.gameInstanceId, begame, pack, tick, wall, config), b5))
  }

  function TakeHeader(b: bytes): Result<Parsed<SessionHeader>> {
    var (magic, b1) :- TakeBytes(b, 4);
    if magic != MAGIC then Failure
    else
      var (version, b2) :- TakeByte(b1);
      if version != FORMAT_VERSION then Failure
      else
        var (names, b3) :- TakeNames(b2);
        var (flags, b4) :- TakeByte(b3);
        TakeDetails(b4, names, flags)
  }

  function TakeChunks(b: bytes, n: nat): Result<Parsed<seq<bytes>>> {
    if n == 0 then Success(([], b))
    else
      var (length, b1) :- TakeVarUint(b);
      var (chunk, b2) :- TakeBytes(b1, length);
      var (more, b3) :- TakeChunks(b2, n - 1);
      Success(([chunk] + more, b3))
  }

  function TakeEnd(b: bytes, sessionId: seq<unit>): Result<Parsed<SessionEnd>> {
    var (code, b1) :- TakeByte(b);
    var status :- StatusOf(code);
    var (tick, b2) :- TakeVarUint(b1);
    var (wall, b3) :- TakeVarUint(b2);
    var (hasReason, b4) :- TakeByte(b3);
    var (reason, b5) :- TakeOptionalString(hasReason != 0, b4);
    var (events, b6) :- TakeVarUint(b5);
    var (chunks, b7) :- TakeVarUint(b6);
    Success((SessionEnd(sessionId, status, tick, wall, reason, events, chunks), b7))
  }

  function ReadFile(b: bytes): Result<BegTraceContainer> {
    var (header, b1) :- TakeHeader(b);
    var (count, b2) :- TakeVarUint(b1);
    var (chunks, b3) :- TakeChunks(b2, count);
    var (end, b4) :- TakeEnd(b3, header.sessionId);
    if b4 != [] then Failure else Success(BegTraceContainer(header, chunks, end))
  }

  // ---------- round trip ----------

  lemma OptionalStringInverts(s: Option<seq<unit>>, rest: bytes)
    requires OptionalString(s).Success?
    ensures TakeOptionalString(s.Some?, OptionalString(s).value + rest) == Success((s, rest))
  {
    hide StringBytes, TakeString;
    assert [] + rest == rest;
    if s.Some? {
      StringInverts(s.value, rest);
    }
  }

  lemma OptionalValueInverts(v: Option<TraceValue>, rest: bytes)
    requires OptionalValue(v).Success? && (v.Some? ==> WellFormed(v.value))
    ensures TakeOptionalValue(v.Some?, OptionalValue(v).value + rest) == Success((v, rest))
  {
    hide RawValue, TakeRaw;
    assert [] + rest == rest;
    if v.Some? {
      RawInverts(v.value, rest);
    }
  }

  predicate WellFormedHeader(h: SessionHeader) { h.initialConfig.Some? ==> WellFormed(h.initialConfig.value) }

  lemma NamesInvert(h: SessionHeader, rest: bytes)
    requires NameBytes(h).Success?
    ensures TakeNames(NameBytes(h).value + rest) ==
      Success((Names(h.sessionId, h.gameType, h.gameKey, h.gameInstanceId), rest))
  {
    hide StringBytes, TakeString;
    StringInverts(h.gameInstanceId, rest);
    var b3 := StringBytes(h.gameInstanceId) + rest;
    StringInverts(h.gameKey, b3);
    var b2 := StringBytes(h.gameKey) + b3;
    StringInverts(h.gameType, b2);
    var b1 := StringBytes(h.gameType) + b2;
    StringInverts(h.sessionId, b1);
    assert NameBytes(h).value + rest == StringBytes(h.sessionId) + b1;
  }

  lemma DetailsInvert(h: SessionHeader, rest: bytes)
    requires WellFormedHeader(h) && DetailBytes(h).Success?
    ensures TakeDetails(DetailBytes(h).value + rest, Names(h.sessionId, h.gameType, h.gameKey, h.gameInstanceId), Flags(h)) ==
      Success((h, rest))
  {
    hide VarUint, TakeVarUint, OptionalString, TakeOptionalString, OptionalValue, TakeOptionalValue, WellFormed;
    OptionalValueInverts(h.initialConfig, rest);
    var b4 := OptionalValue(h.initialConfig).value + rest;
    VarUintInverts(h.startWallTime, b4);
    var b3 := VarUint(h.startWallTime) + b4;
    VarUintInverts(h.startTick, b3);
    var b2 := VarUint(h.startTick) + b3;
    OptionalStringInverts(h.packVersion, b2);
    var b1 := OptionalString(h.packVersion).value + b2;
    OptionalStringInverts(h.begameVersion, b1);
    assert DetailBytes(h).value + rest == OptionalString(h.begameVersion).value + b1;
  }

  lemma HeaderInverts(h: SessionHeader, rest: bytes)
    requires WellFormedHeader(h) && HeaderBytes(h).Success?
    ensures TakeHeader(HeaderBytes(h).value + rest) == Success((h, rest))
  {
    hide NameBytes, DetailBytes, TakeNames, TakeDetails, WellFormed, Flags;
    var names, details := NameBytes(h).value, DetailBytes(h).value;
    DetailsInvert(h, rest);
    var b3 := [Flags(h)] + (details + rest);
    NamesInvert(h, b3);
    var b1 := [FORMAT_VERSION] + (names + b3);
    Associative(MAGIC + [FORMAT_VERSION] + names + [Flags(h)], details, rest);
    Associative(MAGIC + [FORMAT_VERSION] + names, [Flags(h)], details + rest);
    Associative(MAGIC + [FORMAT_VERSION], names, b3);
    Associative(MAGIC, [FORMAT_VERSION], names + b3);
    SliceOfMiddle([], MAGIC, b1);
    SliceOfMiddle([], [FORMAT_VERSION], names + b3);
    SliceOfMiddle([], [Flags(h)], details + rest);
    assert [] + MAGIC + b1 == MAGIC + b1;
  }

  lemma {:induction false} ChunksInvert(chunks: seq<bytes>, rest: bytes)
    requires ChunkListBytes(chunks).Success?
    ensures TakeChunks(ChunkListBytes(chunks).value + rest, |chunks|) == Success((chunks, rest))
  {
    hide VarUint, TakeVarUint;
    if chunks == [] {
      assert ChunkListBytes(chunks).value + rest == rest;
    } else {
      var more := ChunkListBytes(chunks[1..]).value + rest;
      var c := chunks[0];
      VarUintInverts(|c|, c + more);
      assert (c + more)[..|c|] == c && (c + more)[|c|..] == more;
      assert ChunkListBytes(chunks).value + rest == VarUint(|c|) + (c + more);
      ChunksInvert(chunks[1..], rest);
      assert [c] + chunks[1..] == chunks;
    }
  }

  lemma StatusInverts(s: Status)
    ensures StatusOf(StatusCode(s)) == Success(s)
  {
  }

  lemma EndInverts(e: SessionEnd, rest: bytes)
    requires EndBytes(e).Success?
    ensures TakeEnd(EndBytes(e).value + rest, e.sessionId) == Success((e, rest))
  {
    hide VarUint, TakeVarUint, OptionalString, TakeOptionalString, StatusOf;
    assert StatusOf(StatusCode(e.status)) == Success(e.status) by { StatusInverts(e.status); }
    VarUintInverts(e.chunkCount, rest);
    var b6 := VarUint(e.chunkCount) + rest;
    VarUintInverts(e.eventCount, b6);
    var b5 := VarUint(e.eventCount) + b6;
    OptionalStringInverts(e.endReason, b5);
    var b4 := OptionalString(e.endReason).value + b5;
    var b3 := [if e.endReason.Some? then 1 else 0] + b4;
    assert b3[1..] == b4;
    VarUintInverts(e.endWallTime, b3);
    var b2 := VarUint(e.endWallTime) + b3;
    VarUintInverts(e.endTick, b2);
    var b1 := VarUint(e.endTick) + b2;
    var b := [StatusCode(e.status)] + b1;
    assert b[1..] == b1;
    assert EndBytes(e).value + rest == b;
  }

  /** Decoding an encoded container returns its header, its chunks and its footer. */
  lemma FileInverts(h: SessionHeader, chunks: seq<bytes>, e: SessionEnd)
    requires WellFormedHeader(h) && e.sessionId == h.sessionId
    requires FileBytes(h, chunks, e).Success?
    ensures ReadFile(FileBytes(h, chunks, e).value) == Success(BegTraceContainer(h, chunks, e))
  {
    hide VarUint, TakeVarUint, HeaderBytes, TakeHeader, ChunkListBytes, TakeChunks, EndBytes, TakeEnd;
    var end := EndBytes(e).value;
    EndInverts(e, []);
    assert end + [] == end;
    ChunksInvert(chunks, end);
    var b2 := ChunkListBytes(chunks).value + end;
    VarUintInverts(|chunks|, b2);
    var b1 := VarUint(|chunks|) + b2;
    HeaderInverts(h, b1);
    assert FileBytes(h, chunks, e).value == HeaderBytes(h).value + b1;
  }

  /** Behind an encoded container there may be nothing. */
  lemma NothingFollows(h: SessionHeader, chunks: seq<bytes>, e: SessionEnd, x: bytes)
    requires WellFormedHeader(h) && e.sessionId == h.sessionId
    requires FileBytes(h, chunks, e).Success? && x != []
    ensures ReadFile(FileBytes(h, chunks, e).value + x) == Failure
  {
    hide VarUint, TakeVarUint, HeaderBytes, TakeHeader, ChunkListBytes, TakeChunks, EndBytes, TakeEnd;
    EndInverts(e, x);
    var b3 := EndBytes(e).value + x;
    ChunksInvert(chunks, b3);
    var b2 := ChunkListBytes(chunks).value + b3;
    VarUintInverts(|chunks|, b2);
    var b1 := VarUint(|chunks|) + b2;
    HeaderInverts(h, b1);
    assert FileBytes(h, chunks, e).value + x == HeaderBytes(h).value + b1;
  }

  /** The three low bits of the flags count, and no others. */
  lemma OtherFlagsIgnored(b: bytes, names: Names, flags: byte, n: byte)
    requires flags % 8 == n
    ensures TakeDetails(b, names, flags) == TakeDetails(b, names, n)
  {
    hide TakeVarUint, TakeOptionalString, TakeOptionalValue;
    assert flags / 2 % 2 == n / 2 % 2 && flags / 4 % 2 == n / 4 % 2;
  }

  /** A file begins with "BEGT" and format version 1, or it is refused; so is an unknown status. */
  lemma OtherFilesRefused(b: bytes)
    ensures ReadFile(b).Success? ==> |b| >= 5 && b[..5] == [66, 69, 71, 84, 1]
    ensures b != [] && b[0] > 4 ==> forall id :: TakeEnd(b, id) == Failure
  {
    hide TakeNames, TakeDetails, TakeChunks, TakeVarUint, TakeOptionalString;
    if ReadFile(b).Success? {
      assert b[..5] == b[..4] + [b[4]];
    }
  }

  // ---------- the encoder and the decoder ----------

  method EncodeBegTrace(header: SessionHeader, chunks: seq<bytes>, end: SessionEnd) returns (r: Result<bytes>)
    ensures r == FileBytes(header, chunks, end)
  {
    hide HeaderBytes, VarUint, ChunkListBytes, EndBytes;
    var writer := new BinaryWriter();
    var ok := WriteHeader(writer, header);
    if !ok { return Failure; }
    assert writer.data == HeaderBytes(header).value;
    ok := writer.WriteVarUint(|chunks|);
    if !ok { return Failure; }
    ok := WriteChunks(writer, chunks);
    if !ok { return Failure; }
    ok := WriteEnd(writer, end);
    if !ok { return Failure; }
    return Success(writer.data);
  }

  method WriteHeader(writer: BinaryWriter, header: SessionHeader) returns (ok: bool)
    modifies writer
    ensures ok <==> HeaderBytes(header).Success?
    ensures ok ==> writer.data == old(writer.data) + HeaderBytes(header).value
  {
    hide NameBytes, DetailBytes;
    writer.WriteBytes(MAGIC);
    writer.WriteByte(FORMAT_VERSION);
    ok := WriteNames(writer, header);
    if !ok { return; }
    writer.WriteByte(Flags(header));
    ok := WriteDetails(writer, header);
  }

  method WriteNames(writer: BinaryWriter, header: SessionHeader) returns (ok: bool)
    modifies writer
    ensures ok <==> NameBytes(header).Success?
    ensures ok ==> writer.data == old(writer.data) + NameBytes(header).value
  {
    hide StringBytes, Utf8.Encode;
    ok := writer.WriteString(header.sessionId);
    if !ok { return; }
    ok := writer.WriteString(header.gameType);
    if !ok { return; }
    ok := writer.WriteString(header.gameKey);
    if !ok { return; }
    ok := writer.WriteString(header.gameInstanceId);
  }

  method WriteDetails(writer: BinaryWriter, header: SessionHeader) returns (ok: bool)
    modifies writer
    ensures ok <==> DetailBytes(header).Success?
    ensures ok ==> writer.data == old(writer.data) + DetailBytes(header).value
  {
    hide UintField, OptionalString, OptionalValue;
    ok := WriteOptionalString(writer, header.begameVersion);
    if !ok { return; }
    ok := WriteOptionalString(writer, header.packVersion);
    if !ok { return; }
    ok := WriteUint(writer, header.startTick);
    if !ok { return; }
    ok := WriteUint(writer, header.startWallTime);
    if !ok { return; }
    ok := WriteOptionalValue(writer, header.initialConfig);
  }

  method WriteOptionalValue(writer: BinaryWriter, v: Option<TraceValue>) returns (ok: bool)
    modifies writer
    ensures ok <==> OptionalValue(v).Success?
    ensures ok ==> writer.data == old(writer.data) + OptionalValue(v).value
  {
    if v.None? {
      return true;
    }
    ok := WriteRawValue(writer, v.value);
  }

  method WriteOptionalString(writer: BinaryWriter, s: Option<seq<unit>>) returns (ok: bool)
    modifies writer
    ensures ok <==> OptionalString(s).Success?
    ensures ok ==> writer.data == old(writer.data) + OptionalString(s).value
  {
    if s.None? {
      return true;
    }
    ok := writer.WriteString(s.value);
  }

  method WriteChunks(writer: BinaryWriter, chunks: seq<bytes>) returns (ok: bool)
    modifies writer
    ensures ok <==> ChunkListBytes(chunks).Success?
    ensures ok ==> writer.data == old(writer.data) + ChunkListBytes(chunks).value
  {
    hide VarUint;
    ghost var start, done := writer.data, [];
    assert chunks[0..] == chunks;
    AfterNothing(ChunkListBytes(chunks));
    for i := 0 to |chunks|
      invariant writer.data == start + done
      invariant ChunkListBytes(chunks) == After(done, ChunkListBytes(chunks[i..]))
    {
      assert chunks[i..][1..] == chunks[i + 1..];
      ok := writer.WriteVarUint(|chunks[i]|);
      if !ok { return; }
      writer.WriteBytes(chunks[i]);
      AfterTwice(done, ChunkBytes(chunks[i]).value, ChunkListBytes(chunks[i + 1..]));
      done := done + ChunkBytes(chunks[i]).value;
    }
    return true;
  }

  method WriteUint(writer: BinaryWriter, n: int) returns (ok: bool)
    modifies writer
    ensures ok <==> UintField(n).Success?
    ensures ok ==> writer.data == old(writer.data) + UintField(n).value
  {
    ok := writer.WriteVarUint(n);
  }

  method WriteEnd(writer: BinaryWriter, end: SessionEnd) returns (ok: bool)
    modifies writer
    ensures ok <==> EndBytes(end).Success?
    ensures ok ==> writer.data == old(writer.data) + EndBytes(end).value
  {
    hide UintField, OptionalString;
    writer.WriteByte(StatusCode(end.status));
    ok := WriteUint(writer, end.endTick);
    if !ok { return; }
    ok := WriteUint(writer, end.endWallTime);
    if !ok { return; }
    writer.WriteByte(if end.endReason.Some? then 1 else 0);
    ok := WriteOptionalString(writer, end.endReason);
    if !ok { return; }
    ok := WriteUint(writer, end.eventCount);
    if !ok { return; }
    ok := WriteUint(writer, end.chunkCount);
  }

  method ReadOptionalString(reader: BinaryReader, present: bool) returns (r: Result<Option<seq<unit>>>)
    requires reader.Valid()
    modifies reader
    ensures reader.Follows(TakeOptionalString(present, old(reader.Rest())), r)
  {
    if !present {
      return Success(None);
    }
    var s := reader.ReadString();
    return if s.Success? then Success(Some(s.value)) else Failure;
  }

  method ReadOptionalValue(reader: BinaryReader, present: bool) returns (r: Result<Option<TraceValue>>)
    requires reader.Valid()
    modifies reader
    ensures reader.Follows(TakeOptionalValue(present, old(reader.Rest())), r)
  {
    if !present {
      return Success(None);
    }
    var v := ReadRawValue(reader);
    return if v.Success? then Success(Some(v.value)) else Failure;
  }

  method ReadHeader(reader: BinaryReader) returns (r: Result<SessionHeader>)
    requires reader.Valid()
    modifies reader
    ensures reader.Follows(TakeHeader(old(reader.Rest())), r)
  {
    hide TakeNames, TakeDetails;
    var magic := reader.ReadBytes(4);
    if magic.Failure? || magic.value != MAGIC { return Failure; }
    var version := reader.ReadByte();
    if version.Failure? || version.value != FORMAT_VERSION { return Failure; }
    var names := ReadNames(reader);
    if names.Failure? { return Failure; }
    var flags := reader.ReadByte();
    if flags.Failure? { return Failure; }
    r := ReadDetails(reader, names.value, flags.value);
  }

  method ReadNames(reader: BinaryReader) returns (r: Result<Names>)
    requires reader.Valid()
    modifies reader
    ensures reader.Follows(TakeNames(old(reader.Rest())), r)
  {
    hide TakeString;
    var sessionId := reader.ReadString();
    if sessionId.Failure? { return Failure; }
    var gameType := reader.ReadString();
    if gameType.Failure? { return Failure; }
    var gameKey := reader.ReadString();
    if gameKey.Failure? { return Failure; }
    var instance := reader.ReadString();
    if instance.Failure? { return Failure; }
    return Success(Names(sessionId.value, gameType.value, gameKey.value, instance.value));
  }

  method ReadDetails(reader: BinaryReader, names: Names, flags: byte) returns (r: Result<SessionHeader>)
    requires reader.Valid()
    modifies reader
    ensures reader.Follows(TakeDetails(old(reader.Rest()), names, flags), r)
  {
    hide TakeVarUint, TakeOptionalString, TakeOptionalValue;
    var begame := ReadOptionalString(reader, flags % 2 == 1);
    if begame.Failure? { return Failure; }
    var pack := ReadOptionalString(reader, flags / 2 % 2 == 1);
    if pack.Failure? { return Failure; }
    var tick := reader.ReadVarUint();
    if tick.Failure? { return Failure; }
    var wall := reader.ReadVarUint();
    if wall.Failure? { return Failure; }
    var config := ReadOptionalValue(reader, flags / 4 % 2 == 1);
    if config.Failure? { return Failure; }
    return Success(SessionHeader(names.sessionId, names.gameType, names.gameKey, names.gameInstanceId,
                                 begame.value, pack.value, tick.value, wall.value, config.value));
  }

  ghost function Listed(done: seq<bytes>, r: Result<Parsed<seq<bytes>>>): Result<Parsed<seq<bytes>>> {
    if r.Success? then Success((done + r.value.0, r.value.1)) else Failure
  }

  method ReadChunks(reader: BinaryReader, count: nat) returns (r: Result<seq<bytes>>)
    requires reader.Valid()
    modifies reader
    ensures reader.Follows(TakeChunks(old(reader.Rest()), count), r)
  {
    hide TakeVarUint, TakeBytes;
    var chunks: seq<bytes> := [];
    assert forall s: seq<bytes> :: [] + s == s;
    for i := 0 to count
      invariant reader.Valid()
      invariant TakeChunks(old(reader.Rest()), count) == Listed(chunks, TakeChunks(reader.Rest(), count - i))
    {
      var length := reader.ReadVarUint();
      if length.Failure? { return Failure; }
      var chunk := reader.ReadBytes(length.value);
      if chunk.Failure? { return Failure; }
      assert forall s: seq<bytes> :: chunks + ([chunk.value] + s) == chunks + [chunk.value] + s;
      chunks := chunks + [chunk.value];
    }
    assert chunks + [] == chunks;
    return Success(chunks);
  }

  method ReadEnd(reader: BinaryReader, sessionId: seq<unit>) returns (r: Result<SessionEnd>)
    requires reader.Valid()
    modifies reader
    ensures reader.Follows(TakeEnd(old(reader.Rest()), sessionId), r)
  {
    hide TakeVarUint, TakeOptionalString;
    var code := reader.ReadByte();
    if code.Failure? { return Failure; }
    var status := StatusOf(code.value);
    if status.Failure? { return Failure; }
    var tick := reader.ReadVarUint();
    if tick.Failure? { return Failure; }
    var wall := reader.ReadVarUint();
    if wall.Failure? { return Failure; }
    var hasReason := reader.ReadByte();
    if hasReason.Failure? { return Failure; }
    var reason := ReadOptionalString(reader, hasReason.value != 0);
    if reason.Failure? { return Failure; }
    var events := reader.ReadVarUint();
    if events.Failure? { return Failure; }
    var chunks := reader.ReadVarUint();
    if chunks.Failure? { return Failure; }
    return Success(SessionEnd(sessionId, status.value, tick.value, wall.value, reason.value, events.value, chunks.value));
  }

  method DecodeBegTraceContainer(b: bytes) returns (r: Result<BegTraceContainer>)
    ensures r == ReadFile(b)
  {
    hide TakeVarUint, TakeHeader, TakeChunks, TakeEnd;
    var reader := new BinaryReader(b);
    var header := ReadHeader(reader);
    if header.Failure? { return Failure; }
    var count := reader.ReadVarUint();
    if count.Failure? { return Failure; }
    var chunks := ReadChunks(reader, count.value);
    if chunks.Failure? { return Failure; }
    var end := ReadEnd(reader, header.value.sessionId);
    if end.Failure? { return Failure; }
    var remaining := reader.Remaining();
    if remaining != 0 { return Failure; }
    return Success(BegTraceContainer(header.value, chunks.value, end.value));
  }
}
