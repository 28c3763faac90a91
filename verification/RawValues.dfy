/** `writeRawValue` and `readRawValue` of packages/trace/src/wire/binary.ts. */
module RawValues {
  import opened Wrappers
  import opened Bytes
  import opened Binary
  import opened Float64
  import opened TraceTypes
  import Utf8

  /** The bytes of a value; a failure is the exception the writer throws. */
  function RawValue(v: TraceValue): Result<bytes>
    decreases v
  {
    match v
    case Null => Success([0])
    case Bool(b) => Success([if b then 2 else 1])
    case Num(Whole(n)) =>
      if n >= 0 then Success([3] + VarUint(n))
      else if FitsVarInt(n) then Success([4] + VarUint(ZigZag(n)))
      else Failure
    case Num(Other(image)) => Success([5] + image)
    case Text(s) => if |Utf8.Encode(s)| <= MAX_SAFE then Success([6] + StringBytes(s)) else Failure
    case Arr(items) =>
      if |items| > MAX_SAFE then Failure
      else
        var body :- RawItems(items);
        Success([7] + VarUint(|items|) + body)
    case Obj(entries) =>
      if |entries| > MAX_SAFE then Failure
      else
        var body :- RawEntries(entries);
        Success([8] + VarUint(|entries|) + body)
  }

  function RawItems(items: seq<TraceValue>): Result<bytes>
    decreases items
  {
    if items == [] then Success([])
    else
      var first :- RawValue(items[0]);
      var rest :- RawItems(items[1..]);
      Success(first + rest)
  }

  function RawEntry(e: Entry): Result<bytes>
    decreases e
  {
    if |Utf8.Encode(e.key)| > MAX_SAFE then Failure
    else
      var value :- RawValue(e.value);
      Success(StringBytes(e.key) + value)
  }

  function RawEntries(es: seq<Entry>): Result<bytes>
    decreases es
  {
    if es == [] then Success([])
    else
      var first :- RawEntry(es[0]);
      var rest :- RawEntries(es[1..]);
      Success(first + rest)
  }

  /** The values that can be written: no integer below -2^52, nothing too long to count. */
  predicate Writable(v: TraceValue)
    decreases v
  {
    match v
    case Num(Whole(n)) => n >= 0 || FitsVarInt(n)
    case Text(s) => |Utf8.Encode(s)| <= MAX_SAFE
    case Arr(items) => |items| <= MAX_SAFE && WritableItems(items)
    case Obj(entries) => |entries| <= MAX_SAFE && WritableEntries(entries)
    case _ => true
  }

  predicate WritableItems(items: seq<TraceValue>)
    decreases items
  {
    forall i :: 0 <= i < |items| ==> Writable(items[i])
  }

  predicate WritableEntries(es: seq<Entry>)
    decreases es
  {
    forall i :: 0 <= i < |es| ==> |Utf8.Encode(es[i].key)| <= MAX_SAFE && Writable(es[i].value)
  }

  lemma {:induction false} RawExists(v: TraceValue)
    ensures RawValue(v).Success? <==> Writable(v)
    decreases v
  {
    match v {
      case Arr(items) => ItemsExist(items);
      case Obj(entries) => EntriesExist(entries);
      case _ =>
    }
  }

  lemma {:induction false} ItemsExist(items: seq<TraceValue>)
    ensures RawItems(items).Success? <==> WritableItems(items)
    decreases items
  {
    if items != [] {
      RawExists(items[0]);
      ItemsExist(items[1..]);
      assert forall i :: 0 <= i < |items| ==> items[i] == if i == 0 then items[0] else items[1..][i - 1];
      assert WritableItems(items[1..]) && Writable(items[0]) ==> WritableItems(items);
      assert WritableItems(items) ==> forall i :: 0 <= i < |items[1..]| ==> Writable(items[i + 1]) && items[1..][i] == items[i + 1];
    }
  }

  lemma {:induction false} EntriesExist(es: seq<Entry>)
    ensures RawEntries(es).Success? <==> WritableEntries(es)
    decreases es
  {
    if es != [] {
      RawExists(es[0].value);
      EntriesExist(es[1..]);
      assert RawEntry(es[0]).Success? <==> |Utf8.Encode(es[0].key)| <= MAX_SAFE && Writable(es[0].value);
      assert forall i :: 0 <= i < |es| ==> es[i] == if i == 0 then es[0] else es[1..][i - 1];
      assert WritableEntries(es) ==> forall i :: 0 <= i < |es[1..]| ==>
        es[1..][i] == es[i + 1] && |Utf8.Encode(es[i + 1].key)| <= MAX_SAFE && Writable(es[i + 1].value);
    }
  }

  /** What a reader gets from the front of `b`. */
  function TakeRaw(b: bytes): (r: Result<Parsed<TraceValue>>)
    ensures r.Success? ==> |r.value.1| < |b|
    decreases |b|, 0
  {
    if b == [] then Failure
    else
      match b[0]
      case 0 => Success((Null, b[1..]))
      case 1 => Success((Bool(false), b[1..]))
      case 2 => Success((Bool(true), b[1..]))
      case 3 =>
        var (n, rest) :- TakeVarUint(b[1..]);
        Success((Num(Whole(n)), rest))
      case 4 =>
        var (n, rest) :- TakeVarInt(b[1..]);
        Success((Num(Whole(n)), rest))
      case 5 =>
        var (n, rest) :- TakeFloat64(b[1..]);
        Success((Num(n), rest))
      case 6 =>
        var (s, rest) :- TakeString(b[1..]);
        Success((Text(s), rest))
      case 7 =>
        var (n, rest) :- TakeVarUint(b[1..]);
        var (items, rest') :- TakeItems(rest, n);
        Success((Arr(items), rest'))
      case 8 =>
        var (n, rest) :- TakeVarUint(b[1..]);
        var (es, rest') :- TakeEntries(rest, n, []);
        Success((Obj(es), rest'))
      case _ => Failure
  }

  function TakeItems(b: bytes, n: nat): (r: Result<Parsed<seq<TraceValue>>>)
    ensures r.Success? ==> |r.value.1| <= |b|
    decreases |b|, n
  {
    if n == 0 then Success(([], b))
    else
      var (first, rest) :- TakeRaw(b);
      var (more, rest') :- TakeItems(rest, n - 1);
      Success(([first] + more, rest'))
  }

  function TakeEntries(b: bytes, n: nat, sofar: seq<Entry>): (r: Result<Parsed<seq<Entry>>>)
    ensures r.Success? ==> |r.value.1| <= |b|
    decreases |b|, n
  {
    if n == 0 then Success((sofar, b))
    else
      var (key, rest) :- TakeString(b);
      var (value, rest') :- TakeRaw(rest);
      TakeEntries(rest', n - 1, Put(sofar, key, value))
  }

  /** A value that could be written is read back, whatever bytes follow. */
  lemma {:induction false} RawInverts(v: TraceValue, rest: bytes)
    requires WellFormed(v) && RawValue(v).Success?
    ensures TakeRaw(RawValue(v).value + rest) == Success((v, rest))
    decreases v
  {
    hide TakeVarUint, TakeVarInt, TakeFloat64, TakeString, VarUint, StringBytes, ZigZag, TakeItems, TakeEntries, RawItems, RawEntries, WellFormedItems, WellFormedEntries;
    var b := RawValue(v).value + rest;
    var tail := b[1..];
    match v {
      case Null =>
      case Bool(_) =>
      case Num(Whole(n)) =>
        if n >= 0 {
          assert tail == VarUint(n) + rest;
          VarUintInverts(n, rest);
        } else {
          assert tail == VarUint(ZigZag(n)) + rest;
          VarIntInverts(n, rest);
        }
      case Num(Other(image)) =>
        assert tail == NumberBytes(v.n) + rest;
        Float64Inverts(v.n, rest);
      case Text(s) =>
        assert tail == StringBytes(s) + rest;
        StringInverts(s, rest);
      case Arr(items) =>
        var body := RawItems(items).value;
        assert tail == VarUint(|items|) + (body + rest);
        VarUintInverts(|items|, body + rest);
        ItemsInvert(items, rest);
      case Obj(entries) =>
        var body := RawEntries(entries).value;
        assert tail == VarUint(|entries|) + (body + rest);
        VarUintInverts(|entries|, body + rest);
        assert [] + entries == entries;
        EntriesInvert(entries, [], rest);
    }
  }

  lemma {:induction false} ItemsInvert(items: seq<TraceValue>, rest: bytes)
    requires RawItems(items).Success?
    requires WellFormedItems(items)
    ensures TakeItems(RawItems(items).value + rest, |items|) == Success((items, rest))
    decreases items
  {
    hide TakeVarUint, TakeVarInt, TakeFloat64, TakeString, VarUint, StringBytes, ZigZag, TakeRaw, RawValue, WellFormed;
    if items == [] {
      assert RawItems(items).value + rest == rest;
    } else {
      var first, more := RawValue(items[0]).value, RawItems(items[1..]).value;
      RawInverts(items[0], more + rest);
      ItemsInvert(items[1..], rest);
      assert RawItems(items).value + rest == first + (more + rest);
      assert [items[0]] + items[1..] == items;
    }
  }

  lemma {:induction false} EntriesInvert(es: seq<Entry>, sofar: seq<Entry>, rest: bytes)
    requires RawEntries(es).Success?
    requires forall i, j :: 0 <= i < |sofar| && 0 <= j < |es| ==> sofar[i].key != es[j].key
    requires WellFormedEntries(es)
    ensures TakeEntries(RawEntries(es).value + rest, |es|, sofar) == Success((sofar + es, rest))
    decreases es
  {
    hide TakeVarUint, TakeVarInt, TakeFloat64, TakeString, VarUint, StringBytes, ZigZag, TakeRaw, RawValue, Put, WellFormed;
    if es == [] {
      assert RawEntries(es).value + rest == rest && sofar + es == sofar;
    } else {
      var e := es[0];
      var value, more := RawValue(e.value).value, RawEntries(es[1..]).value;
      assert RawEntries(es).value + rest == StringBytes(e.key) + (value + (more + rest));
      StringInverts(e.key, value + (more + rest));
      RawInverts(e.value, more + rest);
      PutNew(sofar, e.key, e.value);
      assert sofar + [e] + es[1..] == sofar + es;
      EntriesInvert(es[1..], sofar + [e], rest);
    }
  }

  // ---------- the writer and the reader ----------

  method WriteRawValue(writer: BinaryWriter, value: TraceValue) returns (ok: bool)
    modifies writer
    ensures ok <==> RawValue(value).Success?
    ensures ok ==> writer.data == old(writer.data) + RawValue(value).value
    decreases value
  {
    hide VarUint, ZigZag, StringBytes, RawItems, RawEntries, Image, Utf8.Encode;
    match value {
      case Null =>
        writer.WriteByte(0);
        return true;
      case Bool(b) =>
        writer.WriteByte(if b then 2 else 1);
        return true;
      case Num(Whole(n)) =>
        if n >= 0 {
          writer.WriteByte(3);
          ok := writer.WriteVarUint(n);
        } else {
          writer.WriteByte(4);
          ok := writer.WriteVarInt(n);
        }
        assert ok ==> writer.data == old(writer.data) + RawValue(value).value;
      case Num(Other(image)) =>
        writer.WriteByte(5);
        writer.WriteFloat64(value.n);
        return true;
      case Text(s) =>
        writer.WriteByte(6);
        ok := writer.WriteString(s);
      case Arr(items) =>
        writer.WriteByte(7);
        ok := writer.WriteVarUint(|items|);
        if ok {
          ok := WriteItems(writer, items);
        }
      case Obj(entries) =>
        writer.WriteByte(8);
        ok := writer.WriteVarUint(|entries|);
        if ok {
          ok := WriteEntries(writer, entries);
        }
    }
  }

  /** The loop over the elements of an array. */
  method WriteItems(writer: BinaryWriter, items: seq<TraceValue>) returns (ok: bool)
    modifies writer
    ensures ok <==> RawItems(items).Success?
    ensures ok ==> writer.data == old(writer.data) + RawItems(items).value
    decreases items
  {
    hide RawValue;
    ghost var start, done := writer.data, [];
    assert items[0..] == items;
    AfterNothing(RawItems(items));
    for i := 0 to |items|
      invariant writer.data == start + done
      invariant RawItems(items) == After(done, RawItems(items[i..]))
    {
      ok := WriteRawValue(writer, items[i]);
      assert items[i..][1..] == items[i + 1..];
      if !ok { return; }
      AfterTwice(done, RawValue(items[i]).value, RawItems(items[i + 1..]));
      done := done + RawValue(items[i]).value;
    }
    return true;
  }

  /** The loop over the own entries of an object. */
  method WriteEntries(writer: BinaryWriter, entries: seq<Entry>) returns (ok: bool)
    modifies writer
    ensures ok <==> RawEntries(entries).Success?
    ensures ok ==> writer.data == old(writer.data) + RawEntries(entries).value
    decreases entries
  {
    hide RawValue, StringBytes;
    ghost var start, done := writer.data, [];
    assert entries[0..] == entries;
    AfterNothing(RawEntries(entries));
    for i := 0 to |entries|
      invariant writer.data == start + done
      invariant RawEntries(entries) == After(done, RawEntries(entries[i..]))
    {
      assert entries[i..][1..] == entries[i + 1..];
      ok := writer.WriteString(entries[i].key);
      if !ok { return; }
      ok := WriteRawValue(writer, entries[i].value);
      if !ok { return; }
      AfterTwice(done, RawEntry(entries[i]).value, RawEntries(entries[i + 1..]));
      done := done + RawEntry(entries[i]).value;
    }
    return true;
  }

  /** Items already read come before the ones still to be read. */
  ghost function Joined(done: seq<TraceValue>, r: Result<Parsed<seq<TraceValue>>>): Result<Parsed<seq<TraceValue>>> {
    if r.Success? then Success((done + r.value.0, r.value.1)) else Failure
  }

  lemma JoinedTwice(done: seq<TraceValue>, v: TraceValue, r: Result<Parsed<seq<TraceValue>>>)
    ensures Joined(done, Joined([v], r)) == Joined(done + [v], r)
  {
    if r.Success? {
      assert done + ([v] + r.value.0) == done + [v] + r.value.0;
    }
  }

  method ReadRawValue(reader: BinaryReader) returns (r: Result<TraceValue>)
    requires reader.Valid()
    modifies reader
    ensures reader.Follows(TakeRaw(old(reader.Rest())), r)
    decreases |reader.Rest()|, 0
  {
    hide TakeVarUint, TakeVarInt, TakeFloat64, TakeString, VarUint, StringBytes, ZigZag;
    var tag := reader.ReadByte();
    if tag.Failure? { return Failure; }
    match tag.value {
      case 0 => return Success(Null);
      case 1 => return Success(Bool(false));
      case 2 => return Success(Bool(true));
      case 3 =>
        var n := reader.ReadVarUint();
        return if n.Success? then Success(Num(Whole(n.value))) else Failure;
      case 4 =>
        var n := reader.ReadVarInt();
        return if n.Success? then Success(Num(Whole(n.value))) else Failure;
      case 5 =>
        var n := reader.ReadFloat64();
        return if n.Success? then Success(Num(n.value)) else Failure;
      case 6 =>
        var s := reader.ReadString();
        return if s.Success? then Success(Text(s.value)) else Failure;
      case 7 =>
        var length := reader.ReadVarUint();
        if length.Failure? { return Failure; }
        var items := ReadItems(reader, length.value);
        return if items.Success? then Success(Arr(items.value)) else Failure;
      case 8 =>
        var length := reader.ReadVarUint();
        if length.Failure? { return Failure; }
        var entries := ReadEntries(reader, length.value);
        return if entries.Success? then Success(Obj(entries.value)) else Failure;
      case _ => return Failure;
    }
  }

  /** The loop over the elements of an array. */
  method ReadItems(reader: BinaryReader, count: nat) returns (r: Result<seq<TraceValue>>)
    requires reader.Valid()
    modifies reader
    ensures reader.Follows(TakeItems(old(reader.Rest()), count), r)
    decreases |reader.Rest()|, count + 1
  {
    hide TakeRaw;
    var items: seq<TraceValue> := [];
    ghost var body := TakeItems(reader.Rest(), count);
    JoinedNothing(body);
    for i := 0 to count
      invariant reader.Valid() && |reader.Rest()| <= old(|reader.Rest()|)
      invariant body == Joined(items, TakeItems(reader.Rest(), count - i))
    {
      var v := ReadRawValue(reader);
      if v.Failure? { return Failure; }
      JoinedTwice(items, v.value, TakeItems(reader.Rest(), count - i - 1));
      items := items + [v.value];
    }
    assert items + [] == items;
    return Success(items);
  }

  /** The loop over the own entries of an object. */
  method ReadEntries(reader: BinaryReader, count: nat) returns (r: Result<seq<Entry>>)
    requires reader.Valid()
    modifies reader
    ensures reader.Follows(TakeEntries(old(reader.Rest()), count, []), r)
    decreases |reader.Rest()|, count + 1
  {
    hide TakeRaw, TakeString, Put;
    var entries: seq<Entry> := [];
    ghost var body := TakeEntries(reader.Rest(), count, []);
    for i := 0 to count
      invariant reader.Valid() && |reader.Rest()| <= old(|reader.Rest()|)
      invariant body == TakeEntries(reader.Rest(), count - i, entries)
    {
      var key := reader.ReadString();
      if key.Failure? { return Failure; }
      var v := ReadRawValue(reader);
      if v.Failure? { return Failure; }
      entries := Put(entries, key.value, v.value);
    }
    return Success(entries);
  }

  lemma JoinedNothing(r: Result<Parsed<seq<TraceValue>>>)
    ensures Joined([], r) == r
  {
    if r.Success? {
      assert [] + r.value.0 == r.value.0;
    }
  }
}
