/**
 * The bytes a `TraceSession` writes (packages/trace/src/runtime/session.ts) and the proof
 * that the decoder reads each of them back under tables that agree with the writer's
 * dictionaries.
 */
module SessionWire {
  import opened Wrappers
  import opened Bytes
  import opened Float64
  import opened Binary
  import opened TraceTypes
  import opened Container
  import opened Decoder
  import Utf8

  // ---------- inputs ----------

  datatype InputEntry = InputEntry(key: HostString, value: InputValue)

  /** A value handed to a built-in emit. `InUnsupported` is one the writer throws on, such as `undefined`. */
  datatype InputValue =
    | InNull
    | InBool(b: bool)
    | InNum(n: Number)
    | InText(s: HostString)
    | InPlayer(id: HostString, name: Option<HostString>)
    | InArr(items: seq<InputValue>)
    | InObj(entries: seq<InputEntry>)
    | InUnsupported

  datatype InputSource = InputSource(kind: SourceKind, ref: Option<int>, name: Option<HostString>)

  datatype FieldKind = BooleanKind | UIntKind | IntKind | NumberKind | StringKind | PlayerKind

  datatype FieldSpec = FieldSpec(name: HostString, kind: FieldKind, optional: bool)

  /** A value handed to a custom field; `AsOther` is of none of the accepted host types. */
  datatype FieldInput = AsBool(b: bool) | AsNum(n: Number) | AsText(s: HostString) | AsOther

  /** A custom payload; a missing key reads as `undefined`. */
  type Payload = map<seq<unit>, FieldInput>

  // ---------- what the events mean ----------

  /** The value a reader should see: player markers become ids. */
  function Meaning(v: InputValue): TraceValue {
    match v
    case InNull => Null
    case InBool(b) => Bool(b)
    case InNum(n) => Num(n)
    case InText(s) => Text(s)
    case InPlayer(id, _) => Text(id)
    case InArr(items) => Arr(Meanings(items))
    case InObj(es) => Obj(EntryMeanings(es))
    case InUnsupported => Null
  }

  function Meanings(items: seq<InputValue>): seq<TraceValue> {
    if items == [] then [] else [Meaning(items[0])] + Meanings(items[1..])
  }

  function EntryMeanings(es: seq<InputEntry>): seq<Entry> {
    if es == [] then [] else [Entry(es[0].key, Meaning(es[0].value))] + EntryMeanings(es[1..])
  }

  /** What is decoded is what was given, with the player's id in the place of a player marker. */
  predicate Shows(w: TraceValue, v: InputValue)
    decreases v
  {
    match v
    case InNull => w == Null
    case InBool(b) => w == Bool(b)
    case InNum(n) => w == Num(n)
    case InText(s) => w == Text(s)
    case InPlayer(id, _) => w == Text(id)
    case InArr(items) => w.Arr? && |w.items| == |items| && forall i :: 0 <= i < |items| ==> Shows(w.items[i], items[i])
    case InObj(es) =>
      w.Obj? && |w.entries| == |es| && forall i :: 0 <= i < |es| ==> w.entries[i].key == es[i].key && Shows(w.entries[i].value, es[i].value)
    case InUnsupported => true
  }

  lemma {:induction false} MeaningShows(v: InputValue)
    ensures Shows(Meaning(v), v)
    decreases v
  {
    match v {
      case InArr(items) =>
        MeaningsAt(items);
        forall i | 0 <= i < |items| ensures Shows(Meaning(items[i]), items[i]) { MeaningShows(items[i]); }
      case InObj(es) =>
        EntryMeaningsAt(es);
        forall i | 0 <= i < |es| ensures Shows(Meaning(es[i].value), es[i].value) { MeaningShows(es[i].value); }
      case _ =>
    }
  }

  lemma {:induction false} MeaningsAt(items: seq<InputValue>)
    ensures |Meanings(items)| == |items| && forall i :: 0 <= i < |items| ==> Meanings(items)[i] == Meaning(items[i])
  {
    if items != [] {
      MeaningsAt(items[1..]);
    }
  }

  lemma {:induction false} EntryMeaningsAt(es: seq<InputEntry>)
    ensures |EntryMeanings(es)| == |es|
    ensures forall i :: 0 <= i < |es| ==> EntryMeanings(es)[i] == Entry(es[i].key, Meaning(es[i].value))
  {
    if es != [] {
      EntryMeaningsAt(es[1..]);
    }
  }

  /** Objects inside the input do not repeat a key. */
  predicate ProperInput(v: InputValue)
    decreases v
  {
    match v
    case InArr(items) => ProperItems(items)
    case InObj(es) => ProperEntries(es)
    case _ => true
  }

  predicate ProperItems(items: seq<InputValue>)
    decreases items
  {
    forall i :: 0 <= i < |items| ==> ProperInput(items[i])
  }

  predicate ProperEntries(es: seq<InputEntry>)
    decreases es
  {
    && (forall i, j :: 0 <= i < j < |es| ==> es[i].key != es[j].key)
    && (forall i :: 0 <= i < |es| ==> ProperInput(es[i].value))
  }

  /** The writer does not throw on the value. */
  predicate Encodable(v: InputValue) {
    match v
    case InNum(Whole(n)) => n < 0 ==> FitsVarInt(n)
    case InArr(items) => |items| <= MAX_SAFE && forall i :: 0 <= i < |items| ==> Encodable(items[i])
    case InObj(es) => |es| <= MAX_SAFE && forall i :: 0 <= i < |es| ==> Encodable(es[i].value)
    case InUnsupported => false
    case _ => true
  }

  /** The source as a reader sees it: a reference of -1 is written like an absent one. */
  function SourceMeaning(s: InputSource): TraceSource {
    TraceSource(s.kind, if s.ref == Some(-1) then None else s.ref, s.name)
  }

  predicate SourceEncodable(s: InputSource) { s.ref.Some? ==> -1 <= s.ref.value < MAX_SAFE }

  function FieldMeaning(v: FieldInput): TraceValue {
    match v
    case AsBool(b) => Bool(b)
    case AsNum(n) => Num(n)
    case AsText(s) => Text(s)
    case AsOther => Null
  }

  /** The fields of the schema that are present, in schema order. */
  function Project(fields: seq<FieldSpec>, values: Payload): seq<Entry> {
    if fields == [] then []
    else
      var f := fields[0];
      (if f.name in values then [Entry(f.name, FieldMeaning(values[f.name]))] else []) + Project(fields[1..], values)
  }

  /** A field is decoded as it was given; a player is given by id. */
  predicate FieldShows(w: TraceValue, v: FieldInput) {
    match v
    case AsBool(b) => w == Bool(b)
    case AsNum(n) => w == Num(n)
    case AsText(s) => w == Text(s)
    case AsOther => true
  }

  /** One field more, if present, is decoded as given and behind the others; if absent, nothing changes. */
  lemma {:induction false} ProjectShows(fields: seq<FieldSpec>, f: FieldSpec, values: Payload)
    ensures f.name !in values ==> Project(fields + [f], values) == Project(fields, values)
    ensures f.name in values ==>
      var n := |Project(fields, values)|;
      && |Project(fields + [f], values)| == n + 1
      && Project(fields + [f], values)[..n] == Project(fields, values)
      && Project(fields + [f], values)[n].key == f.name
      && FieldShows(Project(fields + [f], values)[n].value, values[f.name])
  {
    if fields == [] {
      assert [f][1..] == [];
    } else {
      assert (fields + [f])[0] == fields[0] && (fields + [f])[1..] == fields[1..] + [f];
      ProjectShows(fields[1..], f, values);
    }
  }

  lemma {:induction false} OnlyGiven(fields: seq<FieldSpec>, values: Payload)
    ensures forall j :: 0 <= j < |Project(fields, values)| ==>
      var e := Project(fields, values)[j]; e.key in values && FieldShows(e.value, values[e.key])
  {
    if fields != [] {
      OnlyGiven(fields[1..], values);
    }
  }

  predicate DistinctNames(fields: seq<FieldSpec>) {
    forall i, j :: 0 <= i < j < |fields| ==> fields[i].name != fields[j].name
  }

  /** The type check made before a field is written. */
  predicate FieldAccepts(kind: FieldKind, v: FieldInput) {
    match kind
    case BooleanKind => v.AsBool?
    case UIntKind => v.AsNum? && v.n.Whole? && v.n.n >= 0
    case IntKind => v.AsNum? && v.n.Whole?
    case NumberKind => v.AsNum? && (v.n.Whole? || IsFinite(v.n.image))
    case StringKind => v.AsText?
    case PlayerKind => v.AsText?
  }

  /** The writer of the field does not throw either. */
  predicate FieldEncodable(kind: FieldKind, v: FieldInput) {
    FieldAccepts(kind, v) && (kind.IntKind? ==> FitsVarInt(v.n.n))
  }

  /** What can be written in a field of each kind, and that other numbers have bounds of their own. */
  lemma FieldTakes(v: FieldInput)
    ensures FieldEncodable(BooleanKind, v) <==> v.AsBool?
    ensures FieldEncodable(UIntKind, v) <==> v.AsNum? && v.n.Whole? && 0 <= v.n.n <= 9007199254740991
    ensures FieldEncodable(IntKind, v) <==> v.AsNum? && v.n.Whole? && -4503599627370496 <= v.n.n <= 4503599627370495
    ensures v.AsNum? && v.n.Other? ==>
      (FieldEncodable(NumberKind, v) <==> v.n.image[7] % 128 != 127 || v.n.image[6] < 240)
    ensures FieldEncodable(NumberKind, v) ==> v.AsNum?
    ensures v.AsNum? && v.n.Whole? ==>
      FieldEncodable(NumberKind, v) && (Encodable(InNum(v.n)) <==> v.n.n >= -4503599627370496)
    ensures FieldEncodable(StringKind, v) <==> v.AsText?
    ensures FieldEncodable(PlayerKind, v) <==> v.AsText?
  {
  }

  predicate FieldChecked(f: FieldSpec, values: Payload) {
    if f.name in values then FieldAccepts(f.kind, values[f.name]) else f.optional
  }

  predicate FieldWritable(f: FieldSpec, values: Payload) {
    if f.name in values then FieldEncodable(f.kind, values[f.name]) else f.optional
  }

  predicate PayloadEncodable(fields: seq<FieldSpec>, values: Payload) {
    forall i :: 0 <= i < |fields| ==> FieldWritable(fields[i], values)
  }

  // ---------- dictionaries ----------

  /** The ids given out so far. */
  datatype Dictionary = Dictionary(strings: map<seq<unit>, nat>, players: map<seq<unit>, nat>)

  /** Every id of the writer means the same thing to the reader. */
  ghost predicate Agree(d: Dictionary, t: Tables) {
    && (forall s :: s in d.strings ==> d.strings[s] < MAX_SAFE && GetString(t, d.strings[s]) == Success(s))
    && (forall p :: p in d.players ==>
          d.players[p] < MAX_SAFE && d.players[p] in t.players && t.players[d.players[p]].id == p)
  }

  /** All strings and players of the value have ids. */
  predicate Known(v: InputValue, d: Dictionary)
    decreases v
  {
    match v
    case InText(s) => s in d.strings
    case InPlayer(id, name) => id in d.players && id in d.strings && (name.Some? ==> name.value in d.strings)
    case InArr(items) => KnownItems(items, d)
    case InObj(es) => KnownEntries(es, d)
    case _ => true
  }

  predicate KnownItems(items: seq<InputValue>, d: Dictionary)
    decreases items
  {
    forall i :: 0 <= i < |items| ==> Known(items[i], d)
  }

  predicate KnownEntries(es: seq<InputEntry>, d: Dictionary)
    decreases es
  {
    forall i :: 0 <= i < |es| ==> es[i].key in d.strings && Known(es[i].value, d)
  }

  /** Ids are never withdrawn. */
  predicate Grows(d: Dictionary, d': Dictionary) {
    d.strings.Keys <= d'.strings.Keys && d.players.Keys <= d'.players.Keys
  }

  lemma {:induction false} KnownGrows(v: InputValue, d: Dictionary, d': Dictionary)
    requires Known(v, d) && Grows(d, d')
    ensures Known(v, d')
    decreases v
  {
    match v {
      case InArr(items) =>
        forall i | 0 <= i < |items| ensures Known(items[i], d') { KnownGrows(items[i], d, d'); }
      case InObj(es) =>
        forall i | 0 <= i < |es| ensures es[i].key in d'.strings && Known(es[i].value, d') {
          assert es[i].key in d.strings.Keys;
          KnownGrows(es[i].value, d, d');
        }
      case InText(s) =>
        assert s in d.strings.Keys;
      case InPlayer(id, name) =>
        assert id in d.players.Keys && id in d.strings.Keys;
        assert name.Some? ==> name.value in d.strings.Keys;
      case _ =>
    }
  }

  // ---------- built-in values ----------

  function ValueBytes(v: InputValue, d: Dictionary): Result<bytes>
    requires Known(v, d)
    decreases v
  {
    match v
    case InNull => Success([0])
    case InBool(b) => Success([if b then 2 else 1])
    case InNum(Whole(n)) =>
      if n >= 0 then Success([3] + VarUint(n))
      else if FitsVarInt(n) then Success([4] + VarUint(ZigZag(n)))
      else Failure
    case InNum(Other(image)) => Success([5] + image)
    case InText(s) => Success([6] + VarUint(d.strings[s]))
    case InPlayer(id, _) => Success([9] + VarUint(d.players[id]))
    case InArr(items) =>
      if |items| > MAX_SAFE then Failure
      else
        var body :- ItemBytes(items, d);
        Success([7] + VarUint(|items|) + body)
    case InObj(es) =>
      if |es| > MAX_SAFE then Failure
      else
        var body :- PropertyBytes(es, d);
        Success([8] + VarUint(|es|) + body)
    case InUnsupported => Failure
  }

  function ItemBytes(items: seq<InputValue>, d: Dictionary): Result<bytes>
    requires KnownItems(items, d)
    decreases items
  {
    if items == [] then Success([])
    else
      var first :- ValueBytes(items[0], d);
      var rest :- ItemBytes(items[1..], d);
      Success(first + rest)
  }

  function PropertyBytes(es: seq<InputEntry>, d: Dictionary): Result<bytes>
    requires KnownEntries(es, d)
    decreases es
  {
    if es == [] then Success([])
    else
      var first :- ValueBytes(es[0].value, d);
      var rest :- PropertyBytes(es[1..], d);
      Success(VarUint(d.strings[es[0].key]) + first + rest)
  }

  /** The writer throws exactly on the values that are not encodable. */
  lemma {:induction false} ValueBytesExist(v: InputValue, d: Dictionary)
    requires Known(v, d)
    ensures ValueBytes(v, d).Success? <==> Encodable(v)
    decreases v
  {
    match v {
      case InArr(items) => ItemBytesExist(items, d);
      case InObj(es) => PropertyBytesExist(es, d);
      case _ =>
    }
  }

  lemma {:induction false} ItemBytesExist(items: seq<InputValue>, d: Dictionary)
    requires KnownItems(items, d)
    ensures ItemBytes(items, d).Success? <==> forall i :: 0 <= i < |items| ==> Encodable(items[i])
    decreases items
  {
    if items != [] {
      ValueBytesExist(items[0], d);
      ItemBytesExist(items[1..], d);
      assert forall i :: 0 < i < |items| ==> items[i] == items[1..][i - 1];
    }
  }

  lemma {:induction false} PropertyBytesExist(es: seq<InputEntry>, d: Dictionary)
    requires KnownEntries(es, d)
    ensures PropertyBytes(es, d).Success? <==> forall i :: 0 <= i < |es| ==> Encodable(es[i].value)
    decreases es
  {
    if es != [] {
      ValueBytesExist(es[0].value, d);
      PropertyBytesExist(es[1..], d);
      assert forall i :: 0 < i < |es| ==> es[i] == es[1..][i - 1];
    }
  }

  lemma StringRefInverts(s: seq<unit>, d: Dictionary, t: Tables, rest: bytes)
    requires Agree(d, t) && s in d.strings
    ensures TakeStringRef(VarUint(d.strings[s]) + rest, t) == Success((s, rest))
  {
    VarUintInverts(d.strings[s], rest);
  }

  lemma PlayerRefInverts(p: seq<unit>, d: Dictionary, t: Tables, rest: bytes)
    requires Agree(d, t) && p in d.players
    ensures TakePlayerId(VarUint(d.players[p]) + rest, t) == Success((p, rest))
  {
    VarUintInverts(d.players[p], rest);
  }

  lemma {:induction false} ScalarInverts(v: InputValue, d: Dictionary, t: Tables, rest: bytes)
    requires !v.InArr? && !v.InObj? && Known(v, d) && Agree(d, t) && ValueBytes(v, d).Success?
    ensures TakeValue(ValueBytes(v, d).value + rest, t) == Success((Meaning(v), rest))
  {
    hide TakeVarUint, TakeVarInt, TakeFloat64, TakeStringRef, TakePlayerId, VarUint, ZigZag, Agree, TakeItems, TakeProperties;
    var tail := (ValueBytes(v, d).value + rest)[1..];
    match v {
      case InNull =>
      case InBool(_) =>
      case InNum(Whole(n)) =>
        if n >= 0 {
          assert tail == VarUint(n) + rest;
          VarUintInverts(n, rest);
        } else {
          assert tail == VarUint(ZigZag(n)) + rest;
          VarIntInverts(n, rest);
        }
      case InNum(Other(image)) =>
        assert tail == NumberBytes(v.n) + rest;
        Float64Inverts(v.n, rest);
      case InText(s) =>
        assert tail == VarUint(d.strings[s]) + rest;
        StringRefInverts(s, d, t, rest);
      case InPlayer(id, _) =>
        assert tail == VarUint(d.players[id]) + rest;
        PlayerRefInverts(id, d, t, rest);
    }
  }

  lemma ArrayReads(n: nat, body: bytes, items: seq<TraceValue>, t: Tables, rest: bytes)
    requires n <= MAX_SAFE && TakeItems(body + rest, t, n) == Success((items, rest))
    ensures TakeValue([7] + VarUint(n) + body + rest, t) == Success((Arr(items), rest))
  {
    hide TakeVarUint, VarUint, TakeItems;
    assert ([7] + VarUint(n) + body + rest)[1..] == VarUint(n) + (body + rest);
    VarUintInverts(n, body + rest);
  }

  lemma ObjectReads(n: nat, body: bytes, es: seq<Entry>, t: Tables, rest: bytes)
    requires n <= MAX_SAFE && TakeProperties(body + rest, t, n, []) == Success((es, rest))
    ensures TakeValue([8] + VarUint(n) + body + rest, t) == Success((Obj(es), rest))
  {
    hide TakeVarUint, VarUint, TakeProperties;
    assert ([8] + VarUint(n) + body + rest)[1..] == VarUint(n) + (body + rest);
    VarUintInverts(n, body + rest);
  }

  /** A built-in payload that could be written is read back as what it means. */
  lemma {:induction false} ValueInverts(v: InputValue, d: Dictionary, t: Tables, rest: bytes)
    requires ProperInput(v) && Known(v, d) && Agree(d, t) && ValueBytes(v, d).Success?
    ensures TakeValue(ValueBytes(v, d).value + rest, t) == Success((Meaning(v), rest))
    decreases v
  {
    hide VarUint, Agree, TakeValue, TakeItems, TakeProperties, ItemBytes, PropertyBytes, ProperItems, ProperEntries, KnownItems, KnownEntries;
    match v {
      case InArr(items) =>
        ItemsInvert(items, d, t, rest);
        ArrayReads(|items|, ItemBytes(items, d).value, Meanings(items), t, rest);
      case InObj(es) =>
        PropertiesInvert(es, [], d, t, rest);
        assert [] + EntryMeanings(es) == EntryMeanings(es);
        ObjectReads(|es|, PropertyBytes(es, d).value, EntryMeanings(es), t, rest);
      case _ => ScalarInverts(v, d, t, rest);
    }
  }

  lemma {:induction false} ItemsInvert(items: seq<InputValue>, d: Dictionary, t: Tables, rest: bytes)
    requires ProperItems(items) && KnownItems(items, d)
    requires Agree(d, t) && ItemBytes(items, d).Success?
    ensures TakeItems(ItemBytes(items, d).value + rest, t, |items|) == Success((Meanings(items), rest))
    decreases items
  {
    hide TakeValue, ValueBytes, Agree, Known, ProperInput, Meaning;
    if items == [] {
      assert ItemBytes(items, d).value + rest == rest;
    } else {
      var first, more := ValueBytes(items[0], d).value, ItemBytes(items[1..], d).value;
      ValueInverts(items[0], d, t, more + rest);
      ItemsInvert(items[1..], d, t, rest);
      assert ItemBytes(items, d).value + rest == first + (more + rest);
    }
  }

  lemma FourParts(a: bytes, b: bytes, c: bytes, rest: bytes)
    ensures a + b + c + rest == a + (b + (c + rest))
  {
  }

  lemma {:induction false} PropertiesInvert(es: seq<InputEntry>, sofar: seq<Entry>, d: Dictionary, t: Tables, rest: bytes)
    requires forall i, j :: 0 <= i < |sofar| && 0 <= j < |es| ==> sofar[i].key != es[j].key
    requires ProperEntries(es) && KnownEntries(es, d)
    requires Agree(d, t) && PropertyBytes(es, d).Success?
    ensures TakeProperties(PropertyBytes(es, d).value + rest, t, |es|, sofar) ==
      Success((sofar + EntryMeanings(es), rest))
    decreases es
  {
    hide TakeValue, ValueBytes, Agree, Known, ProperInput, Meaning, VarUint, TakeStringRef, Put;
    if es == [] {
      assert PropertyBytes(es, d).value + rest == rest && sofar + [] == sofar;
    } else {
      var e := es[0];
      var value, more := ValueBytes(e.value, d).value, PropertyBytes(es[1..], d).value;
      FourParts(VarUint(d.strings[e.key]), value, more, rest);
      StringRefInverts(e.key, d, t, value + (more + rest));
      ValueInverts(e.value, d, t, more + rest);
      var entry := Entry(e.key, Meaning(e.value));
      PutNew(sofar, e.key, entry.value);
      assert TakeProperties(PropertyBytes(es, d).value + rest, t, |es|, sofar) ==
        TakeProperties(more + rest, t, |es[1..]|, sofar + [entry]);
      PropertiesInvert(es[1..], sofar + [entry], d, t, rest);
      Associative(sofar, [entry], EntryMeanings(es[1..]));
    }
  }

  // ---------- sources ----------

  function KindCode(k: SourceKind): byte {
    match k
    case Game => 0
    case State => 1
    case Component => 2
    case Runner => 3
    case Timer => 4
    case Participation => 5
    case Connection => 6
    case System => 7
  }

  function OptionalRef(name: Option<seq<unit>>, d: Dictionary): nat
    requires name.Some? ==> name.value in d.strings
  {
    if name.None? then 0 else d.strings[name.value] + 1
  }

  lemma OptionalRefInverts(name: Option<seq<unit>>, d: Dictionary, t: Tables, rest: bytes)
    requires Agree(d, t) && (name.Some? ==> name.value in d.strings)
    ensures TakeOptionalRef(VarUint(OptionalRef(name, d)) + rest, t) == Success((name, rest))
  {
    VarUintInverts(OptionalRef(name, d), rest);
  }

  function RefCode(ref: Option<int>): int { if ref.None? then 0 else ref.value + 1 }

  function SourceBytes(s: InputSource, d: Dictionary): Result<bytes>
    requires s.name.Some? ==> s.name.value in d.strings
  {
    var ref :- UintField(RefCode(s.ref));
    Success([KindCode(s.kind)] + ref + VarUint(OptionalRef(s.name, d)))
  }

  lemma SourceInverts(s: InputSource, d: Dictionary, t: Tables, rest: bytes)
    requires Agree(d, t) && (s.name.Some? ==> s.name.value in d.strings)
    ensures SourceBytes(s, d).Success? <==> SourceEncodable(s)
    ensures SourceEncodable(s) ==> TakeSource(SourceBytes(s, d).value + rest, t) == Success((SourceMeaning(s), rest))
  {
    hide VarUint, TakeVarUint, TakeOptionalRef, OptionalRef, Agree;
    if SourceEncodable(s) {
      OptionalRefInverts(s.name, d, t, rest);
      var b2 := VarUint(OptionalRef(s.name, d)) + rest;
      VarUintInverts(RefCode(s.ref), b2);
      var b1 := VarUint(RefCode(s.ref)) + b2;
      var b := [KindCode(s.kind)] + b1;
      assert b[1..] == b1 && SourceBytes(s, d).value + rest == b;
    }
  }

  /** The source survives exactly when its reference is not -1. */
  lemma SourceKept(s: InputSource)
    ensures SourceMeaning(s) == TraceSource(s.kind, s.ref, s.name) <==> s.ref != Some(-1)
  {
  }

  // ---------- custom payloads ----------

  function FieldCode(k: FieldKind): byte {
    match k
    case BooleanKind => 0
    case UIntKind => 1
    case IntKind => 2
    case NumberKind => 3
    case StringKind => 4
    case PlayerKind => 5
  }

  function WireFields(fields: seq<FieldSpec>): seq<SchemaField> {
    if fields == [] then []
    else [SchemaField(fields[0].name, FieldCode(fields[0].kind), fields[0].optional)] + WireFields(fields[1..])
  }

  /** The strings and players of a field have ids. */
  predicate FieldKnown(f: FieldSpec, values: Payload, d: Dictionary) {
    f.name in values && values[f.name].AsText? ==>
      && (f.kind.StringKind? ==> values[f.name].s in d.strings)
      && (f.kind.PlayerKind? ==> values[f.name].s in d.players)
  }

  predicate FieldsKnown(fields: seq<FieldSpec>, values: Payload, d: Dictionary) {
    forall i :: 0 <= i < |fields| ==> FieldKnown(fields[i], values, d)
  }

  function FieldBytes(kind: FieldKind, v: FieldInput, d: Dictionary): Result<bytes>
    requires FieldAccepts(kind, v)
    requires v.AsText? ==> (kind.StringKind? ==> v.s in d.strings) && (kind.PlayerKind? ==> v.s in d.players)
  {
    match kind
    case BooleanKind => Success([if v.b then 1 else 0])
    case UIntKind => Success(VarUint(v.n.n))
    case IntKind => if FitsVarInt(v.n.n) then Success(VarUint(ZigZag(v.n.n))) else Failure
    case NumberKind => Success(NumberBytes(v.n))
    case StringKind => Success(VarUint(d.strings[v.s]))
    case PlayerKind => Success(VarUint(d.players[v.s]))
  }

  function FieldsBytes(fields: seq<FieldSpec>, values: Payload, d: Dictionary): Result<bytes>
    requires FieldsKnown(fields, values, d)
    requires forall i :: 0 <= i < |fields| ==> FieldChecked(fields[i], values)
  {
    if fields == [] then Success([])
    else
      var f := fields[0];
      assert FieldChecked(f, values) && FieldKnown(f, values, d);
      var first :- if f.name in values then FieldBytes(f.kind, values[f.name], d) else Success([]);
      var rest :- FieldsBytes(fields[1..], values, d);
      Success(first + rest)
  }

  lemma {:induction false} FieldsBytesExist(fields: seq<FieldSpec>, values: Payload, d: Dictionary)
    requires FieldsKnown(fields, values, d)
    requires forall i :: 0 <= i < |fields| ==> FieldChecked(fields[i], values)
    ensures FieldsBytes(fields, values, d).Success? <==> PayloadEncodable(fields, values)
  {
    if fields != [] {
      FieldsBytesExist(fields[1..], values, d);
      assert forall i :: 0 < i < |fields| ==> fields[i] == fields[1..][i - 1];
      assert FieldWritable(fields[0], values) <==>
        (fields[0].name in values ==> FieldBytes(fields[0].kind, values[fields[0].name], d).Success?);
    }
  }

  /** Presence of the optional fields, in schema order. */
  function Presence(fields: seq<FieldSpec>, values: Payload): seq<bool> {
    if fields == [] then []
    else (if fields[0].optional then [fields[0].name in values] else []) + Presence(fields[1..], values)
  }

  /** The bit set holds these bits, in ceil(n / 8) bytes. */
  predicate HoldsBits(bitset: bytes, bits: seq<bool>) {
    |bitset| == (|bits| + 7) / 8 && forall i :: 0 <= i < |bits| ==> Bit(bitset, i) == bits[i]
  }

  lemma FieldInverts(kind: FieldKind, v: FieldInput, d: Dictionary, t: Tables, rest: bytes)
    requires FieldEncodable(kind, v) && Agree(d, t)
    requires v.AsText? ==> (kind.StringKind? ==> v.s in d.strings) && (kind.PlayerKind? ==> v.s in d.players)
    ensures TakeField(FieldBytes(kind, v, d).value + rest, t, FieldCode(kind)) == Success((FieldMeaning(v), rest))
  {
    hide TakeVarUint, TakeVarInt, TakeFloat64, TakeStringRef, TakePlayerId, VarUint, ZigZag, Agree;
    var b := FieldBytes(kind, v, d).value + rest;
    match kind {
      case BooleanKind => assert b[1..] == rest;
      case UIntKind => VarUintInverts(v.n.n, rest);
      case IntKind => VarIntInverts(v.n.n, rest);
      case NumberKind => Float64Inverts(v.n, rest);
      case StringKind => StringRefInverts(v.s, d, t, rest);
      case PlayerKind => PlayerRefInverts(v.s, d, t, rest);
    }
  }

  /** The bits after that of the first field are those of the other fields. */
  lemma NextPresence(fields: seq<FieldSpec>, values: Payload, bitset: bytes, index: nat)
    requires fields != []
    requires forall i :: 0 <= i < |Presence(fields, values)| ==> Bit(bitset, index + i) == Presence(fields, values)[i]
    ensures fields[0].optional ==> Bit(bitset, index) == (fields[0].name in values)
    ensures var index' := if fields[0].optional then index + 1 else index;
      forall i :: 0 <= i < |Presence(fields[1..], values)| ==> Bit(bitset, index' + i) == Presence(fields[1..], values)[i]
  {
    hide Bit;
    var bits, optional := Presence(fields, values), fields[0].optional;
    assert optional ==> Bit(bitset, index + 0) == bits[0];
    forall i | 0 <= i < |Presence(fields[1..], values)|
      ensures Bit(bitset, (if optional then index + 1 else index) + i) == Presence(fields[1..], values)[i]
    {
      var j := if optional then i + 1 else i;
      assert Bit(bitset, index + j) == bits[j];
    }
  }

  lemma {:induction false} FieldsInvert(
    fields: seq<FieldSpec>, values: Payload, d: Dictionary, t: Tables, bitset: bytes, index: nat, sofar: seq<Entry>, rest: bytes)
    requires DistinctNames(fields) && FieldsKnown(fields, values, d) && PayloadEncodable(fields, values) && Agree(d, t)
    requires forall i, j :: 0 <= i < |sofar| && 0 <= j < |fields| ==> sofar[i].key != fields[j].name
    requires forall i :: 0 <= i < |Presence(fields, values)| ==> Bit(bitset, index + i) == Presence(fields, values)[i]
    requires forall i :: 0 <= i < |fields| ==> FieldChecked(fields[i], values)
    requires FieldsBytes(fields, values, d).Success?
    ensures TakeFields(FieldsBytes(fields, values, d).value + rest, t, WireFields(fields), bitset, index, sofar) ==
      Success((sofar + Project(fields, values), rest))
    decreases fields
  {
    hide TakeField, FieldBytes, Agree, Bit, FieldMeaning, FieldCode, FieldEncodable, FieldAccepts, Put;
    if fields == [] {
      assert FieldsBytes(fields, values, d).value + rest == rest && sofar + [] == sofar;
    } else {
      var f, more := fields[0], FieldsBytes(fields[1..], values, d).value;
      var index' := if f.optional then index + 1 else index;
      NextPresence(fields, values, bitset, index);
      assert WireFields(fields)[1..] == WireFields(fields[1..]);
      assert FieldWritable(f, values) && FieldKnown(f, values, d);
      if f.name in values {
        var entry := Entry(f.name, FieldMeaning(values[f.name]));
        var first := FieldBytes(f.kind, values[f.name], d).value;
        assert FieldsBytes(fields, values, d).value + rest == first + (more + rest);
        FieldInverts(f.kind, values[f.name], d, t, more + rest);
        PutNew(sofar, f.name, entry.value);
        FieldsInvert(fields[1..], values, d, t, bitset, index', sofar + [entry], rest);
        assert sofar + [entry] + Project(fields[1..], values) == sofar + Project(fields, values);
      } else {
        assert FieldsBytes(fields, values, d).value == more by { assert [] + more == more; }
        FieldsInvert(fields[1..], values, d, t, bitset, index', sofar, rest);
        assert Project(fields, values) == Project(fields[1..], values);
      }
    }
  }

  lemma CustomPayloadReads(fields: seq<SchemaField>, bitset: bytes, body: bytes, es: seq<Entry>, t: Tables, rest: bytes)
    requires |bitset| <= MAX_SAFE && TakeFields(body + rest, t, fields, bitset, 0, []) == Success((es, rest))
    ensures TakeCustomPayload(VarUint(|bitset|) + bitset + body + rest, t, fields) == Success((Obj(es), rest))
  {
    hide VarUint, TakeVarUint, TakeFields;
    var b1 := bitset + (body + rest);
    VarUintInverts(|bitset|, b1);
    assert b1[..|bitset|] == bitset && b1[|bitset|..] == body + rest;
    assert VarUint(|bitset|) + bitset + body + rest == VarUint(|bitset|) + b1;
  }

  /** A custom payload is read back as the present fields, absent optional ones staying absent. */
  lemma CustomPayloadInverts(
    fields: seq<FieldSpec>, values: Payload, d: Dictionary, t: Tables, bitset: bytes, rest: bytes)
    requires DistinctNames(fields) && FieldsKnown(fields, values, d) && PayloadEncodable(fields, values) && Agree(d, t)
    requires forall i :: 0 <= i < |fields| ==> FieldChecked(fields[i], values)
    requires |bitset| <= MAX_SAFE && HoldsBits(bitset, Presence(fields, values))
    ensures FieldsBytes(fields, values, d).Success?
    ensures TakeCustomPayload(VarUint(|bitset|) + bitset + FieldsBytes(fields, values, d).value + rest, t, WireFields(fields)) ==
      Success((Obj(Project(fields, values)), rest))
  {
    hide VarUint, TakeFields, TakeCustomPayload, Agree, FieldWritable, FieldChecked, FieldKnown, Bit, FieldsBytes, Project, WireFields, Presence;
    FieldsBytesExist(fields, values, d);
    assert forall i :: 0 <= i < |Presence(fields, values)| ==> Bit(bitset, 0 + i) == Presence(fields, values)[i];
    FieldsInvert(fields, values, d, t, bitset, 0, [], rest);
    assert [] + Project(fields, values) == Project(fields, values);
    CustomPayloadReads(WireFields(fields), bitset, FieldsBytes(fields, values, d).value, Project(fields, values), t, rest);
  }

  // ---------- records ----------

  /** Reading `p` and going on is the same as going on from `s'`. */
  ghost predicate Consumes(p: bytes, s: Progress, s': Progress) {
    forall rest: bytes :: Records(p + rest, s) == Records(rest, s')
  }

  lemma ConsumesNothing(s: Progress)
    ensures Consumes([], s, s)
  {
    forall rest: bytes ensures Records([] + rest, s) == Records(rest, s) {
      assert [] + rest == rest;
    }
  }

  lemma ConsumesTwice(p: bytes, q: bytes, s: Progress, s1: Progress, s2: Progress)
    requires Consumes(p, s, s1) && Consumes(q, s1, s2)
    ensures Consumes(p + q, s, s2)
  {
    forall rest: bytes ensures Records(p + q + rest, s) == Records(rest, s2) {
      assert p + q + rest == p + (q + rest);
      assert Records(p + (q + rest), s) == Records(q + rest, s1);
    }
  }

  lemma ConsumesAll(p: bytes, s: Progress, s': Progress)
    requires Consumes(p, s, s')
    ensures Records(p, s) == Success(s')
  {
    assert p + [] == p;
    assert Records(p + [], s) == Records([], s');
  }

  /** One record, read whatever follows it. */
  ghost predicate IsRecord(r: bytes, s: Progress, s': Progress) {
    r != [] && forall rest: bytes :: TakeRecord(r + rest, s) == Success((s', rest))
  }

  lemma RecordConsumes(r: bytes, s: Progress, s': Progress)
    requires IsRecord(r, s, s')
    ensures Consumes(r, s, s')
  {
    forall rest: bytes ensures Records(r + rest, s) == Records(rest, s') {
      assert TakeRecord(r + rest, s) == Success((s', rest));
    }
  }

  function StringRecord(id: nat, s: seq<unit>): bytes { [1] + VarUint(id) + StringBytes(s) }

  lemma StringRecordReads(id: nat, s: HostString, p: Progress)
    requires id <= MAX_SAFE
    ensures IsRecord(StringRecord(id, s), p, p.(tables := p.tables.(strings := p.tables.strings[id := s])))
  {
    hide VarUint, TakeVarUint, StringBytes, TakeString, TakeEvent;
    Utf8.EncodeBound(s);
    forall rest: bytes
      ensures TakeRecord(StringRecord(id, s) + rest, p) ==
        Success((p.(tables := p.tables.(strings := p.tables.strings[id := s])), rest))
    {
      var b := StringRecord(id, s) + rest;
      assert b[1..] == VarUint(id) + (StringBytes(s) + rest);
      VarUintInverts(id, StringBytes(s) + rest);
      StringInverts(s, rest);
    }
  }

  function PlayerRecord(ref: nat, idRef: nat, nameRef: nat): bytes {
    [2] + VarUint(ref) + VarUint(idRef) + VarUint(nameRef)
  }

  lemma PlayerRecordReads(ref: nat, id: seq<unit>, name: Option<seq<unit>>, d: Dictionary, p: Progress)
    requires ref <= MAX_SAFE && Agree(d, p.tables) && id in d.strings && (name.Some? ==> name.value in d.strings)
    ensures IsRecord(PlayerRecord(ref, d.strings[id], OptionalRef(name, d)), p,
                     p.(tables := p.tables.(players := p.tables.players[ref := PlayerDefinition(id, name)])))
  {
    hide VarUint, TakeVarUint, TakeStringRef, TakeOptionalRef, OptionalRef, Agree, TakeEvent;
    var r := PlayerRecord(ref, d.strings[id], OptionalRef(name, d));
    forall rest: bytes
      ensures TakeRecord(r + rest, p) ==
        Success((p.(tables := p.tables.(players := p.tables.players[ref := PlayerDefinition(id, name)])), rest))
    {
      var b3 := VarUint(OptionalRef(name, d)) + rest;
      var b2 := VarUint(d.strings[id]) + b3;
      assert (r + rest)[1..] == VarUint(ref) + b2;
      VarUintInverts(ref, b2);
      StringRefInverts(id, d, p.tables, b3);
      OptionalRefInverts(name, d, p.tables, rest);
    }
  }

  function StateRecord(ref: nat, nameRef: nat): bytes { [3] + VarUint(ref) + VarUint(nameRef) }

  lemma StateRecordReads(ref: nat, name: seq<unit>, d: Dictionary, p: Progress)
    requires ref <= MAX_SAFE && Agree(d, p.tables) && name in d.strings
    ensures IsRecord(StateRecord(ref, d.strings[name]), p,
                     p.(tables := p.tables.(states := p.tables.states[ref := name])))
  {
    hide VarUint, TakeVarUint, TakeStringRef, Agree, TakeEvent;
    var r := StateRecord(ref, d.strings[name]);
    forall rest: bytes
      ensures TakeRecord(r + rest, p) == Success((p.(tables := p.tables.(states := p.tables.states[ref := name])), rest))
    {
      assert (r + rest)[1..] == VarUint(ref) + (VarUint(d.strings[name]) + rest);
      VarUintInverts(ref, VarUint(d.strings[name]) + rest);
      StringRefInverts(name, d, p.tables, rest);
    }
  }

  function ComponentRecord(ref: nat, stateRef: nat, nameRef: nat, tagRef: nat): bytes {
    [4] + VarUint(ref) + VarUint(stateRef) + VarUint(nameRef) + VarUint(tagRef)
  }

  lemma ComponentRecordReads(ref: nat, stateRef: nat, name: seq<unit>, tag: Option<seq<unit>>, d: Dictionary, p: Progress)
    requires ref <= MAX_SAFE && stateRef <= MAX_SAFE && Agree(d, p.tables)
    requires name in d.strings && (tag.Some? ==> tag.value in d.strings)
    ensures IsRecord(ComponentRecord(ref, stateRef, d.strings[name], OptionalRef(tag, d)), p,
                     p.(tables := p.tables.(components := p.tables.components[ref := ComponentDefinition(stateRef, name, tag)])))
  {
    hide VarUint, TakeVarUint, TakeStringRef, TakeOptionalRef, OptionalRef, Agree, TakeEvent;
    var r := ComponentRecord(ref, stateRef, d.strings[name], OptionalRef(tag, d));
    forall rest: bytes
      ensures TakeRecord(r + rest, p) ==
        Success((p.(tables := p.tables.(components := p.tables.components[ref := ComponentDefinition(stateRef, name, tag)])), rest))
    {
      var b4 := VarUint(OptionalRef(tag, d)) + rest;
      var b3 := VarUint(d.strings[name]) + b4;
      var b2 := VarUint(stateRef) + b3;
      assert (r + rest)[1..] == VarUint(ref) + b2;
      VarUintInverts(ref, b2);
      VarUintInverts(stateRef, b3);
      StringRefInverts(name, d, p.tables, b4);
      OptionalRefInverts(tag, d, p.tables, rest);
    }
  }

  function FieldDefinitions(fields: seq<FieldSpec>, d: Dictionary): bytes
    requires forall i :: 0 <= i < |fields| ==> fields[i].name in d.strings
  {
    if fields == [] then []
    else
      var f := fields[0];
      VarUint(d.strings[f.name]) + [FieldCode(f.kind), if f.optional then 1 else 0] + FieldDefinitions(fields[1..], d)
  }

  lemma {:induction false} FieldDefinitionsInvert(fields: seq<FieldSpec>, d: Dictionary, t: Tables, rest: bytes)
    requires Agree(d, t) && forall i :: 0 <= i < |fields| ==> fields[i].name in d.strings
    ensures TakeFieldDefinitions(FieldDefinitions(fields, d) + rest, t, |fields|) == Success((WireFields(fields), rest))
  {
    hide VarUint, TakeStringRef, Agree;
    if fields == [] {
      assert FieldDefinitions(fields, d) + rest == rest;
    } else {
      var f := fields[0];
      var b3 := FieldDefinitions(fields[1..], d) + rest;
      var b2 := [if f.optional then 1 else 0] + b3;
      var b1 := [FieldCode(f.kind)] + b2;
      assert b1[1..] == b2 && b2[1..] == b3;
      assert FieldDefinitions(fields, d) + rest == VarUint(d.strings[f.name]) + b1;
      StringRefInverts(f.name, d, t, b1);
      FieldDefinitionsInvert(fields[1..], d, t, rest);
    }
  }

  function SchemaRecord(typeId: nat, name: seq<unit>, fields: seq<FieldSpec>, d: Dictionary): bytes
    requires name in d.strings && forall i :: 0 <= i < |fields| ==> fields[i].name in d.strings
  {
    [5] + VarUint(typeId) + VarUint(d.strings[name]) + VarUint(|fields|) + FieldDefinitions(fields, d)
  }

  lemma {:induction false} SchemaRecordReads(typeId: nat, name: seq<unit>, fields: seq<FieldSpec>, d: Dictionary, p: Progress)
    requires typeId <= MAX_SAFE && |fields| <= MAX_SAFE && Agree(d, p.tables)
    requires name in d.strings && forall i :: 0 <= i < |fields| ==> fields[i].name in d.strings
    ensures IsRecord(SchemaRecord(typeId, name, fields, d), p,
                     p.(tables := p.tables.(schemas := p.tables.schemas[typeId := SchemaDefinition(name, WireFields(fields))])))
  {
    hide VarUint, TakeVarUint, TakeStringRef, FieldDefinitions, TakeFieldDefinitions, Agree, TakeEvent;
    var r := SchemaRecord(typeId, name, fields, d);
    forall rest: bytes
      ensures TakeRecord(r + rest, p) ==
        Success((p.(tables := p.tables.(schemas := p.tables.schemas[typeId := SchemaDefinition(name, WireFields(fields))])), rest))
    {
      var b4 := FieldDefinitions(fields, d) + rest;
      var b3 := VarUint(|fields|) + b4;
      var b2 := VarUint(d.strings[name]) + b3;
      assert (r + rest)[1..] == VarUint(typeId) + b2;
      VarUintInverts(typeId, b2);
      StringRefInverts(name, d, p.tables, b3);
      VarUintInverts(|fields|, b4);
      FieldDefinitionsInvert(fields, d, p.tables, rest);
    }
  }

  /** What precedes the payload of an event; a failure is an exception. */
  function EventHead(delta: int, typeId: nat, source: InputSource, d: Dictionary): Result<bytes>
    requires source.name.Some? ==> source.name.value in d.strings
  {
    var tick :- UintField(delta);
    var id :- UintField(typeId);
    var from :- SourceBytes(source, d);
    Success(tick + id + from)
  }

  /** The payload bytes are read as `payload` whatever follows them. */
  ghost predicate IsPayload(body: bytes, t: Tables, typeId: nat, payload: TraceValue) {
    forall rest: bytes :: TakePayload(body + rest, t, typeId) == Success((payload, rest))
  }

  function EventRecord(head: bytes, body: bytes): bytes { [16] + head + body }

  lemma EventRecordReads(delta: nat, typeId: nat, source: InputSource, d: Dictionary, body: bytes, payload: TraceValue, p: Progress)
    requires Agree(d, p.tables) && (source.name.Some? ==> source.name.value in d.strings)
    requires EventHead(delta, typeId, source, d).Success? && IsPayload(body, p.tables, typeId, payload)
    ensures var name := if typeId in p.tables.schemas then Some(p.tables.schemas[typeId].name) else None;
      IsRecord(EventRecord(EventHead(delta, typeId, source, d).value, body), p,
               p.(raws := p.raws + [RawEvent(delta, typeId, name, SourceMeaning(source), payload)]))
  {
    hide VarUint, TakeVarUint, TakeSource, SourceBytes, TakePayload, Agree, TakeDefinition;
    var name := if typeId in p.tables.schemas then Some(p.tables.schemas[typeId].name) else None;
    var raw := RawEvent(delta, typeId, name, SourceMeaning(source), payload);
    var r := EventRecord(EventHead(delta, typeId, source, d).value, body);
    forall rest: bytes ensures TakeRecord(r + rest, p) == Success((p.(raws := p.raws + [raw]), rest)) {
      SourceInverts(source, d, p.tables, body + rest);
      var b2 := SourceBytes(source, d).value + (body + rest);
      var b1 := VarUint(typeId) + b2;
      assert (r + rest)[1..] == VarUint(delta) + b1;
      VarUintInverts(delta, b1);
      VarUintInverts(typeId, b2);
    }
  }

  // ---------- chunks ----------

  function ChunkHeadBytes(h: ChunkHead): bytes {
    CHUNK_MAGIC + [FORMAT_VERSION] + VarUint(h.index) + VarUint(h.firstSequence) + VarUint(h.baseTick) + VarUint(h.eventCount)
  }

  lemma ChunkHeadInverts(h: ChunkHead, rest: bytes)
    requires h.index <= MAX_SAFE && h.firstSequence <= MAX_SAFE && h.baseTick <= MAX_SAFE && h.eventCount <= MAX_SAFE
    ensures TakeChunkHead(ChunkHeadBytes(h) + rest) == Success((h, rest))
  {
    hide VarUint, TakeVarUint;
    var b5 := VarUint(h.eventCount) + rest;
    var b4 := VarUint(h.baseTick) + b5;
    var b3 := VarUint(h.firstSequence) + b4;
    var b2 := VarUint(h.index) + b3;
    var b1 := [FORMAT_VERSION] + b2;
    var b := CHUNK_MAGIC + b1;
    VarUintInverts(h.eventCount, rest);
    VarUintInverts(h.baseTick, b5);
    VarUintInverts(h.firstSequence, b4);
    VarUintInverts(h.index, b3);
    assert b1[1..] == b2 && b[..4] == CHUNK_MAGIC && b[4..] == b1;
    assert ChunkHeadBytes(h) + rest == b;
  }

  /** A sealed chunk decodes to the events recorded in it. */
  lemma ChunkInverts(h: ChunkHead, payload: bytes, t: Tables, t': Tables, raws: seq<RawEvent>)
    requires h.index <= MAX_SAFE && h.firstSequence <= MAX_SAFE && h.baseTick <= MAX_SAFE && h.eventCount <= MAX_SAFE
    requires Consumes(payload, Progress(t, []), Progress(t', raws)) && |raws| == h.eventCount
    ensures DecodedChunk(ChunkHeadBytes(h) + payload, t) == Success((t', Assemble(h.firstSequence, h.baseTick, raws)))
  {
    hide ChunkHeadBytes, TakeChunkHead, Consumes;
    ChunkHeadInverts(h, payload);
    ConsumesAll(payload, Progress(t, []), Progress(t', raws));
  }
}
