/**
 * Literal bytes of the trace format (packages/trace/src/wire/binary.ts, container.ts and
 * decoder.ts, packages/trace/src/runtime/session.ts): every tag, code and magic number once.
 */
module WireVectors {
  import opened Wrappers
  import opened Bytes
  import opened Float64
  import opened Binary
  import opened TraceTypes
  import opened RawValues
  import opened Container
  import opened Decoder
  import opened SessionWire
  import Utf8

  // ---------- numbers and texts ----------

  const HI: HostString := [104, 105]

  predicate Is(r: Result<bytes>, b: bytes) { r.Success? && r.value == b }

  lemma SmallNumbers()
    ensures VarUint(0) == [0] && VarUint(5) == [5] && VarUint(127) == [127]
    ensures VarUint(128) == [0x80, 1] && VarUint(300) == [0xAC, 2]
  {
    assert VarUint(300) == [0xAC] + VarUint(2) && VarUint(128) == [0x80] + VarUint(1);
  }

  lemma HiBytes()
    ensures Utf8.Encode(HI) == [104, 105] && StringBytes(HI) == [2, 104, 105]
  {
    assert HI[1..] == [105] && [105][1..] == [];
    assert Utf8.Encode([105]) == [105] + Utf8.Encode([]);
  }

  // ---------- values ----------

  lemma RawVectors(image: FloatBits)
    ensures Is(RawValue(Null), [0]) && Is(RawValue(Bool(false)), [1]) && Is(RawValue(Bool(true)), [2])
    ensures Is(RawValue(Num(Whole(300))), [3, 0xAC, 2]) && Is(RawValue(Num(Whole(-3))), [4, 5])
    ensures Is(RawValue(Num(Other(image))), [5] + image)
    ensures Is(RawValue(Text(HI)), [6, 2, 104, 105])
    ensures Is(RawValue(Arr([Null, Bool(true)])), [7, 2, 0, 2])
    ensures Is(RawValue(Obj([Entry(HI, Null)])), [8, 1, 2, 104, 105, 0])
  {
    hide VarUint, StringBytes, Utf8.Encode;
    SmallNumbers();
    FewNumbers();
    HiBytes();
    RawList();
    RawObject();
  }

  lemma FewNumbers()
    ensures VarUint(1) == [1] && VarUint(2) == [2] && VarUint(3) == [3] && VarUint(7) == [7]
  {
  }

  lemma RawList()
    ensures Is(RawItems([Null, Bool(true)]), [0, 2])
  {
    var items := [Null, Bool(true)];
    assert items[1..] == [Bool(true)] && [Bool(true)][1..] == [];
    assert Is(RawItems([Bool(true)]), [2]);
  }

  lemma RawObject()
    ensures Is(RawEntries([Entry(HI, Null)]), [2, 104, 105, 0])
  {
    hide StringBytes, Utf8.Encode;
    HiBytes();
    assert [Entry(HI, Null)][1..] == [];
  }

  /** A dictionary with the text as number 2 and a player as number 7. */
  const KNOWN := Dictionary(map[HI := 2], map[HI := 7])

  lemma ValueVectors(image: FloatBits)
    ensures Is(ValueBytes(InNull, KNOWN), [0])
    ensures Is(ValueBytes(InBool(false), KNOWN), [1]) && Is(ValueBytes(InBool(true), KNOWN), [2])
    ensures Is(ValueBytes(InNum(Whole(300)), KNOWN), [3, 0xAC, 2]) && Is(ValueBytes(InNum(Whole(-3)), KNOWN), [4, 5])
    ensures Is(ValueBytes(InNum(Other(image)), KNOWN), [5] + image)
    ensures Known(InText(HI), KNOWN) && Is(ValueBytes(InText(HI), KNOWN), [6, 2])
    ensures Known(InPlayer(HI, None), KNOWN) && Is(ValueBytes(InPlayer(HI, None), KNOWN), [9, 7])
    ensures Known(InArr([InNull]), KNOWN) && Is(ValueBytes(InArr([InNull]), KNOWN), [7, 1, 0])
    ensures Known(InObj([InputEntry(HI, InNull)]), KNOWN) && Is(ValueBytes(InObj([InputEntry(HI, InNull)]), KNOWN), [8, 1, 2, 0])
  {
    hide VarUint;
    SmallNumbers();
    FewNumbers();
    assert [InNull][1..] == [] && [InputEntry(HI, InNull)][1..] == [];
    assert Is(ItemBytes([InNull], KNOWN), [0]);
    assert Is(PropertyBytes([InputEntry(HI, InNull)], KNOWN), [2, 0]);
  }

  lemma FieldVectors()
    ensures Is(FieldBytes(BooleanKind, AsBool(true), KNOWN), [1]) && Is(FieldBytes(BooleanKind, AsBool(false), KNOWN), [0])
    ensures Is(FieldBytes(UIntKind, AsNum(Whole(300)), KNOWN), [0xAC, 2])
    ensures Is(FieldBytes(IntKind, AsNum(Whole(-3)), KNOWN), [5])
    ensures Is(FieldBytes(StringKind, AsText(HI), KNOWN), [2]) && Is(FieldBytes(PlayerKind, AsText(HI), KNOWN), [7])
    ensures FieldCode(BooleanKind) == 0 && FieldCode(UIntKind) == 1 && FieldCode(IntKind) == 2
    ensures FieldCode(NumberKind) == 3 && FieldCode(StringKind) == 4 && FieldCode(PlayerKind) == 5
  {
    hide VarUint;
    SmallNumbers();
    FewNumbers();
  }

  // ---------- records ----------

  lemma RecordVectors()
    ensures StringRecord(5, HI) == [1, 5, 2, 104, 105]
    ensures PlayerRecord(1, 2, 3) == [2, 1, 2, 3]
    ensures StateRecord(1, 2) == [3, 1, 2]
    ensures ComponentRecord(1, 2, 3, 0) == [4, 1, 2, 3, 0]
    ensures SchemaRecord(128, HI, [FieldSpec(HI, IntKind, true)], KNOWN) == [5, 0x80, 1, 2, 1, 2, 2, 1]
  {
    hide VarUint, StringBytes, Utf8.Encode;
    SmallNumbers();
    FewNumbers();
    HiBytes();
    assert [FieldSpec(HI, IntKind, true)][1..] == [];
    assert FieldDefinitions([FieldSpec(HI, IntKind, true)], KNOWN) == [2, 2, 1];
  }

  const THREE: seq<SchemaField> := [SchemaField(HI, 0, true), SchemaField([104], 1, false), SchemaField([105], 0, true)]

  /** The first optional field is absent, the second is present, and a required one lies between them. */
  lemma PayloadVector(t: Tables)
    ensures var r := TakeCustomPayload([1, 2, 0xAC, 2, 1], t, THREE);
      r.Success? && r.value == (Obj([Entry([104], Num(Whole(300))), Entry([105], Bool(true))]), [])
  {
    hide VarUint, TakeVarUint, BitOf, TakeFields;
    FewNumbers();
    VarUintInverts(1, [2, 0xAC, 2, 1]);
    assert [1, 2, 0xAC, 2, 1] == VarUint(1) + [2, 0xAC, 2, 1];
    assert [2, 0xAC, 2, 1][..1] == [2] && [2, 0xAC, 2, 1][1..] == [0xAC, 2, 1];
    FieldsVector(t);
  }

  lemma FieldsVector(t: Tables)
    ensures var r := TakeFields([0xAC, 2, 1], t, THREE, [2], 0, []);
      r.Success? && r.value == ([Entry([104], Num(Whole(300))), Entry([105], Bool(true))], [])
  {
    hide VarUint, TakeVarUint, BitOf;
    SmallNumbers();
    TwoHasBit();
    var b: bytes := [0xAC, 2, 1];
    assert b == VarUint(300) + [1];
    VarUintInverts(300, [1]);
    assert THREE[1..] == [SchemaField([104], 1, false), SchemaField([105], 0, true)];
    assert THREE[1..][1..] == [SchemaField([105], 0, true)];
    var first := [Entry([104], Num(Whole(300)))];
    LastField(t, first);
    assert first + [Entry([105], Bool(true))] == [Entry([104], Num(Whole(300))), Entry([105], Bool(true))];
    assert !Bit([2], 0);
    assert TakeFields(b, t, THREE, [2], 0, []) == TakeFields(b, t, THREE[1..], [2], 1, []);
    assert TakeFields(b, t, THREE[1..], [2], 1, []) == TakeFields([1], t, THREE[1..][1..], [2], 1, first);
  }

  lemma TwoHasBit()
    ensures !BitOf(2, 0) && BitOf(2, 1)
  {
  }

  lemma LastField(t: Tables, sofar: seq<Entry>)
    requires sofar == [Entry([104], Num(Whole(300)))]
    ensures var r := TakeFields([1], t, [SchemaField([105], 0, true)], [2], 1, sofar);
      r.Success? && r.value == (sofar + [Entry([105], Bool(true))], [])
  {
    TwoHasBit();
    var fields := [SchemaField([105], 0, true)];
    assert fields[1..] == [] && [1 as byte][1..] == [];
    assert Bit([2], 1);
    assert sofar[0].key[0] != [105][0];
    assert Put(sofar, [105], Bool(true)) == sofar + [Entry([105], Bool(true))];
    assert TakeFields([1], t, fields, [2], 1, sofar) == TakeFields([], t, [], [2], 2, sofar + [Entry([105], Bool(true))]);
  }

  lemma EventVectors()
    ensures Is(SourceBytes(InputSource(Game, None, None), KNOWN), [0, 0, 0])
    ensures Is(SourceBytes(InputSource(State, Some(0), Some(HI)), KNOWN), [1, 1, 3])
    ensures KindCode(Component) == 2 && KindCode(Runner) == 3 && KindCode(Timer) == 4
    ensures KindCode(Participation) == 5 && KindCode(Connection) == 6 && KindCode(System) == 7
    ensures Is(EventHead(5, 300, InputSource(Game, None, None), KNOWN), [5, 0xAC, 2, 0, 0, 0])
    ensures EventRecord([5, 0xAC, 2, 0, 0, 0], [0]) == [16, 5, 0xAC, 2, 0, 0, 0, 0]
  {
    hide VarUint;
    SmallNumbers();
    FewNumbers();
  }

  lemma ChunkVector()
    ensures ChunkHeadBytes(ChunkHead(0, 1, 300, 5)) == [66, 71, 84, 67, 1, 0, 1, 0xAC, 2, 5]
  {
    hide VarUint;
    SmallNumbers();
    FewNumbers();
  }

  // ---------- the container ----------

  lemma HeaderVectors()
    ensures Is(HeaderBytes(SessionHeader(HI, HI, HI, HI, None, None, 300, 5, None)), [66, 69, 71, 84, 1, 2, 104, 105, 2, 104, 105, 2, 104, 105, 2, 104, 105, 0, 0xAC, 2, 5])
    ensures Flags(SessionHeader(HI, HI, HI, HI, Some(HI), None, 0, 0, None)) == 1
    ensures Flags(SessionHeader(HI, HI, HI, HI, None, Some(HI), 0, 0, None)) == 2
    ensures Flags(SessionHeader(HI, HI, HI, HI, None, None, 0, 0, Some(Null))) == 4
    ensures Is(DetailBytes(SessionHeader(HI, HI, HI, HI, Some(HI), None, 1, 3, Some(Null))), [2, 104, 105, 1, 3, 0])
    ensures Is(DetailBytes(SessionHeader(HI, HI, HI, HI, None, Some(HI), 1, 3, None)), [2, 104, 105, 1, 3])
  {
    hide VarUint, StringBytes, Utf8.Encode;
    SmallNumbers();
    FewNumbers();
    HiBytes();
    RawNull();
  }

  lemma RawNull()
    ensures Is(RawValue(Null), [0])
  {
  }

  lemma EndVectors()
    ensures Is(EndBytes(SessionEnd(HI, Completed, 300, 5, None, 7, 1)), [0, 0xAC, 2, 5, 0, 7, 1])
    ensures Is(EndBytes(SessionEnd(HI, Reloaded, 1, 5, Some(HI), 7, 1)), [4, 1, 5, 1, 2, 104, 105, 7, 1])
    ensures StatusCode(Aborted) == 1 && StatusCode(Crashed) == 2 && StatusCode(Interrupted) == 3
    ensures Is(ChunkBytes([1, 2, 3]), [3, 1, 2, 3])
  {
    hide VarUint, StringBytes, Utf8.Encode;
    SmallNumbers();
    FewNumbers();
    HiBytes();
  }
}
