/**
 * Whole runs of a `TraceSession` (packages/trace/src/runtime/session.ts), from the first call
 * to the sealed file and back through `decodeBegTrace`.
 */
module SessionRuns {
  import opened Wrappers
  import opened Bytes
  import opened TraceTypes
  import opened Container
  import opened Decoder
  import opened SessionWire
  import opened SchemaSignatures
  import opened Session

  /** What a game may ask of a running session. Ticks come from the game's clock. */
  datatype Call =
    | CallBuiltin(tick: int, typeId: nat, value: InputValue, source: InputSource)
    | CallCustom(tick: int, schema: EventSchema, values: Payload, source: InputSource)
    | CallPlayer(id: HostString, playerName: Option<HostString>)
    | CallState(state: nat, name: HostString)
    | CallComponent(component: nat, state: nat, name: HostString, tag: Option<HostString>)
    | CallFlush
  {
    predicate Emits() { CallBuiltin? || CallCustom? }

    predicate Proper() { CallBuiltin? ==> typeId < 128 && ProperInput(value) }
  }

  /** How far a call can take the counters of a session. */
  function Cost(call: Call): nat {
    match call
    case CallBuiltin(_, _, value, _) => ValueCost(value) + 2
    case CallCustom(_, schema, values, _) => |schema.fields| + 3 * |values| + 4
    case CallPlayer(_, _) => 3
    case CallState(_, _) => 2
    case CallComponent(_, _, _, _) => 3
    case CallFlush => 0
  }

  function TotalCost(calls: seq<Call>): nat {
    if calls == [] then 0 else TotalCost(Init(calls)) + Cost(Last(calls))
  }

  /** Calls of so many texts, players and events that no counter can leave the safe integers. */
  predicate Affordable(calls: seq<Call>) { 128 + TotalCost(calls) <= MAX_SAFE }

  datatype Registry = Registry(known: map<seq<unit>, CustomSchema>, next: nat)

  function Last<T>(s: seq<T>): T
    requires s != []
  {
    s[|s| - 1]
  }

  function Init<T>(s: seq<T>): seq<T>
    requires s != []
  {
    s[..|s| - 1]
  }

  /** The schemas registered by the calls. A schema stays registered when its event fails. */
  function RegistryAfter(calls: seq<Call>): Registry {
    if calls == [] then Registry(map[], 128)
    else if Last(calls).CallCustom? then Enter(RegistryAfter(Init(calls)), Last(calls).schema).0
    else RegistryAfter(Init(calls))
  }

  function Enter(r: Registry, schema: EventSchema): (Registry, Result<CustomSchema>) {
    var (known, next, result) := Registered(r.known, r.next, schema);
    (Registry(known, next), result)
  }

  /** Whether nothing but the tick could make the call throw. */
  predicate Emittable(call: Call, r: Registry) {
    match call
    case CallBuiltin(_, _, value, source) => SourceEncodable(source) && Encodable(value)
    case CallCustom(_, schema, values, source) =>
      var result := Enter(r, schema).1;
      SourceEncodable(source) && result.Success? && PayloadEncodable(result.value.fields, values)
    case _ => false
  }

  /** The event a call stands for: its own tick, type, source and payload. */
  function Event(call: Call, r: Registry, sequence: nat): (e: TraceEvent)
    requires call.Emits() && (call.CallCustom? ==> Enter(r, call.schema).1.Success?)
    ensures e.sequence == sequence && e.tick == CurrentTick(call.tick) && e.source == SourceMeaning(call.source)
  {
    match call
    case CallBuiltin(tick, typeId, value, source) =>
      TraceEvent(sequence, CurrentTick(tick), typeId, None, SourceMeaning(source), Meaning(value))
    case CallCustom(tick, schema, values, source) =>
      var used := Enter(r, schema).1.value;
      TraceEvent(sequence, CurrentTick(tick), used.typeId, Some(schema.name), SourceMeaning(source), Obj(Project(used.fields, values)))
  }

  predicate Answers(calls: seq<Call>, accepted: seq<bool>) {
    && |accepted| == |calls|
    && forall i :: 0 <= i < |calls| && accepted[i] ==>
         calls[i].Emits() && (calls[i].CallCustom? ==> Enter(RegistryAfter(calls[..i]), calls[i].schema).1.Success?)
  }

  /** The events of the accepted calls, in order. */
  function History(calls: seq<Call>, accepted: seq<bool>): (r: seq<TraceEvent>)
    requires Answers(calls, accepted)
    ensures |r| <= |calls|
  {
    if calls == [] then []
    else
      PrefixAnswers(calls, accepted);
      var before := History(Init(calls), Init(accepted));
      if Last(accepted) then before + [Event(Last(calls), RegistryAfter(Init(calls)), |before| + 1)] else before
  }

  lemma PrefixAnswers(calls: seq<Call>, accepted: seq<bool>)
    requires Answers(calls, accepted) && calls != []
    ensures Answers(Init(calls), Init(accepted))
    ensures Last(accepted) ==>
      Last(calls).Emits() && (Last(calls).CallCustom? ==> Enter(RegistryAfter(Init(calls)), Last(calls).schema).1.Success?)
  {
    forall i | 0 <= i < |Init(calls)| && Init(accepted)[i]
      ensures calls[i].Emits() && (calls[i].CallCustom? ==> Enter(RegistryAfter(Init(calls)[..i]), calls[i].schema).1.Success?)
    {
      assert Init(calls)[..i] == calls[..i];
      assert accepted[i];
    }
    if Last(accepted) {
      assert accepted[|calls| - 1] && calls[..|calls| - 1] == Init(calls);
    }
  }

  /** Sequences count from 1 without a gap. */
  lemma {:induction false} Sequences(calls: seq<Call>, accepted: seq<bool>)
    requires Answers(calls, accepted)
    ensures forall i :: 0 <= i < |History(calls, accepted)| ==> History(calls, accepted)[i].sequence == i + 1
  {
    if calls != [] {
      PrefixAnswers(calls, accepted);
      Sequences(Init(calls), Init(accepted));
    }
  }

  /** How many calls were accepted. */
  function Count(accepted: seq<bool>): nat {
    if accepted == [] then 0 else Count(Init(accepted)) + if Last(accepted) then 1 else 0
  }

  /** The event tells of the call: the clock's value or, where that is no tick, zero; its type, source and data. */
  predicate TellsOf(e: TraceEvent, call: Call) {
    match call
    case CallBuiltin(tick, typeId, value, source) =>
      && e.tick == (if 0 <= tick <= 9007199254740991 then tick else 0)
      && e.typeId == typeId && e.schemaName == None
      && (source.ref != Some(-1) ==> e.source == TraceSource(source.kind, source.ref, source.name))
      && Shows(e.payload, value)
    case CallCustom(tick, schema, values, source) =>
      && e.tick == (if 0 <= tick <= 9007199254740991 then tick else 0)
      && e.typeId >= 128 && e.schemaName == Some(schema.name)
      && (source.ref != Some(-1) ==> e.source == TraceSource(source.kind, source.ref, source.name))
      && e.payload.Obj?
      && forall j :: 0 <= j < |e.payload.entries| ==>
           e.payload.entries[j].key in values && FieldShows(e.payload.entries[j].value, values[e.payload.entries[j].key])
    case _ => false
  }

  /** The `i`-th call, which was accepted, is told behind those accepted before it. */
  predicate Recounts(calls: seq<Call>, accepted: seq<bool>, events: seq<TraceEvent>, i: nat)
    requires i < |calls| == |accepted|
  {
    var k := Count(accepted[..i]);
    k < |events| && events[k].sequence == k + 1 && TellsOf(events[k], calls[i])
  }

  lemma EventTellsOf(call: Call, r: Registry, sequence: nat)
    requires r.next >= 128 && forall n :: n in r.known ==> r.known[n].typeId >= 128
    requires call.Emits() && (call.CallCustom? ==> Enter(r, call.schema).1.Success?)
    ensures TellsOf(Event(call, r, sequence), call)
  {
    hide Signature, Project, FieldShows, Shows, Meaning;
    match call {
      case CallBuiltin(_, _, value, source) =>
        SourceKept(source);
        MeaningShows(value);
      case CallCustom(_, schema, values, source) =>
        SourceKept(source);
        OnlyGiven(Enter(r, schema).1.value.fields, values);
    }
  }

  lemma {:induction false} IdsAreCustom(calls: seq<Call>)
    ensures var r := RegistryAfter(calls);
      r.next >= 128 && forall n :: n in r.known ==> r.known[n].typeId >= 128
  {
    if calls != [] {
      IdsAreCustom(Init(calls));
    }
  }

  /** Every accepted call has its event, in its place, and there are no others. */
  lemma {:induction false} HistoryRecounts(calls: seq<Call>, accepted: seq<bool>)
    requires Answers(calls, accepted)
    ensures |History(calls, accepted)| == Count(accepted)
    ensures forall i :: 0 <= i < |calls| && accepted[i] ==> Recounts(calls, accepted, History(calls, accepted), i)
  {
    hide Enter, TellsOf, RegistryAfter;
    if calls != [] {
      var last := |calls| - 1;
      PrefixAnswers(calls, accepted);
      HistoryRecounts(Init(calls), Init(accepted));
      IdsAreCustom(Init(calls));
      forall i | 0 <= i < |calls| && accepted[i] ensures Recounts(calls, accepted, History(calls, accepted), i) {
        assert accepted[..i] == Init(accepted)[..i];
        if i < last {
          assert Recounts(Init(calls), Init(accepted), History(Init(calls), Init(accepted)), i);
        } else {
          EventTellsOf(calls[i], RegistryAfter(Init(calls)), Count(Init(accepted)) + 1);
          assert accepted[..i] == Init(accepted) && Last(calls) == calls[i] && Last(accepted);
        }
      }
    }
  }

  /** Which calls are accepted when time does not run backwards: chunk limits have no say in it. */
  function Verdicts(calls: seq<Call>): (r: seq<bool>)
    ensures Answers(calls, r)
  {
    if calls == [] then []
    else
      var r := Verdicts(Init(calls)) + [Emittable(Last(calls), RegistryAfter(Init(calls)))];
      ExtendAnswers(calls, r);
      r
  }

  lemma ExtendAnswers(calls: seq<Call>, accepted: seq<bool>)
    requires calls != [] && |accepted| == |calls| && Answers(Init(calls), Init(accepted))
    requires Last(accepted) ==>
      Last(calls).Emits() && (Last(calls).CallCustom? ==> Enter(RegistryAfter(Init(calls)), Last(calls).schema).1.Success?)
    ensures Answers(calls, accepted)
  {
    forall i | 0 <= i < |calls| && accepted[i]
      ensures calls[i].Emits() && (calls[i].CallCustom? ==> Enter(RegistryAfter(calls[..i]), calls[i].schema).1.Success?)
    {
      if i < |Init(calls)| {
        assert Init(calls)[..i] == calls[..i] && Init(accepted)[i];
      } else {
        assert calls[..i] == Init(calls);
      }
    }
  }

  /** What a run records while time does not run backwards. */
  function Recording(calls: seq<Call>): seq<TraceEvent> { History(calls, Verdicts(calls)) }

  /** The calls without flushes and registrations. */
  function Emissions(calls: seq<Call>): seq<Call> {
    if calls == [] then []
    else if Last(calls).Emits() then Emissions(Init(calls)) + [Last(calls)]
    else Emissions(Init(calls))
  }

  /** Flushes and registrations, inserted anywhere, leave the recording unchanged. */
  lemma {:induction false} OnlyEmissionsMatter(calls: seq<Call>)
    ensures RegistryAfter(Emissions(calls)) == RegistryAfter(calls)
    ensures Recording(Emissions(calls)) == Recording(calls)
  {
    hide Event, Emittable, Enter, Answers;
    if calls != [] {
      OnlyEmissionsMatter(Init(calls));
      VerdictLast(calls);
      EmittableEmits(Last(calls), RegistryAfter(Init(calls)));
      if Last(calls).Emits() {
        var e := Emissions(calls);
        assert Init(e) == Emissions(Init(calls)) && Last(e) == Last(calls);
        VerdictLast(e);
      }
    }
  }

  lemma EmittableEmits(call: Call, r: Registry)
    ensures Emittable(call, r) ==> call.Emits()
  {
  }

  lemma VerdictLast(calls: seq<Call>)
    requires calls != []
    ensures Answers(Init(calls), Verdicts(Init(calls)))
    ensures var e, r := Last(calls), RegistryAfter(Init(calls));
      Recording(calls) == if Emittable(e, r) then Recording(Init(calls)) + [Event(e, r, |Recording(Init(calls))| + 1)] else Recording(Init(calls))
  {
    assert Init(Verdicts(calls)) == Verdicts(Init(calls));
    PrefixAnswers(calls, Verdicts(calls));
  }

  /** The clock does not run backwards, from `last` on. */
  predicate Steady(calls: seq<Call>, last: nat) {
    calls != [] ==>
      if calls[0].Emits() then last <= CurrentTick(calls[0].tick) && Steady(calls[1..], CurrentTick(calls[0].tick))
      else Steady(calls[1..], last)
  }

  /** The tick of the newest event. */
  function NewestTick(log: seq<TraceEvent>): nat { if log == [] then 0 else Last(log).tick }

  lemma AssembleNewest(first: nat, tick: nat, raws: seq<RawEvent>)
    requires raws != []
    ensures var events := Assemble(first, tick, raws); events != [] && Last(events).tick == LastTick(tick, raws)
  {
    assert raws == Init(raws) + [Last(raws)];
    AssembleLast(first, tick, Init(raws), Last(raws));
  }

  /** The tick that an open chunk goes on from is that of the newest event. */
  lemma ContinuesNewest(active: ActiveChunk, raws: seq<RawEvent>, log: seq<TraceEvent>, told: nat)
    requires Continues(active, raws, log, told) && active.eventCount > 0
    ensures log != [] && active.previousTick == NewestTick(log)
  {
    AssembleNewest(active.firstSequence, active.startTick, raws);
    assert Last(log) == Last(log[told..]);
  }

  lemma OpenSinceNewest(s: TraceSession)
    requires s.Valid()
    ensures s.active.eventCount > 0 ==> s.log != [] && s.active.previousTick == NewestTick(s.log)
  {
    hide Continues, Dictionaries.Match, Decodable;
    if s.active.eventCount > 0 {
      ContinuesNewest(s.active, s.raws, s.log, Told(s.chunks, |s.chunks|));
    }
  }

  /**
   * The verdict: what can be written is accepted, unless its tick goes back within the open
   * chunk; a tick not before the newest event never does.
   */
  predicate Ruled(s: TraceSession, call: Call, r: Registry, active: ActiveChunk, log: seq<TraceEvent>, ok: bool) {
    && (ok <==> Emittable(call, r) && (call.Emits() ==> s.TickAccepted(active, CurrentTick(call.tick))))
    && ((call.Emits() ==> NewestTick(log) <= CurrentTick(call.tick)) ==> (ok <==> Emittable(call, r)))
  }

  /** Carries out one call. A tick that goes back is accepted only if it starts a new chunk. */
  method Perform(s: TraceSession, call: Call, ghost r: Registry) returns (ok: bool)
    requires s.Valid() && !s.ended && call.Proper()
    requires r == Registry(s.names.schemaIds, s.names.nextCustomTypeId)
    modifies s
    ensures s.Valid() && !s.ended && old(s.chunks) <= s.chunks
    ensures s.InRange() ==> old(s.InRange())
    ensures s.Load() <= old(s.Load()) + Cost(call) && (s.Load() <= MAX_SAFE ==> s.InRange())
    ensures Registry(s.names.schemaIds, s.names.nextCustomTypeId) == if call.CallCustom? then Enter(r, call.schema).0 else r
    ensures ok ==> call.Emits() && (call.CallCustom? ==> Enter(r, call.schema).1.Success?)
    ensures s.log == if ok then old(s.log) + [Event(call, r, |old(s.log)| + 1)] else old(s.log)
    ensures ok ==> s.log[|old(s.log)|].tick == (if 0 <= call.tick <= 9007199254740991 then call.tick else 0)
    ensures call.CallFlush? ==> Told(s.chunks, |s.chunks|) == |s.log|
    ensures s.InRange() ==> Ruled(s, call, r, old(s.active), old(s.log), ok)
    ensures ok ==> Sized(s.active, s.payload, s.chunks, s.maxChunkBytes)
  {
    hide TraceSession.Recorded, Dictionaries.Match, Registered, Meaning, Project, SourceMeaning, SourceEncodable, Encodable, PayloadEncodable, ProperInput, NewestTick, Sized;
    SameLength(s);
    OpenSinceNewest(s);
    ok := false;
    match call {
      case CallBuiltin(tick, typeId, value, source) => ok := s.EmitBuiltin(tick, typeId, value, source);
      case CallCustom(tick, schema, values, source) => ok := s.EmitCustom(tick, schema, values, source);
      case CallPlayer(id, name) => s.RegisterPlayer(id, name);
      case CallState(state, name) => var _ := s.EnsureState(state, name);
      case CallComponent(component, state, name, tag) => var _ := s.EnsureComponent(component, state, name, tag);
      case CallFlush => s.Flush();
    }
    InRangeIfLight(s);
  }

  lemma InRangeIfLight(s: TraceSession)
    requires s.Valid()
    ensures s.Load() <= MAX_SAFE ==> s.InRange()
  {
    hide TraceSession.Valid, TraceSession.InRange, TraceSession.Load;
    if s.Load() <= MAX_SAFE {
      s.LightIsInRange();
    }
  }

  lemma SameLength(s: TraceSession)
    requires s.Valid()
    ensures s.sequence == |s.log|
  {
  }

  /** One more call, seen from the whole list. */
  lemma NextCall(calls: seq<Call>, i: nat, accepted: seq<bool>, ok: bool)
    requires i == |accepted| < |calls| && Answers(calls[..i], accepted)
    requires var r := RegistryAfter(calls[..i]);
      ok ==> calls[i].Emits() && (calls[i].CallCustom? ==> Enter(r, calls[i].schema).1.Success?)
    ensures var (call, r, before) := (calls[i], RegistryAfter(calls[..i]), History(calls[..i], accepted));
      && Answers(calls[..i + 1], accepted + [ok])
      && History(calls[..i + 1], accepted + [ok]) == (if ok then before + [Event(call, r, |before| + 1)] else before)
      && RegistryAfter(calls[..i + 1]) == (if call.CallCustom? then Enter(r, call.schema).0 else r)
      && Verdicts(calls[..i + 1]) == Verdicts(calls[..i]) + [Emittable(call, r)]
  {
    hide Event, Emittable, Enter, Answers;
    var next, flags := calls[..i + 1], accepted + [ok];
    assert Init(next) == calls[..i] && Last(next) == calls[i];
    assert Init(flags) == accepted && Last(flags) == ok;
    ExtendAnswers(next, flags);
  }

  /** What is known of a call's verdict, whatever the clock does. */
  predicate Judged(calls: seq<Call>, accepted: seq<bool>, i: nat)
    requires i < |calls| == |accepted| && Answers(calls[..i], accepted[..i])
  {
    var emittable := Emittable(calls[i], RegistryAfter(calls[..i]));
    && (accepted[i] ==> emittable)
    && (emittable && calls[i].Emits() && NewestTick(History(calls[..i], accepted[..i])) <= CurrentTick(calls[i].tick) ==> accepted[i])
  }

  lemma AnswersFirst(calls: seq<Call>, accepted: seq<bool>, i: nat)
    requires Answers(calls, accepted) && i <= |calls|
    ensures Answers(calls[..i], accepted[..i])
  {
    forall j | 0 <= j < i && accepted[j]
      ensures calls[..i][..j] == calls[..j]
    {
    }
  }

  /** With a steady clock that settles every verdict. */
  lemma {:induction false} SteadyJudged(calls: seq<Call>, accepted: seq<bool>, i: nat) returns (last: nat)
    requires Answers(calls, accepted) && Steady(calls, 0) && i <= |calls| == |accepted|
    requires forall j :: 0 <= j < i ==> Answers(calls[..j], accepted[..j]) && Judged(calls, accepted, j)
    ensures accepted[..i] == Verdicts(calls[..i])
    ensures Answers(calls[..i], accepted[..i])
    ensures NewestTick(History(calls[..i], accepted[..i])) <= last && Steady(calls[i..], last)
  {
    hide Event, Emittable, Enter, History, RegistryAfter, Answers, Steady, Verdicts;
    AnswersFirst(calls, accepted, i);
    NothingYet();
    if i == 0 {
      assert calls[..0] == [] && accepted[..0] == [] && calls[0..] == calls;
      last := 0;
    } else {
      last := SteadyJudged(calls, accepted, i - 1);
      NextTick(calls, i - 1, last);
      AnswersFirst(calls, accepted, i - 1);
      assert accepted[..i] == accepted[..i - 1] + [accepted[i - 1]];
      AnswerOf(calls, accepted, i - 1);
      NextCall(calls, i - 1, accepted[..i - 1], accepted[i - 1]);
      EmittableEmits(calls[i - 1], RegistryAfter(calls[..i - 1]));
      var before := History(calls[..i - 1], accepted[..i - 1]);
      assert accepted[i - 1] == Emittable(calls[i - 1], RegistryAfter(calls[..i - 1]));
      if calls[i - 1].Emits() {
        last := CurrentTick(calls[i - 1].tick);
      }
    }
  }

  lemma AnswerOf(calls: seq<Call>, accepted: seq<bool>, i: nat)
    requires Answers(calls, accepted) && i < |calls|
    ensures accepted[i] ==> calls[i].Emits() && (calls[i].CallCustom? ==> Enter(RegistryAfter(calls[..i]), calls[i].schema).1.Success?)
  {
  }

  lemma NextTick(calls: seq<Call>, i: nat, last: nat)
    requires i < |calls| && Steady(calls[i..], last)
    ensures if calls[i].Emits() then last <= CurrentTick(calls[i].tick) && Steady(calls[i + 1..], CurrentTick(calls[i].tick))
            else Steady(calls[i + 1..], last)
  {
    assert calls[i..][0] == calls[i] && calls[i..][1..] == calls[i + 1..];
  }

  /**
   * Runs a session: after any calls the log is the history of the accepted ones, whatever the
   * chunk limits are. Accepted are only calls whose data can be written, and all of those whose
   * tick does not lie before the newest event's; with a steady clock that is the recording.
   */
  method Run(s: TraceSession, calls: seq<Call>) returns (accepted: seq<bool>)
    requires s.Valid() && !s.ended && s.log == [] && s.active.eventCount == 0
    requires s.names.schemaIds == map[] && s.names.nextCustomTypeId == 128
    requires forall i :: 0 <= i < |calls| ==> calls[i].Proper()
    modifies s
    ensures s.Valid() && !s.ended
    ensures s.Load() <= old(s.Load()) + TotalCost(calls)
    ensures old(s.Load()) == 128 && Affordable(calls) ==> s.InRange()
    ensures Answers(calls, accepted) && s.log == History(calls, accepted)
    ensures |s.log| == Count(accepted) && forall i :: 0 <= i < |calls| && accepted[i] ==> Recounts(calls, accepted, s.log, i)
    ensures forall i :: 0 <= i < |calls| ==> Answers(calls[..i], accepted[..i])
    ensures s.InRange() ==> forall i :: 0 <= i < |calls| ==> Judged(calls, accepted, i)
    ensures s.InRange() && Steady(calls, 0) ==> accepted == Verdicts(calls)
  {
    hide TraceSession.Valid, Event, Emittable, Enter, Answers, History, Verdicts, RegistryAfter, Steady, Judged, NewestTick, Recounts, Count;
    accepted := [];
    NothingYet();
    assert calls[..0] == [];
    for i := 0 to |calls|
      invariant s.Valid() && !s.ended && |accepted| == i && s.Load() <= old(s.Load()) + TotalCost(calls[..i])
      invariant Answers(calls[..i], accepted) && s.log == History(calls[..i], accepted)
      invariant RegistryAfter(calls[..i]) == Registry(s.names.schemaIds, s.names.nextCustomTypeId)
      invariant forall j :: 0 <= j < i ==> Answers(calls[..j], accepted[..j])
      invariant s.InRange() ==> forall j :: 0 <= j < i ==> JudgedSoFar(calls[..i], accepted, j)
    {
      ghost var r := RegistryAfter(calls[..i]);
      assert Init(calls[..i + 1]) == calls[..i] && Last(calls[..i + 1]) == calls[i];
      ghost var before := accepted;
      var ok := Perform(s, calls[i], r);
      NextCall(calls, i, accepted, ok);
      accepted := accepted + [ok];
      assert accepted[..i] == before;
      forall j | 0 <= j < i ensures accepted[..j] == before[..j] {}
      if s.InRange() {
        JudgeNext(calls, before, i, ok, calls[..i + 1], accepted);
      }
    }
    assert calls[..|calls|] == calls && accepted[..|calls|] == accepted;
    InRangeIfLight(s);
    HistoryRecounts(calls, accepted);
    if s.InRange() {
      forall i | 0 <= i < |calls| ensures Judged(calls, accepted, i) {
        assert JudgedSoFar(calls, accepted, i);
      }
      if Steady(calls, 0) {
        var _ := SteadyJudged(calls, accepted, |calls|);
      }
    }
  }

  ghost predicate JudgedSoFar(calls: seq<Call>, accepted: seq<bool>, j: nat) {
    j < |calls| == |accepted| && Answers(calls[..j], accepted[..j]) && Judged(calls, accepted, j)
  }

  lemma JudgeNext(calls: seq<Call>, before: seq<bool>, i: nat, ok: bool, next: seq<Call>, flags: seq<bool>)
    requires i == |before| < |calls| && Answers(calls[..i], before)
    requires next == calls[..i + 1] && flags == before + [ok]
    requires forall j :: 0 <= j < i ==> JudgedSoFar(calls[..i], before, j)
    requires var r := RegistryAfter(calls[..i]);
      (ok ==> Emittable(calls[i], r))
      && (calls[i].Emits() && NewestTick(History(calls[..i], before)) <= CurrentTick(calls[i].tick) && Emittable(calls[i], r) ==> ok)
    ensures forall j :: 0 <= j <= i ==> JudgedSoFar(next, flags, j)
  {
    hide Emittable, Answers, History, RegistryAfter, NewestTick;
    forall j | 0 <= j <= i ensures JudgedSoFar(next, flags, j) {
      assert next[..j] == calls[..j];
      assert flags[..j] == before[..j] && before[..i] == before;
      if j < i {
        assert JudgedSoFar(calls[..i], before, j);
        assert calls[..i][..j] == calls[..j];
      }
    }
  }

  lemma NothingYet()
    ensures Answers([], []) && History([], []) == [] && RegistryAfter([]) == Registry(map[], 128) && Verdicts([]) == []
  {
  }

  /**
   * The file of an ended session decodes to its header, its footer and its whole log.
   */
  lemma FileDecodes(chunks: seq<TraceChunk>, log: seq<TraceEvent>, header: SessionHeader, end: SessionEnd)
    requires TellsPrefixes(chunks, log) && Told(chunks, |chunks|) <= |log| && WellFormedHeader(header)
    requires end.sessionId == header.sessionId && end.eventCount == Told(chunks, |chunks|)
    requires FileBytes(header, Contents(chunks), end).Success?
    ensures DecodedFile(FileBytes(header, Contents(chunks), end).value)
         == Success(DecodedTrace(header, end, log[..Told(chunks, |chunks|)]))
  {
    hide FileBytes, ReadFile, DecodedChunks, Contents;
    assert TellsPrefix(chunks, log, |chunks|);
    assert chunks[..|chunks|] == chunks;
    FileInverts(header, Contents(chunks), end);
  }

  /**
   * From the first call to the file: decoding the file gives back the header, the footer and
   * exactly the events of the accepted calls.
   */
  method RecordFile(
    header: SessionHeader, calls: seq<Call>, maxChunkBytes: int, maxChunkTickSpan: int,
    status: Status, endReason: Option<HostString>, endTick: int, endWallTime: int)
    returns (s: TraceSession, file: Result<bytes>, accepted: seq<bool>, end: SessionEnd)
    requires WellFormedHeader(header) && forall i :: 0 <= i < |calls| ==> calls[i].Proper()
    ensures Answers(calls, accepted)
    ensures Affordable(calls) ==> s.InRange()
    ensures end.eventCount == |History(calls, accepted)| && end.status == status && end.sessionId == header.sessionId
    ensures forall i :: 0 <= i < |s.chunks| ==>
      s.chunks[i].index == i && WithinSpan(s.chunks[i].startTick, s.chunks[i].endTick, maxChunkTickSpan)
    ensures Metered(s.chunks, History(calls, accepted))
    ensures file == FileBytes(header, Contents(s.chunks), end)
    ensures file.Success? <==> WritableFile(header, Contents(s.chunks), end)
    ensures s.InRange() && file.Success? ==>
      DecodedFile(file.value) == Success(DecodedTrace(header, end, History(calls, accepted)))
    ensures s.InRange() && file.Success? ==>
      var events := DecodedFile(file.value).value.events;
      |events| == Count(accepted) && forall i :: 0 <= i < |calls| && accepted[i] ==> Recounts(calls, accepted, events, i)
    ensures forall i :: 0 <= i < |calls| ==> Answers(calls[..i], accepted[..i])
    ensures s.InRange() ==> forall i :: 0 <= i < |calls| ==> Judged(calls, accepted, i)
    ensures s.InRange() && Steady(calls, 0) ==> accepted == Verdicts(calls)
  {
    hide Counted, Dictionaries.Match, FileBytes, WritableFile, DecodedFile, History, Answers, Judged, Recounts, Count, Metered;
    s := new TraceSession(header.sessionId, maxChunkBytes, maxChunkTickSpan);
    accepted := Run(s, calls);
    end := s.End(status, endReason, endTick, endWallTime);
    InRangeIfLight(s);
    file := EncodeBegTrace(header, Contents(s.chunks), end);
    FileExists(header, Contents(s.chunks), end);
    if s.InRange() && file.Success? {
      FileDecodes(s.chunks, s.log, header, end);
      assert s.log[..|s.log|] == s.log;
      HistoryRecounts(calls, accepted);
    }
  }
}
