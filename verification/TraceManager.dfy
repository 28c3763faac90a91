/**
 * The sessions of several games in one history store: `TraceManager` of
 * packages/trace/src/runtime/manager.ts, for the sessions that the store accepts.
 */
module TraceManagers {
  import opened Wrappers
  import opened Bytes
  import opened TraceTypes
  import opened Container
  import opened Decoder
  import opened Session
  import opened SessionRuns
  import opened StoreKeys
  import opened StoredSessions
  import opened Retention
  import opened HistoryStore
  import opened Pipeline

  /** What was asked of a session, and which of the calls were accepted. */
  datatype Script = Script(header: SessionHeader, calls: seq<Call>, accepted: seq<bool>)

  ghost predicate Enacts(s: TraceSession, script: Script)
    reads s
  {
    && s.Valid() && !s.ended && s.sessionId == script.header.sessionId && WellFormedHeader(script.header)
    && Answers(script.calls, script.accepted) && s.log == History(script.calls, script.accepted)
    && RegistryAfter(script.calls) == Registry(s.names.schemaIds, s.names.nextCustomTypeId)
    && s.Load() <= 128 + TotalCost(script.calls)
    && (s.InRange() ==> AllJudged(script))
  }

  /** As long as the calls are affordable the counters stay in range, and then the verdicts are justified. */
  lemma EnactsInRange(s: TraceSession, script: Script)
    requires Enacts(s, script) && Affordable(script.calls)
    ensures s.InRange() && AllJudged(script)
  {
    hide TraceSession.InRange, AllJudged, History, Answers;
    assert s.InRange() by {
      hide TraceSession.Valid;
      s.LightIsInRange();
    }
  }

  /** No call was refused without a reason, and none accepted without an encoding. */
  ghost predicate AllJudged(script: Script) {
    forall j :: 0 <= j < |script.calls| ==> JudgedSoFar(script.calls, script.accepted, j)
  }

  lemma EnactsMore(
    s: TraceSession, script: Script, call: Call, ok: bool, active: ActiveChunk, log: seq<TraceEvent>, r: Registry)
    requires Answers(script.calls, script.accepted) && r == RegistryAfter(script.calls) && log == History(script.calls, script.accepted)
    requires ok ==> call.Emits() && (call.CallCustom? ==> Enter(r, call.schema).1.Success?)
    requires s.Valid() && !s.ended && s.sessionId == script.header.sessionId && WellFormedHeader(script.header)
    requires s.log == if ok then log + [Event(call, r, |log| + 1)] else log
    requires Registry(s.names.schemaIds, s.names.nextCustomTypeId) == if call.CallCustom? then Enter(r, call.schema).0 else r
    requires s.InRange() ==> AllJudged(script) && Ruled(s, call, r, active, log, ok)
    requires s.Load() <= 128 + TotalCost(script.calls) + Cost(call)
    ensures Enacts(s, Longer(script, call, ok))
  {
    hide Event, Enter, History, Verdicts, RegistryAfter, Emittable, TraceSession.Valid, TraceSession.InRange, TraceSession.Load, Cost, JudgedSoFar,
         NewestTick;
    var calls := script.calls + [call];
    assert calls[..|script.calls|] == script.calls && calls[..|script.calls| + 1] == calls;
    NextCall(calls, |script.calls|, script.accepted, ok);
    if s.InRange() {
      JudgeNext(calls, script.accepted, |script.calls|, ok, calls, script.accepted + [ok]);
    }
  }

  lemma EnactsStill(s: TraceSession, script: Script)
    requires s.Valid() && !s.ended && s.sessionId == script.header.sessionId && WellFormedHeader(script.header)
    requires Answers(script.calls, script.accepted) && s.log == History(script.calls, script.accepted)
    requires RegistryAfter(script.calls) == Registry(s.names.schemaIds, s.names.nextCustomTypeId)
    requires s.Load() <= 128 + TotalCost(script.calls) && (s.InRange() ==> AllJudged(script))
    ensures Enacts(s, script)
  {
  }

  function Longer(script: Script, call: Call, ok: bool): Script {
    script.(calls := script.calls + [call], accepted := script.accepted + [ok])
  }

  /** The verdict is exact, and the counters are in range as long as the calls are affordable. */
  ghost predicate PlayedOn(s: TraceSession, script: Script, call: Call, active: ActiveChunk, log: seq<TraceEvent>, ok: bool)
    reads s
  {
    && (s.InRange() ==> Ruled(s, call, RegistryAfter(script.calls), active, log, ok))
    && (Affordable(script.calls + [call]) ==> s.InRange())
  }

  lemma LinkedWhat(store: TraceHistoryStore, s: TraceSession, header: SessionHeader)
    ensures Linked(store, s, header) <==>
      store.Valid() && s.Valid() && !s.ended && s.sessionId == header.sessionId && Tracks(store.recs, store.activeSessions, header, s.chunks)
  {
  }

  lemma LiveWhat(store: TraceHistoryStore, s: TraceSession, script: Script)
    requires store.Valid() && IsLive(store.recs, store.activeSessions, s, script)
    ensures Linked(store, s, script.header) && Enacts(s, script) && s.Valid() && WellFormedHeader(script.header)
    ensures Answers(script.calls, script.accepted) && s.log == History(script.calls, script.accepted)
    ensures RegistryAfter(script.calls) == Registry(s.names.schemaIds, s.names.nextCustomTypeId)
    ensures s.Load() <= 128 + TotalCost(script.calls) && (s.InRange() ==> AllJudged(script))
  {
    hide TraceHistoryStore.Valid, TraceSession.Valid, AllJudged, TraceSession.InRange, TraceSession.Load;
  }

  lemma LiveIsTold(store: TraceHistoryStore, s: TraceSession, script: Script)
    requires Linked(store, s, script.header)
    ensures !s.ended && script.header.sessionId in store.known && store.known[script.header.sessionId].end.None?
  {
    hide TraceHistoryStore.Keeps, TraceHistoryStore.Ticks, TraceHistoryStore.Settled, TraceSession.Valid;
    TrackedIsKnown(store, script.header, s.chunks);
  }

  lemma ItIsLive(store: TraceHistoryStore, s: TraceSession, script: Script)
    requires Enacts(s, script) && Tracks(store.recs, store.activeSessions, script.header, s.chunks)
    ensures IsLive(store.recs, store.activeSessions, s, script)
  {
  }

  /** The store accepts a session. */
  method StartSession(store: TraceHistoryStore, header: SessionHeader)
    requires store.Valid() && store.enabled && store.ready && Dotless(header.sessionId) && header.sessionId !in store.known
    modifies store`kv, store`recs, store`known, store`past, store`activeSessions
    ensures store.Valid() && store.past == old(store.past) + [Moment(store.kv, store.recs)]
    ensures OnlyOf(old(store.kv), old(store.recs), old(store.known), store.kv, store.recs, store.known, header, [])
    ensures store.known.Keys == old(store.known.Keys) + {header.sessionId}
    ensures store.activeSessions == old(store.activeSessions) + {header.sessionId}
    ensures Tracks(store.recs, store.activeSessions, header, [])
    ensures Undisturbed(old(store.recs), old(store.activeSessions), old(store.known),
                        store.recs, store.activeSessions, store.known, header.sessionId)
  {
    hide TraceHistoryStore.Keeps, TraceHistoryStore.Ticks, TraceHistoryStore.Settled;
    ActiveRuns(store);
    store.OnSessionStart(header);
  }

  lemma NewEnacts(s: TraceSession, header: SessionHeader)
    requires s.Valid() && !s.ended && s.log == [] && s.chunks == [] && s.sessionId == header.sessionId && WellFormedHeader(header)
    requires s.names.schemaIds == map[] && s.names.nextCustomTypeId == 128 && s.Load() == 128
    ensures Enacts(s, Script(header, [], []))
  {
    hide TraceSession.Valid;
    NothingYet();
  }

  method NewSession(header: SessionHeader, maxChunkBytes: int, maxChunkTickSpan: int) returns (s: TraceSession)
    requires WellFormedHeader(header)
    ensures fresh(s) && Enacts(s, Script(header, [], [])) && s.chunks == []
    ensures s.maxChunkBytes == maxChunkBytes && s.maxChunkTickSpan == maxChunkTickSpan
  {
    hide TraceSession.Valid, TraceSession.Load, TraceSession.InRange, Enacts, WellFormedHeader;
    s := new TraceSession(header.sessionId, maxChunkBytes, maxChunkTickSpan);
    NewEnacts(s, header);
  }

  lemma SpanStarts(past: seq<Moment>, header: SessionHeader, start: nat, stop: nat)
    requires Spans(past, header.sessionId, header, start, stop)
    ensures start < stop
  {
  }

  /** No two games share a session. */
  ghost predicate Distinct(sessions: map<Id, TraceSession>, scripts: map<Id, Script>) {
    && scripts.Keys == sessions.Keys
    && forall k, l :: k in sessions && l in sessions && k != l ==>
         sessions[k] != sessions[l] && scripts[k].header.sessionId != scripts[l].header.sessionId
  }

  lemma DistinctStill(sessions: map<Id, TraceSession>, scripts: map<Id, Script>, k: Id, script: Script)
    requires Distinct(sessions, scripts) && k in scripts && script.header == scripts[k].header
    ensures Distinct(sessions, scripts[k := script])
  {
  }

  lemma DistinctMore(sessions: map<Id, TraceSession>, scripts: map<Id, Script>, k: Id, s: TraceSession, script: Script)
    requires Distinct(sessions, scripts) && k !in sessions
    requires forall l :: l in sessions ==> sessions[l] != s && scripts[l].header.sessionId != script.header.sessionId
    ensures Distinct(sessions[k := s], scripts[k := script])
  {
  }

  lemma DistinctLess(sessions: map<Id, TraceSession>, scripts: map<Id, Script>, k: Id)
    requires Distinct(sessions, scripts)
    ensures Distinct(sessions - {k}, scripts - {k})
  {
  }

  lemma Apart(sessions: map<Id, TraceSession>, scripts: map<Id, Script>, k: Id)
    requires Distinct(sessions, scripts) && k in sessions
    ensures forall l :: l in sessions && l != k ==> sessions[l] != sessions[k] && scripts[l].header.sessionId != scripts[k].header.sessionId
  {
  }

  ghost predicate IsLive(recs: map<Id, Recorded>, active: set<Id>, s: TraceSession, script: Script)
    reads s
  {
    Enacts(s, script) && Tracks(recs, active, script.header, s.chunks)
  }

  lemma LiveStill(
    recs: map<Id, Recorded>, active: set<Id>, known: map<Id, Account>,
    recs': map<Id, Recorded>, active': set<Id>, known': map<Id, Account>, id: Id, s: TraceSession, script: Script)
    requires Undisturbed(recs, active, known, recs', active', known', id)
    requires script.header.sessionId != id && IsLive(recs, active, s, script)
    ensures IsLive(recs', active', s, script)
  {
    hide Enacts;
    OthersTracked(recs, active, known, recs', active', known', id, script.header, s.chunks);
  }

  lemma LiveThrough(recs: map<Id, Recorded>, recs': map<Id, Recorded>, active: set<Id>, s: TraceSession, script: Script)
    requires KeepsActive(recs, recs', active) && IsLive(recs, active, s, script)
    ensures IsLive(recs', active, s, script)
  {
    hide Enacts;
  }

  /** The file has all chunks, and a footer of its own, and decodes to the history of the calls. */
  ghost predicate Snapshotted(file: Result<bytes>, s: TraceSession, script: Script, now: int)
    reads s
  {
    && Enacts(s, script)
    && var end := SnapshotEnd(Recorded(script.header, s.chunks, None), now);
    && file == FileBytes(script.header, Contents(s.chunks), end)
    && (file.Success? && s.InRange() ==>
          DecodedFile(file.value) == Success(DecodedTrace(script.header, end, History(script.calls, script.accepted))))
  }

  lemma ItIsSnapshotted(file: Result<bytes>, s: TraceSession, script: Script, now: int)
    requires Enacts(s, script)
    requires var end := SnapshotEnd(Recorded(script.header, s.chunks, None), now);
      && file == FileBytes(script.header, Contents(s.chunks), end)
      && (file.Success? && s.InRange() ==> DecodedFile(file.value) == Success(DecodedTrace(script.header, end, s.log)))
    ensures Snapshotted(file, s, script, now)
  {
    hide TraceSession.Valid, TraceSession.InRange, FileBytes, DecodedFile, SnapshotEnd, AllJudged;
  }

  // ---------- sessions that have ended ----------

  datatype Ended = Ended(script: Script, s: TraceSession, end: SessionEnd)

  /** The session has the history of its calls, and the store was told all of it, with a footer that counts it. */
  ghost predicate IsOver(known: map<Id, Account>, o: Ended)
    reads o.s
  {
    var (script, s, end, header) := (o.script, o.s, o.end, o.script.header);
    && s.Valid() && s.ended && WellFormedHeader(header)
    && Answers(script.calls, script.accepted) && s.log == History(script.calls, script.accepted)
    && s.Load() <= 128 + TotalCost(script.calls) && (s.InRange() ==> AllJudged(script))
    && header.sessionId in known && known[header.sessionId] == Account(header, s.chunks, Some(end), true)
    && end.sessionId == header.sessionId && end.chunkCount == |s.chunks| && end.eventCount == |s.log| == Told(s.chunks, |s.chunks|)
  }

  lemma OverNow(store: TraceHistoryStore, s: TraceSession, script: Script, end: SessionEnd)
    requires Accounts(store, s, script.header) && s.ended && WellFormedHeader(script.header)
    requires Answers(script.calls, script.accepted) && s.log == History(script.calls, script.accepted)
    requires s.Load() <= 128 + TotalCost(script.calls) && (s.InRange() ==> AllJudged(script))
    requires script.header.sessionId in store.known
    requires store.known[script.header.sessionId] == Account(script.header, s.chunks, Some(end), true)
    ensures IsOver(store.known, Ended(script, s, end))
    ensures Affordable(script.calls) ==> s.InRange()
  {
    hide TraceHistoryStore.Valid, TraceSession.Valid, TraceSession.InRange, TraceSession.Load, AllJudged, History, Answers, Told;
    if Affordable(script.calls) {
      s.LightIsInRange();
    }
  }

  /** The file that the end of a session leaves, if retention leaves it. */
  ghost predicate Concluded(script: Script, s: TraceSession, end: SessionEnd, file: Result<bytes>, recs: map<Id, Recorded>)
    reads s
  {
    && file == (if script.header.sessionId in recs then FileBytes(script.header, Contents(s.chunks), end) else Failure)
    && (file.Success? && s.InRange() ==> DecodedFile(file.value) == Success(DecodedTrace(script.header, end, s.log)))
    && (Affordable(script.calls) ==> s.InRange())
  }

  /** The end of one session. */
  method Conclude(
    store: TraceHistoryStore, s: TraceSession, ghost script: Script, status: Status, endReason: Option<HostString>, endTick: int, now: int)
    returns (end: SessionEnd, file: Result<bytes>, ghost closed: Disk, ghost xs: seq<Meta>)
    requires Linked(store, s, script.header) && Enacts(s, script)
    modifies store`kv, store`recs, store`known, store`past, store`activeSessions, s
    ensures store.Valid() && old(store.past) <= store.past && store.known.Keys == old(store.known.Keys)
    ensures IsOver(store.known, Ended(script, s, end))
    ensures Concluded(script, s, end, file, store.recs) && end.status == status && end.endTick == endTick && end.endWallTime == now
    ensures store.known == old(store.known)[script.header.sessionId := Account(script.header, s.chunks, Some(end), true)]
    ensures Retired(store.collates, old(store.kv), old(store.recs), store.activeSessions, script.header, s.chunks, end,
                    closed, xs, store.options, now, store.kv, store.recs)
    ensures Undisturbed(old(store.recs), old(store.activeSessions), old(store.known),
                        store.recs, store.activeSessions, store.known, script.header.sessionId)
  {
    hide TraceHistoryStore.Valid, TraceSession.Valid, Linked, History, Answers, RegistryAfter, Undisturbed,
         FileBytes, WritableFile, DecodedFile, Candidates, Survivors, Recorded.Record, Accounts, Retired, CleanedUp, EndedAs, AllJudged,
         TraceSession.InRange, TraceSession.Load, TotalCost, Affordable, IsOver, WellFormedHeader;
    EnactsWhat(s, script);
    end, file, closed, xs := Finish(store, s, script.header, status, endReason, endTick, now);
    OverNow(store, s, script, end);
  }

  lemma EnactsWhat(s: TraceSession, script: Script)
    requires Enacts(s, script)
    ensures WellFormedHeader(script.header) && Answers(script.calls, script.accepted) && s.log == History(script.calls, script.accepted)
    ensures s.Load() <= 128 + TotalCost(script.calls) && (s.InRange() ==> AllJudged(script))
  {
    hide TraceSession.Valid, TraceSession.InRange, TraceSession.Load, AllJudged;
  }

  /** By their ids. */
  ghost predicate AllOver(known: map<Id, Account>, over: map<Id, Ended>)
    reads set id | id in over :: over[id].s
  {
    forall id :: id in over ==> over[id].script.header.sessionId == id && IsOver(known, over[id])
  }

  lemma StoreApart(over: map<Id, Ended>, store: TraceHistoryStore)
    ensures forall id :: id in over ==> over[id].s as object != store
  {
  }

  lemma OverApart(known: map<Id, Account>, over: map<Id, Ended>, s: TraceSession)
    requires AllOver(known, over) && !s.ended
    ensures forall id :: id in over ==> over[id].s != s
  {
    hide TraceSession.Valid;
  }

  /** Nothing more is told about a session that has ended. */
  lemma OverStay(known: map<Id, Account>, known': map<Id, Account>, over: map<Id, Ended>, live: Id)
    requires AllOver(known, over) && (live in known ==> known[live].end.None?)
    requires forall id :: id in known && id != live ==> id in known' && known'[id] == known[id]
    ensures AllOver(known', over) && live !in over
  {
    hide TraceSession.Valid, TraceSession.InRange, AllJudged, History, Answers, Told;
  }

  lemma OverMore(known: map<Id, Account>, over: map<Id, Ended>, o: Ended)
    requires AllOver(known, over) && IsOver(known, o)
    ensures AllOver(known, over[o.script.header.sessionId := o])
  {
    hide IsOver;
  }

  lemma Undisturbs(
    recs: map<Id, Recorded>, active: set<Id>, known: map<Id, Account>,
    recs': map<Id, Recorded>, active': set<Id>, known': map<Id, Account>, id: Id)
    requires Undisturbed(recs, active, known, recs', active', known', id)
    ensures forall other :: other in known && other != id ==> other in known' && known'[other] == known[other]
  {
  }

  /** The live sessions by the key of their game, all of them in one store. */
  class TraceManager {
    const store: TraceHistoryStore
    var sessions: map<Id, TraceSession>
    ghost var scripts: map<Id, Script>
    ghost var over: map<Id, Ended>

    ghost function OverSessions(): set<TraceSession>
      reads this`over
    {
      set id | id in over :: over[id].s
    }

    /** Every live session has the history of its calls, and the store has what it handed over. */
    ghost predicate Valid()
      reads this, store, sessions.Values, OverSessions()
    {
      && store.Valid() && Distinct(sessions, scripts) && AllOver(store.known, over)
      && forall k :: k in sessions ==> k in scripts && IsLive(store.recs, store.activeSessions, sessions[k], scripts[k])
    }

    constructor (store: TraceHistoryStore)
      requires store.Valid()
      ensures Valid() && this.store == store && sessions == map[] && scripts == map[] && over == map[]
    {
      this.store := store;
      sessions := map[];
      scripts := map[];
      over := map[];
    }

    /** No session is recorded unless the store accepts it, and a game has one at most. */
    method BeginSession(gameKey: Id, header: SessionHeader, maxChunkBytes: int, maxChunkTickSpan: int) returns (s: Option<TraceSession>)
      requires Valid() && Dotless(header.sessionId) && header.sessionId !in store.known && WellFormedHeader(header)
      modifies this`sessions, this`scripts, store`kv, store`recs, store`known, store`past, store`activeSessions
      ensures Valid() && old(store.past) <= store.past
      ensures if store.enabled && store.ready && gameKey !in old(sessions) then
          && s.Some? && fresh(s.value) && s.value.maxChunkBytes == maxChunkBytes && s.value.maxChunkTickSpan == maxChunkTickSpan
          && sessions == old(sessions)[gameKey := s.value]
          && scripts == old(scripts)[gameKey := Script(header, [], [])]
          && OnlyOf(old(store.kv), old(store.recs), old(store.known), store.kv, store.recs, store.known, header, [])
          && store.known.Keys == old(store.known.Keys) + {header.sessionId}
          && store.past == old(store.past) + [Moment(store.kv, store.recs)]
        else
          && sessions == old(sessions) && scripts == old(scripts)
          && store.known == old(store.known) && store.recs == old(store.recs) && store.kv == old(store.kv) && store.past == old(store.past)
          && s == if store.enabled && store.ready then Some(old(sessions)[gameKey]) else None
    {
      hide TraceHistoryStore.Valid, TraceSession.Valid, Enacts, IsLive, Tracks, Undisturbed, WellFormedHeader, Distinct, AllOver,
           OnlyOf, TraceSession.Load, TraceSession.InRange, Dotless;
      if !(store.enabled && store.ready) { return None; }
      ValidKeys();
      if gameKey in sessions { return Some(sessions[gameKey]); }
      NewIdIsNew(header.sessionId);
      StoreApart(over, store);
      StartSession(store, header);
      OthersStay(old(store.recs), old(store.activeSessions), old(store.known), header.sessionId, sessions.Keys);
      OverStays(old(store.recs), old(store.activeSessions), old(store.known), header.sessionId);
      var session := NewSession(header, maxChunkBytes, maxChunkTickSpan);
      ItIsLive(store, session, Script(header, [], []));
      DistinctMore(sessions, scripts, gameKey, session, Script(header, [], []));
      sessions := sessions[gameKey := session];
      scripts := scripts[gameKey := Script(header, [], [])];
      return Some(session);
    }

    lemma ValidKeys()
      requires Valid()
      ensures scripts.Keys == sessions.Keys
    {
    }

    lemma NewIdIsNew(id: Id)
      requires Valid() && id !in store.known
      ensures forall k :: k in sessions ==> scripts[k].header.sessionId != id
    {
      hide TraceHistoryStore.Keeps, TraceHistoryStore.Ticks, TraceHistoryStore.Settled, Enacts;
      forall k | k in sessions
        ensures scripts[k].header.sessionId != id
      {
        TrackedIsKnown(store, scripts[k].header, sessions[k].chunks);
      }
    }

    /** A call of the game: its own session goes on and no other is disturbed. */
    method Play(gameKey: Id, call: Call) returns (ok: bool)
      requires Valid() && gameKey in sessions && call.Proper()
      modifies this`scripts, store`kv, store`recs, store`known, store`past, sessions[gameKey]
      ensures Valid() && old(store.past) <= store.past
      ensures store.known.Keys == old(store.known.Keys)
      ensures gameKey in old(scripts) && scripts == old(scripts)[gameKey := Longer(old(scripts)[gameKey], call, ok)]
      ensures PlayedOn(sessions[gameKey], old(scripts)[gameKey], call, old(sessions[gameKey].active), old(sessions[gameKey].log), ok)
      ensures OnlyOf(old(store.kv), old(store.recs), old(store.known), store.kv, store.recs, store.known,
                     old(scripts)[gameKey].header, sessions[gameKey].chunks)
    {
      hide TraceHistoryStore.Valid, TraceSession.Valid, Enacts, IsLive, Linked, History, Answers, RegistryAfter, Event, Enter, Undisturbed, Tracks, Distinct, AllOver,
           OnlyOf, Ruled, AllJudged, TraceSession.InRange;
      ghost var script := scripts[gameKey];
      var s := sessions[gameKey];
      ghost var r := RegistryAfter(script.calls);
      LiveWhat(store, s, script);
      Apart(sessions, scripts, gameKey);
      LiveIsTold(store, s, script);
      OverApart(store.known, over, s);
      ok := PlayCall(store, s, script.header, call, r);
      ghost var longer := Longer(script, call, ok);
      LinkedWhat(store, s, script.header);
      EnactsMore(s, script, call, ok, old(s.active), old(s.log), r);
      if Affordable(longer.calls) { EnactsInRange(s, longer); }
      ItIsLive(store, s, longer);
      OthersStay(old(store.recs), old(store.activeSessions), old(store.known), script.header.sessionId, sessions.Keys - {gameKey});
      OverStays(old(store.recs), old(store.activeSessions), old(store.known), script.header.sessionId);
      DistinctStill(sessions, scripts, gameKey, longer);
      scripts := scripts[gameKey := longer];
    }

    /** Sessions that have ended stay as they are. */
    lemma OverStays(recs: map<Id, Recorded>, active: set<Id>, known: map<Id, Account>, id: Id)
      requires AllOver(known, over) && (id in known ==> known[id].end.None?)
      requires Undisturbed(recs, active, known, store.recs, store.activeSessions, store.known, id)
      ensures AllOver(store.known, over)
    {
      hide Undisturbed, AllOver;
      Undisturbs(recs, active, known, store.recs, store.activeSessions, store.known, id);
      OverStay(known, store.known, over, id);
    }

    /** Sessions that are left alone stay live. */
    lemma OthersStay(recs: map<Id, Recorded>, active: set<Id>, known: map<Id, Account>, id: Id, some: set<Id>)
      requires some <= sessions.Keys && some <= scripts.Keys
      requires forall k :: k in some ==> scripts[k].header.sessionId != id && IsLive(recs, active, sessions[k], scripts[k])
      requires Undisturbed(recs, active, known, store.recs, store.activeSessions, store.known, id)
      ensures forall k :: k in some ==> IsLive(store.recs, store.activeSessions, sessions[k], scripts[k])
    {
      hide Undisturbed, IsLive;
      forall k | k in some
        ensures IsLive(store.recs, store.activeSessions, sessions[k], scripts[k])
      {
        LiveStill(recs, active, known, store.recs, store.activeSessions, store.known, id, sessions[k], scripts[k]);
      }
    }

    /** The store is switched, configured or cleaned up while sessions are live. */
    method Administer(step: Step, now: int) returns (ghost swept: Disk)
      requires Valid() && !step.Play?
      modifies store
      ensures Valid() && store.known == old(store.known) && old(store.past) <= store.past
      ensures store.activeSessions == old(store.activeSessions)
      ensures Administered(store.collates, step, old(store.Settings()), old(store.recs), store.activeSessions, now, swept,
                           store.Settings(), store.recs)
    {
      hide TraceHistoryStore.Valid, IsLive, KeepsActive, Distinct, Administered, AllOver;
      StoreApart(over, store);
      swept := StoreStep(store, step, now);
      forall k | k in sessions
        ensures k in scripts && IsLive(store.recs, store.activeSessions, sessions[k], scripts[k])
      {
        LiveThrough(old(store.recs), store.recs, store.activeSessions, sessions[k], scripts[k]);
      }
    }

    /** The snapshot of a live session tells the history of its calls so far. */
    method SnapshotBytes(gameKey: Id, now: int) returns (file: Result<bytes>)
      requires Valid() && gameKey in sessions
      modifies store`kv, store`recs, store`known, store`past, sessions[gameKey]
      ensures gameKey in scripts && old(store.past) <= store.past
      ensures store.known.Keys == old(store.known.Keys)
      ensures OnlyOf(old(store.kv), old(store.recs), old(store.known), store.kv, store.recs, store.known,
                     scripts[gameKey].header, sessions[gameKey].chunks)
      ensures Affordable(scripts[gameKey].calls) ==> sessions[gameKey].InRange()
      ensures Snapshotted(file, sessions[gameKey], scripts[gameKey], now)
      ensures Valid()
    {
      hide TraceHistoryStore.Valid, TraceSession.Valid, Enacts, IsLive, Linked, History, Answers, RegistryAfter, Undisturbed, Tracks, Distinct, AllOver,
           FileBytes, WritableFile, DecodedFile, SnapshotEnd, OnlyOf, AllJudged, TraceSession.InRange, Snapshotted, Affordable;
      ghost var script := scripts[gameKey];
      var s := sessions[gameKey];
      LiveWhat(store, s, script);
      Apart(sessions, scripts, gameKey);
      LiveIsTold(store, s, script);
      OverApart(store.known, over, s);
      file := Snapshot(store, s, script.header, now);
      LinkedWhat(store, s, script.header);
      EnactsStill(s, script);
      ItIsSnapshotted(file, s, script, now);
      if Affordable(script.calls) { EnactsInRange(s, script); }
      ItIsLive(store, s, script);
      OthersStay(old(store.recs), old(store.activeSessions), old(store.known), script.header.sessionId, sessions.Keys - {gameKey});
      OverStays(old(store.recs), old(store.activeSessions), old(store.known), script.header.sessionId);
    }

    /**
     * Stopped at any moment so far, each live session comes back with the beginning of the
     * history of its own calls, as long as it had started by then.
     */
    lemma LiveComesBack(gameKey: Id, i: nat, now: int) returns (start: nat)
      requires Valid() && gameKey in sessions && (sessions[gameKey].InRange() || Affordable(scripts[gameKey].calls)) && i < |store.past|
      ensures var (s, header) := (sessions[gameKey], scripts[gameKey].header);
        && start < |store.past| && Spans(store.past, header.sessionId, header, start, |store.past|)
        && s.log == History(scripts[gameKey].calls, scripts[gameKey].accepted) && AllJudged(scripts[gameKey])
        && (header.sessionId in store.past[i].recs <==> start <= i)
        && (start <= i ==> ComesBack(store.past[i].recs, s, header, now))
    {
      hide TraceHistoryStore.Valid, TraceSession.Valid, TraceSession.InRange, Enacts, Linked, History, Answers, RegistryAfter, Tracks, Distinct,
           AllJudged, ComesBack, Spans, Accounts;
      var s, script := sessions[gameKey], scripts[gameKey];
      LiveWhat(store, s, script);
      if Affordable(script.calls) { EnactsInRange(s, script); }
      LinkedAccounts(store, s, script.header);
      var stop;
      start, stop := CrashLeavesAPrefix(store, s, script.header, i, now);
      SpanStarts(store.past, script.header, start, stop);
    }

    /** The session of the game ends; the others stay live. */
    method EndSession(gameKey: Id, status: Status, endReason: Option<HostString>, endTick: int, now: int)
      returns (s: TraceSession, end: SessionEnd, file: Result<bytes>, ghost closed: Disk, ghost xs: seq<Meta>)
      requires Valid() && gameKey in sessions
      modifies this, store`kv, store`recs, store`known, store`past, store`activeSessions, sessions[gameKey]
      ensures Valid() && old(store.past) <= store.past
      ensures gameKey in old(scripts) && s == old(sessions)[gameKey]
      ensures sessions == old(sessions) - {gameKey} && scripts == old(scripts) - {gameKey}
      ensures over == old(over)[old(scripts)[gameKey].header.sessionId := Ended(old(scripts)[gameKey], s, end)]
      ensures store.known.Keys == old(store.known.Keys)
      ensures IsOver(store.known, Ended(old(scripts)[gameKey], s, end))
      ensures Concluded(old(scripts)[gameKey], s, end, file, store.recs) && end.status == status && end.endTick == endTick && end.endWallTime == now
      ensures store.known == old(store.known)[old(scripts)[gameKey].header.sessionId := Account(old(scripts)[gameKey].header, s.chunks, Some(end), true)]
      ensures Retired(store.collates, old(store.kv), old(store.recs), store.activeSessions, old(scripts)[gameKey].header, s.chunks, end,
                      closed, xs, store.options, now, store.kv, store.recs)
    {
      hide TraceHistoryStore.Valid, TraceSession.Valid, Enacts, IsLive, Linked, Undisturbed, Tracks, Distinct, AllOver, IsOver, Concluded, Retired,
           WellFormedHeader, History, Answers, RegistryAfter, AllJudged, TraceSession.InRange, TraceSession.Load, TotalCost;
      ghost var script := scripts[gameKey];
      s := sessions[gameKey];
      LiveWhat(store, s, script);
      Apart(sessions, scripts, gameKey);
      LiveIsTold(store, s, script);
      OverApart(store.known, over, s);
      end, file, closed, xs := Conclude(store, s, script, status, endReason, endTick, now);
      OthersStay(old(store.recs), old(store.activeSessions), old(store.known), script.header.sessionId, sessions.Keys - {gameKey});
      OverStays(old(store.recs), old(store.activeSessions), old(store.known), script.header.sessionId);
      DistinctLess(sessions, scripts, gameKey);
      OverMore(store.known, over, Ended(script, s, end));
      sessions := sessions - {gameKey};
      scripts := scripts - {gameKey};
      over := over[script.header.sessionId := Ended(script, s, end)];
    }

    /**
     * What was recorded of a session that has ended, as long as it is stored: all of it, with
     * its footer, and its file decodes to the history of just its own calls.
     */
    method StoredBytes(id: Id) returns (file: Result<bytes>)
      requires Valid() && id in over
      ensures var (script, s, end) := (over[id].script, over[id].s, over[id].end);
        && (id in store.recs ==> store.recs[id] == Recorded(script.header, s.chunks, Some(end)))
        && file == (if id in store.recs then FileBytes(script.header, Contents(s.chunks), end) else Failure)
        && (Affordable(script.calls) ==> s.InRange() && AllJudged(script))
        && (file.Success? && s.InRange() ==>
              DecodedFile(file.value) == Success(DecodedTrace(script.header, end, History(script.calls, script.accepted))))
    {
      hide TraceHistoryStore.Keeps, TraceHistoryStore.Ticks, TraceHistoryStore.Settled, TraceSession.Valid, TraceSession.InRange, IsLive, Distinct,
           FileBytes, DecodedFile, AllJudged, History, Answers, ReadBack, TraceSession.Load, Told, WellFormedHeader;
      ghost var o := over[id];
      KeptInFull(store, id);
      if Affordable(o.script.calls) { OverInRange(store.known, o); }
      ReadsBackAll(Recorded(o.script.header, o.s.chunks, Some(o.end)));
      file := store.ToBytes(id);
      if file.Success? && o.s.InRange() {
        AllDecodes(o.s, o.script.header, o.end);
      }
    }
  }

  lemma OverInRange(known: map<Id, Account>, o: Ended)
    requires IsOver(known, o) && Affordable(o.script.calls)
    ensures o.s.InRange() && AllJudged(o.script)
  {
    hide TraceSession.Valid, TraceSession.InRange, AllJudged, History, Answers, Told;
    o.s.LightIsInRange();
  }

  /** A session that started here is stored as told. */
  lemma KeptInFull(store: TraceHistoryStore, id: Id)
    requires store.Keeps() && id in store.known && store.known[id].own
    ensures var a := store.known[id]; id in store.recs ==> store.recs[id] == Recorded(a.header, a.chunks, a.end)
  {
    hide Consistent, PastOf, AllRecoverable, OwnRun, Collates;
  }

  // ---------- any interleaving ----------

  datatype Happening =
    | Begins(gameKey: Id, header: SessionHeader, maxChunkBytes: int, maxChunkTickSpan: int)
    | Plays(gameKey: Id, call: Call)
    | Ends(gameKey: Id, status: Status, endReason: Option<HostString>, endTick: int, now: int)
    | Snaps(gameKey: Id, now: int)
    | Administers(step: Step, now: int)

  /** What was asked of a session, and with what it was ended. */
  datatype Done = Done(header: SessionHeader, calls: seq<Call>, status: Status, endTick: int, endWallTime: int)

  /** Switch and limits, which sessions are open, which have ended, and what was asked of each. */
  datatype Plan = Plan(on: bool, options: Options, open: map<Id, (SessionHeader, seq<Call>)>, done: map<Id, Done>)

  function Planned(p: Plan, h: Happening): Plan {
    match h
    case Begins(k, header, _, _) => if p.on && k !in p.open then p.(open := p.open[k := (header, [])]) else p
    case Plays(k, call) => if k in p.open then p.(open := p.open[k := (p.open[k].0, p.open[k].1 + [call])]) else p
    case Ends(k, status, _, endTick, now) =>
      if k !in p.open then p
      else
        var (header, calls) := p.open[k];
        p.(open := p.open - {k}, done := p.done[header.sessionId := Done(header, calls, status, endTick, now)])
    case Snaps(_, _) => p
    case Administers(step, _) => p.(on := step.SwitchOn? || (p.on && !step.SwitchOff?), options := Limited(step, p.options))
  }

  function PlanAfter(p: Plan, hs: seq<Happening>): Plan {
    if hs == [] then p else Planned(PlanAfter(p, Init(hs)), Last(hs))
  }

  predicate Usable(h: Happening) {
    match h
    case Begins(_, header, _, _) => Dotless(header.sessionId) && WellFormedHeader(header)
    case Plays(_, call) => call.Proper()
    case Administers(step, _) => !step.Play?
    case _ => true
  }

  /** Session ids are not used twice. */
  predicate NewIds(hs: seq<Happening>, known: set<Id>) {
    && (forall i :: 0 <= i < |hs| && hs[i].Begins? ==> hs[i].header.sessionId !in known)
    && (forall i, j :: 0 <= i < j < |hs| && hs[i].Begins? && hs[j].Begins? ==> hs[i].header.sessionId != hs[j].header.sessionId)
  }

  ghost predicate IsPlanned(scripts: map<Id, Script>, open: map<Id, (SessionHeader, seq<Call>)>) {
    scripts.Keys == open.Keys && forall k :: k in scripts ==> scripts[k].header == open[k].0 && scripts[k].calls == open[k].1
  }

  ghost predicate IsDone(over: map<Id, Ended>, done: map<Id, Done>) {
    && over.Keys == done.Keys
    && forall id :: id in over ==>
         var (o, d) := (over[id], done[id]);
         && o.script.header == d.header && o.script.calls == d.calls
         && o.end.status == d.status && o.end.endTick == d.endTick && o.end.endWallTime == d.endWallTime
  }

  ghost predicate Follows(m: TraceManager, p: Plan)
    reads m, m.store
  {
    m.store.enabled == p.on && m.store.options == p.options && IsPlanned(m.scripts, p.open) && IsDone(m.over, p.done)
  }

  lemma DoneMore(over: map<Id, Ended>, done: map<Id, Done>, o: Ended)
    requires IsDone(over, done)
    ensures var id := o.script.header.sessionId;
      IsDone(over[id := o], done[id := Done(o.script.header, o.script.calls, o.end.status, o.end.endTick, o.end.endWallTime)])
  {
  }

  lemma PlannedAt(scripts: map<Id, Script>, open: map<Id, (SessionHeader, seq<Call>)>, k: Id)
    requires IsPlanned(scripts, open) && k in scripts
    ensures k in open && open[k] == (scripts[k].header, scripts[k].calls)
  {
  }

  lemma PlannedKeys(scripts: map<Id, Script>, open: map<Id, (SessionHeader, seq<Call>)>)
    requires IsPlanned(scripts, open)
    ensures scripts.Keys == open.Keys
  {
  }

  lemma PlannedMore(scripts: map<Id, Script>, open: map<Id, (SessionHeader, seq<Call>)>, k: Id, header: SessionHeader)
    requires IsPlanned(scripts, open)
    ensures IsPlanned(scripts[k := Script(header, [], [])], open[k := (header, [])])
  {
  }

  lemma PlannedLonger(scripts: map<Id, Script>, open: map<Id, (SessionHeader, seq<Call>)>, k: Id, call: Call)
    requires IsPlanned(scripts, open) && k in scripts
    ensures k in open && forall accepted ::
      IsPlanned(scripts[k := Script(scripts[k].header, scripts[k].calls + [call], accepted)], open[k := (open[k].0, open[k].1 + [call])])
  {
  }

  lemma PlannedLess(scripts: map<Id, Script>, open: map<Id, (SessionHeader, seq<Call>)>, k: Id)
    requires IsPlanned(scripts, open)
    ensures IsPlanned(scripts - {k}, open - {k})
  {
  }

  /** Only ids that have begun are new. */
  ghost predicate OnlyBegun(known: set<Id>, before: set<Id>, hs: seq<Happening>) {
    forall id :: id in known ==> id in before || exists j :: 0 <= j < |hs| && hs[j].Begins? && hs[j].header.sessionId == id
  }

  /**
   * Sessions of any games begin, go on and end in any order while the store is switched,
   * configured, cleaned up and read: at every point the live sessions are those that the plan
   * says, each has the history of just its own calls, and the store has what each handed over.
   */
  method Live(m: TraceManager, hs: seq<Happening>)
    requires m.Valid() && m.sessions == map[] && m.over == map[] && m.store.ready
    requires (forall i :: 0 <= i < |hs| ==> Usable(hs[i])) && NewIds(hs, m.store.known.Keys)
    modifies m, m.store
    ensures m.Valid() && m.store.ready
    ensures Follows(m, PlanAfter(Plan(old(m.store.enabled), old(m.store.options), map[], map[]), hs))
    ensures forall k :: k in m.sessions ==>
      k in m.scripts && IsLive(m.store.recs, m.store.activeSessions, m.sessions[k], m.scripts[k])
      && (Affordable(m.scripts[k].calls) ==> m.sessions[k].InRange() && AllJudged(m.scripts[k]))
    ensures forall id :: id in m.over ==>
      IsOver(m.store.known, m.over[id]) && (Affordable(m.over[id].script.calls) ==> m.over[id].s.InRange() && AllJudged(m.over[id].script))
  {
    hide TraceHistoryStore.Valid, TraceSession.Valid, Enacts, IsLive, Distinct, FileBytes, DecodedFile, History, Accounts, SnapshotEnd;
    ghost var start := Plan(m.store.enabled, m.store.options, map[], map[]);
    ghost var before := m.store.known.Keys;
    assert hs[..0] == [];
    EmptyKeys(m.sessions, m.scripts);
    for i := 0 to |hs|
      invariant m.Valid() && m.store.ready && forall k :: k in m.sessions ==> fresh(m.sessions[k])
      invariant Follows(m, PlanAfter(start, hs[..i]))
      invariant OnlyBegun(m.store.known.Keys, before, hs[..i])
    {
      assert Init(hs[..i + 1]) == hs[..i] && Last(hs[..i + 1]) == hs[i];
      BegunSoFar(m.store.known.Keys, before, hs, i);
      Happen(m, hs[i], PlanAfter(start, hs[..i]));
    }
    assert hs[..|hs|] == hs;
    LiveJudged(m);
  }

  /** The sessions of a manager, live and ended, with verdicts that are justified as long as their calls are affordable. */
  lemma LiveJudged(m: TraceManager)
    requires m.Valid()
    ensures forall k :: k in m.sessions ==>
      k in m.scripts && IsLive(m.store.recs, m.store.activeSessions, m.sessions[k], m.scripts[k])
      && (Affordable(m.scripts[k].calls) ==> m.sessions[k].InRange() && AllJudged(m.scripts[k]))
    ensures forall id :: id in m.over ==>
      IsOver(m.store.known, m.over[id]) && (Affordable(m.over[id].script.calls) ==> m.over[id].s.InRange() && AllJudged(m.over[id].script))
  {
    hide TraceHistoryStore.Valid, Enacts, IsOver, AllJudged, TraceSession.InRange, Affordable, Tracks;
    forall k | k in m.sessions && Affordable(m.scripts[k].calls)
      ensures m.sessions[k].InRange() && AllJudged(m.scripts[k])
    {
      EnactsInRange(m.sessions[k], m.scripts[k]);
    }
    forall id | id in m.over && Affordable(m.over[id].script.calls)
      ensures m.over[id].s.InRange() && AllJudged(m.over[id].script)
    {
      OverInRange(m.store.known, m.over[id]);
    }
  }

  lemma EmptyKeys(sessions: map<Id, TraceSession>, scripts: map<Id, Script>)
    requires Distinct(sessions, scripts) && sessions == map[]
    ensures scripts == map[]
  {
  }

  lemma BegunSoFar(known: set<Id>, before: set<Id>, hs: seq<Happening>, i: nat)
    requires i < |hs| && NewIds(hs, before) && OnlyBegun(known, before, hs[..i])
    ensures hs[i].Begins? ==> hs[i].header.sessionId !in known
    ensures OnlyBegun(known, before, hs[..i + 1])
    ensures hs[i].Begins? ==> OnlyBegun(known + {hs[i].header.sessionId}, before, hs[..i + 1])
  {
    assert hs[..i + 1] == hs[..i] + [hs[i]];
    forall id | id in known && id !in before
      ensures exists j :: 0 <= j < i && hs[j].Begins? && hs[j].header.sessionId == id
    {
      var j :| 0 <= j < |hs[..i]| && hs[..i][j].Begins? && hs[..i][j].header.sessionId == id;
      assert hs[j] == hs[..i][j];
    }
    assert hs[i] == hs[..i + 1][i];
    forall j | 0 <= j < i ensures hs[..i + 1][j] == hs[j] {}
  }

  lemma UsableWhat(h: Happening)
    requires Usable(h)
    ensures h.Begins? ==> Dotless(h.header.sessionId) && WellFormedHeader(h.header)
    ensures h.Plays? ==> h.call.Proper()
    ensures h.Administers? ==> !h.step.Play?
  {
  }

  lemma SwitchedOnly(
    c: Collation, step: Step, w: Setting, recs: map<Id, Recorded>, active: set<Id>, now: int, swept: Disk, w': Setting, recs': map<Id, Recorded>)
    requires Administered(c, step, w, recs, active, now, swept, w', recs')
    ensures w'.ready == w.ready && w'.on == (step.SwitchOn? || (w.on && !step.SwitchOff?)) && w'.options == Limited(step, w.options)
  {
  }

  method HappenBegins(m: TraceManager, h: Happening, ghost p: Plan)
    requires h.Begins?
    requires Follows(m, p)
    requires m.Valid() && m.store.ready && Usable(h) && (h.Begins? ==> h.header.sessionId !in m.store.known)
    modifies m, m.store, m.sessions.Values
    ensures m.Valid() && m.store.ready
    ensures forall k :: k in m.sessions ==> fresh(m.sessions[k]) || (k in old(m.sessions) && m.sessions[k] == old(m.sessions[k]))
    ensures m.store.known.Keys == old(m.store.known.Keys)
         || (h.Begins? && m.store.known.Keys == old(m.store.known.Keys) + {h.header.sessionId})
    ensures Follows(m, Planned(p, h))
  {
    hide TraceManager.Valid, TraceSession.InRange, History, IsPlanned, IsDone, WellFormedHeader, OnlyOf, Usable;
    m.ValidKeys();
    UsableWhat(h);
    PlannedKeys(m.scripts, p.open);
    PlannedMore(m.scripts, p.open, h.gameKey, h.header);
    var _ := m.BeginSession(h.gameKey, h.header, h.maxChunkBytes, h.maxChunkTickSpan);
  }

  method HappenEnds(m: TraceManager, h: Happening, ghost p: Plan)
    requires h.Ends?
    requires Follows(m, p)
    requires m.Valid() && m.store.ready && Usable(h) && (h.Begins? ==> h.header.sessionId !in m.store.known)
    modifies m, m.store, m.sessions.Values
    ensures m.Valid() && m.store.ready
    ensures forall k :: k in m.sessions ==> fresh(m.sessions[k]) || (k in old(m.sessions) && m.sessions[k] == old(m.sessions[k]))
    ensures m.store.known.Keys == old(m.store.known.Keys)
         || (h.Begins? && m.store.known.Keys == old(m.store.known.Keys) + {h.header.sessionId})
    ensures Follows(m, Planned(p, h))
  {
    hide TraceManager.Valid, TraceSession.InRange, FileBytes, DecodedFile, History, IsOver, Concluded, IsPlanned, IsDone, AllJudged, Retired, Usable,
         TraceSession.Valid, TraceHistoryStore.Valid, Affordable, Answers;
    m.ValidKeys();
    PlannedKeys(m.scripts, p.open);
    PlannedLess(m.scripts, p.open, h.gameKey);
    if h.gameKey in m.sessions {
      PlannedAt(m.scripts, p.open, h.gameKey);
      ghost var over, script := m.over, m.scripts[h.gameKey];
      var s, end, file, closed, xs := m.EndSession(h.gameKey, h.status, h.endReason, h.endTick, h.now);
      DoneMore(over, p.done, Ended(script, s, end));
    }
  }

  method Happen(m: TraceManager, h: Happening, ghost p: Plan)
    requires Follows(m, p)
    requires m.Valid() && m.store.ready && Usable(h) && (h.Begins? ==> h.header.sessionId !in m.store.known)
    modifies m, m.store, m.sessions.Values
    ensures m.Valid() && m.store.ready
    ensures forall k :: k in m.sessions ==> fresh(m.sessions[k]) || (k in old(m.sessions) && m.sessions[k] == old(m.sessions[k]))
    ensures m.store.known.Keys == old(m.store.known.Keys)
         || (h.Begins? && m.store.known.Keys == old(m.store.known.Keys) + {h.header.sessionId})
    ensures Follows(m, Planned(p, h))
  {
    hide TraceManager.Valid, TraceSession.InRange, FileBytes, DecodedFile, History, Snapshotted,
         SnapshotEnd, Distinct, IsPlanned, IsDone, WellFormedHeader, OnlyOf, Ruled, AllJudged, RegistryAfter, Administered, Retired, Usable,
         TraceSession.Valid, TraceHistoryStore.Valid, Affordable, Answers;
    m.ValidKeys();
    UsableWhat(h);
    PlannedKeys(m.scripts, p.open);
    match h {
      case Begins(_, _, _, _) => HappenBegins(m, h, p);
      case Plays(k, call) =>
        if k in m.sessions {
          PlannedLonger(m.scripts, p.open, k, call);
          var ok := m.Play(k, call);
        }
      case Ends(_, _, _, _, _) => HappenEnds(m, h, p);
      case Snaps(k, now) =>
        if k in m.sessions {
          var file := m.SnapshotBytes(k, now);
        }
      case Administers(step, now) =>
        ghost var w := m.store.Settings();
        var swept := m.Administer(step, now);
        SwitchedOnly(m.store.collates, step, w, old(m.store.recs), m.store.activeSessions, now, swept, m.store.Settings(), m.store.recs);
    }
  }
}
