/**
 * A session, its sink and the history store together: packages/trace/src/runtime/manager.ts,
 * session.ts and historyStore.ts, up to the file that decodes to the recorded events.
 */
module Pipeline {
  import opened Wrappers
  import opened Bytes
  import opened TraceTypes
  import opened Container
  import opened Decoder
  import opened Session
  import opened SessionRuns
  import opened StoreKeys
  import opened StoredSessions
  import opened Retention
  import opened HistoryStore
  import Base64

  /** What can happen while a session is live. */
  datatype Step =
    | Play(call: Call)
    | SwitchOn
    | SwitchOff
    | Limit(maxSessions: Option<int>, maxBytes: Option<int>, maxAgeMs: Option<real>, interval: Option<int>)
    | Timer

  /** The store has what the session handed over. */
  ghost predicate Linked(store: TraceHistoryStore, s: TraceSession, header: SessionHeader)
    reads store, s
  {
    && store.Valid() && s.Valid() && !s.ended && s.sessionId == header.sessionId
    && Tracks(store.recs, store.activeSessions, header, s.chunks)
  }

  ghost predicate Tracks(recs: map<Id, Recorded>, active: set<Id>, header: SessionHeader, chunks: seq<TraceChunk>) {
    header.sessionId in active && header.sessionId in recs && recs[header.sessionId] == Recorded(header, chunks, None)
  }

  /** Whatever happens to the session `id`, every other active session is kept as it was, and of others nothing is told. */
  predicate Undisturbed(
    recs: map<Id, Recorded>, active: set<Id>, known: map<Id, Account>,
    recs': map<Id, Recorded>, active': set<Id>, known': map<Id, Account>, id: Id)
  {
    && (forall other :: other in active && other != id ==> other in active' && other in recs && other in recs' && recs'[other] == recs[other])
    && (forall other :: other in active' && other != id ==> other in active)
    && (forall other :: other in known && other != id ==> other in known' && known'[other] == known[other])
    && (forall other :: other in known' && other != id ==> other in known)
  }

  lemma OthersTracked(
    recs: map<Id, Recorded>, active: set<Id>, known: map<Id, Account>,
    recs': map<Id, Recorded>, active': set<Id>, known': map<Id, Account>, id: Id, header: SessionHeader, chunks: seq<TraceChunk>)
    requires Undisturbed(recs, active, known, recs', active', known', id)
    requires header.sessionId != id && Tracks(recs, active, header, chunks)
    ensures Tracks(recs', active', header, chunks)
  {
  }

  lemma ActiveRuns(store: TraceHistoryStore)
    requires store.Keeps()
    ensures forall other :: other in store.activeSessions ==> other in store.recs && store.recs[other].end.None?
  {
    forall other | other in store.activeSessions
      ensures other in store.recs && store.recs[other].end.None?
    {
      ActiveIsRecorded(store.kv, store.recs, store.activeSessions, other);
    }
  }

  /** Nothing but the chunks of the session `id` and its record has changed. */
  predicate OnlyOf(
    kv: Disk, recs: map<Id, Recorded>, known: map<Id, Account>, kv': Disk, recs': map<Id, Recorded>, known': map<Id, Account>,
    header: SessionHeader, chunks: seq<TraceChunk>)
  {
    && SameElsewhere(kv, kv', header.sessionId)
    && recs' == recs[header.sessionId := Recorded(header, chunks, None)]
    && known' == known[header.sessionId := Account(header, chunks, None, true)]
  }

  lemma OnlyDisturbs(
    kv: Disk, recs: map<Id, Recorded>, known: map<Id, Account>, kv': Disk, recs': map<Id, Recorded>, known': map<Id, Account>,
    header: SessionHeader, chunks: seq<TraceChunk>, active: set<Id>)
    requires OnlyOf(kv, recs, known, kv', recs', known', header, chunks)
    requires (forall other :: other in active ==> other in recs && recs[other].end.None?) && header.sessionId in known
    ensures Undisturbed(recs, active, known, recs', active, known', header.sessionId) && known'.Keys == known.Keys
  {
  }

  lemma ChunkOnly(kv: Disk, kv1: Disk, kv2: Disk, id: Id, index: nat, text: Value, meta: Value)
    requires SameElsewhere(kv, kv1, id) && kv2 == kv1[ChunkKey(id, index) := text][MetaKey(id) := meta]
    ensures SameElsewhere(kv, kv2, id)
  {
  }

  /** The sink gets the chunks that were sealed meanwhile. */
  method Forward(store: TraceHistoryStore, s: TraceSession, ghost header: SessionHeader, from: nat)
    requires store.Valid() && s.Valid() && s.sessionId == header.sessionId && from <= |s.chunks|
    requires Tracks(store.recs, store.activeSessions, header, s.chunks[..from])
    modifies store`kv, store`recs, store`known, store`past
    ensures store.Valid() && old(store.past) <= store.past
    ensures Tracks(store.recs, store.activeSessions, header, s.chunks)
    ensures OnlyOf(old(store.kv), old(store.recs), old(store.known), store.kv, store.recs, store.known, header, s.chunks)
  {
    hide TraceHistoryStore.Keeps, TraceHistoryStore.Ticks, TraceSession.Recorded, Dictionaries.Match, SameElsewhere;
    TrackedIsKnown(store, header, s.chunks[..from]);
    SameDisk(store.kv, header.sessionId);
    for i := from to |s.chunks|
      invariant store.Valid() && old(store.past) <= store.past
      invariant Tracks(store.recs, store.activeSessions, header, s.chunks[..i])
      invariant OnlyOf(old(store.kv), old(store.recs), old(store.known), store.kv, store.recs, store.known, header, s.chunks[..i])
    {
      assert s.chunks[..i + 1] == s.chunks[..i] + [s.chunks[i]];
      ghost var kv := store.kv;
      var ok := store.OnChunk(s.chunks[i]);
      ChunkOnly(old(store.kv), kv, store.kv, header.sessionId, i, ChunkText(Base64.Encoded(s.chunks[i].content)),
                MetaText(store.recs[header.sessionId].Record()));
    }
    assert s.chunks[..|s.chunks|] == s.chunks;
  }

  lemma SameDisk(kv: Disk, id: Id)
    ensures SameElsewhere(kv, kv, id)
  {
  }

  lemma TrackedIsKnown(store: TraceHistoryStore, header: SessionHeader, chunks: seq<TraceChunk>)
    requires store.Keeps() && Tracks(store.recs, store.activeSessions, header, chunks)
    ensures header.sessionId in store.known && store.known[header.sessionId] == Account(header, chunks, None, true)
  {
    ActiveIsOwn(store.recs, store.known, store.activeSessions, header.sessionId);
  }

  /** One step of the game or of the store. */
  method Advance(store: TraceHistoryStore, s: TraceSession, ghost header: SessionHeader, step: Step, ghost r: Registry, now: int)
    returns (ok: bool, ghost swept: Disk)
    requires Linked(store, s, header) && (step.Play? ==> step.call.Proper())
    requires r == Registry(s.names.schemaIds, s.names.nextCustomTypeId)
    modifies store, s
    ensures Linked(store, s, header) && old(store.past) <= store.past
    ensures s.InRange() ==> old(s.InRange())
    ensures step.Play? ==>
      && (ok ==> step.call.Emits() && (step.call.CallCustom? ==> Enter(r, step.call.schema).1.Success?))
      && s.Load() <= old(s.Load()) + Cost(step.call)
      && (s.InRange() ==> Ruled(s, step.call, r, old(s.active), old(s.log), ok))
      && s.log == (if ok then old(s.log) + [Event(step.call, r, |old(s.log)| + 1)] else old(s.log))
      && Registry(s.names.schemaIds, s.names.nextCustomTypeId) == (if step.call.CallCustom? then Enter(r, step.call.schema).0 else r)
      && OnlyOf(old(store.kv), old(store.recs), old(store.known), store.kv, store.recs, store.known, header, s.chunks)
    ensures !step.Play? ==>
      && s.log == old(s.log) && s.names == old(s.names) && s.chunks == old(s.chunks) && s.active == old(s.active)
      && Administered(store.collates, step, old(store.Settings()), old(store.recs), old(store.activeSessions), now, swept,
                      store.Settings(), store.recs)
    ensures Undisturbed(old(store.recs), old(store.activeSessions), old(store.known),
                        store.recs, store.activeSessions, store.known, header.sessionId)
  {
    hide TraceHistoryStore.Valid, TraceSession.Valid, Event, Enter, Undisturbed, Tracks, OnlyOf, Administered, Ruled, TraceSession.InRange;
    ok, swept := false, store.kv;
    if step.Play? {
      ok := PlayCall(store, s, header, step.call, r);
    } else {
      swept := StoreStep(store, step, now);
      StoreStepTracks(old(store.recs), store.recs, store.activeSessions, header, s.chunks);
      StoreStepDisturbs(old(store.recs), store.recs, store.activeSessions, store.known, header.sessionId);
    }
  }

  lemma StoreStepTracks(recs: map<Id, Recorded>, recs': map<Id, Recorded>, active: set<Id>, header: SessionHeader, chunks: seq<TraceChunk>)
    requires Tracks(recs, active, header, chunks) && KeepsActive(recs, recs', active)
    ensures Tracks(recs', active, header, chunks)
  {
  }

  lemma StoreStepDisturbs(recs: map<Id, Recorded>, recs': map<Id, Recorded>, active: set<Id>, known: map<Id, Account>, id: Id)
    requires KeepsActive(recs, recs', active)
    ensures Undisturbed(recs, active, known, recs', active, known, id)
  {
  }

  /** One call of the game, whose chunks go to the store. */
  method PlayCall(store: TraceHistoryStore, s: TraceSession, ghost header: SessionHeader, call: Call, ghost r: Registry) returns (ok: bool)
    requires Linked(store, s, header) && call.Proper()
    requires r == Registry(s.names.schemaIds, s.names.nextCustomTypeId)
    modifies store`kv, store`recs, store`known, store`past, s
    ensures Linked(store, s, header) && old(store.past) <= store.past
    ensures ok ==> call.Emits() && (call.CallCustom? ==> Enter(r, call.schema).1.Success?)
    ensures s.Load() <= old(s.Load()) + Cost(call) && (s.Load() <= MAX_SAFE ==> s.InRange())
    ensures s.InRange() ==> old(s.InRange()) && Ruled(s, call, r, old(s.active), old(s.log), ok)
    ensures s.log == if ok then old(s.log) + [Event(call, r, |old(s.log)| + 1)] else old(s.log)
    ensures Registry(s.names.schemaIds, s.names.nextCustomTypeId) == if call.CallCustom? then Enter(r, call.schema).0 else r
    ensures OnlyOf(old(store.kv), old(store.recs), old(store.known), store.kv, store.recs, store.known, header, s.chunks)
    ensures store.known.Keys == old(store.known.Keys)
    ensures Undisturbed(old(store.recs), old(store.activeSessions), old(store.known),
                        store.recs, store.activeSessions, store.known, header.sessionId)
  {
    hide TraceHistoryStore.Keeps, TraceHistoryStore.Ticks, TraceHistoryStore.Settled, TraceSession.Valid, Event, Enter, Undisturbed,
         TraceSession.InRange, Emittable, NewestTick, Ruled, OnlyOf;
    ActiveRuns(store);
    TrackedIsKnown(store, header, s.chunks);
    var from, sealed := |s.chunks|, s.chunks;
    ok := Perform(s, call, r);
    assert s.chunks[..from] == sealed;
    Forward(store, s, header, from);
    OnlyDisturbs(old(store.kv), old(store.recs), old(store.known), store.kv, store.recs, store.known, header, s.chunks, store.activeSessions);
  }

  /** Active sessions are kept as they are. */
  predicate KeepsActive(recs: map<Id, Recorded>, recs': map<Id, Recorded>, active: set<Id>) {
    forall id :: id in active ==> id in recs && id in recs' && recs'[id] == recs[id]
  }

  lemma EndsKeepActive(recs: map<Id, Recorded>, recs': map<Id, Recorded>, active: set<Id>)
    requires OnlyEnds(recs, recs', active) && (forall id :: id in active ==> id in recs)
    ensures KeepsActive(recs, recs', active)
  {
  }

  /** The limits in force after a step. */
  function Limited(step: Step, o: Options): Options {
    if step.Limit? && Allowed(step) then
      Options(if step.maxSessions.Some? then step.maxSessions.value else o.maxSessions,
              if step.maxBytes.Some? then step.maxBytes.value else o.maxBytes,
              if step.maxAgeMs.Some? then step.maxAgeMs.value else o.maxAgeMs,
              if step.interval.Some? then step.interval.value else o.cleanupIntervalTicks)
    else o
  }

  predicate Allowed(step: Step)
    requires step.Limit?
  {
    Positive(step.maxSessions) && Positive(step.maxBytes) && (step.maxAgeMs.Some? ==> step.maxAgeMs.value > 0.0) && Positive(step.interval)
  }

  /** Whether a step sweeps the store. */
  predicate Sweeps(step: Step, w: Setting) {
    w.ready
    && match step
       case SwitchOn => !w.on
       case Limit(_, _, _, _) => w.on && Allowed(step)
       case Timer => w.on
       case _ => false
  }

  /** What a step of the store does: the switch and the limits, and which sessions it ends and removes. */
  ghost predicate Administered(
    c: Collation, step: Step, w: Setting, recs: map<Id, Recorded>, active: set<Id>, now: int, swept: Disk, w': Setting, recs': map<Id, Recorded>)
  {
    && w'.options == Limited(step, w.options) && w'.ready == w.ready
    && w'.on == (step.SwitchOn? || (w.on && !step.SwitchOff?))
    && w'.choice == (if w.ready && (step.SwitchOn? || step.SwitchOff?) then step.SwitchOn? else w.choice)
    && if Sweeps(step, w) then
         Maintained(c, if step.SwitchOn? then Recovered(recs, active, now) else recs, active, w'.options, now, swept, recs')
       else recs' == recs
  }

  method SetLimits(store: TraceHistoryStore, step: Step, now: int)
    requires store.Valid() && step.Limit?
    modifies store
    ensures store.Valid() && store.activeSessions == old(store.activeSessions) && store.known == old(store.known)
    ensures old(store.past) <= store.past
    ensures Administered(store.collates, step, old(store.Settings()), old(store.recs), store.activeSessions, now, store.kv,
                         store.Settings(), store.recs)
    ensures OnlyEnds(old(store.recs), store.recs, store.activeSessions)
  {
    hide TraceHistoryStore.Keeps, TraceHistoryStore.Ticks, OnlyEnds, Maintained, Recovered, CleanedUp, Choice, PlaysAs;
    ghost var recs0 := store.recs;
    NothingEnds(recs0, store.activeSessions);
    var done := store.Configure(step.maxSessions, step.maxBytes, step.maxAgeMs, step.interval, now);
    if done && store.enabled && store.ready {
      CleanedEnds(store.collates, recs0, store.activeSessions, store.options, now, store.kv, store.recs);
    }
  }

  /** The store is switched, configured or cleaned up. */
  method StoreStep(store: TraceHistoryStore, step: Step, now: int) returns (ghost swept: Disk)
    requires store.Valid() && !step.Play?
    modifies store
    ensures store.Valid() && store.activeSessions == old(store.activeSessions) && store.known == old(store.known)
    ensures old(store.past) <= store.past
    ensures Administered(store.collates, step, old(store.Settings()), old(store.recs), store.activeSessions, now, swept,
                         store.Settings(), store.recs)
    ensures KeepsActive(old(store.recs), store.recs, store.activeSessions)
  {
    hide TraceHistoryStore.Keeps, TraceHistoryStore.Ticks, OnlyEnds, Maintained, Recovered, CleanedUp, KeepsActive, Choice, PlaysAs;
    ghost var recs0 := store.recs;
    ActiveRuns(store);
    NothingEnds(recs0, store.activeSessions);
    swept := store.kv;
    match step {
      case SwitchOn =>
        ghost var was := store.enabled;
        swept := store.Enable(now);
        if !was && store.ready {
          MaintainedEnds(store.collates, recs0, store.activeSessions, store.options, now, swept, store.recs);
        }
      case SwitchOff =>
        store.Disable(now);
      case Limit(_, _, _, _) =>
        SetLimits(store, step, now);
        swept := store.kv;
      case Timer =>
        store.TimerRuns();
        if store.timers != map[] {
          ghost var kv0 := store.kv;
          store.KeepsConsistent();
          store.OnCleanupTimer(now);
          swept := store.kv;
          ItIsMaintained(store.collates, kv0, recs0, store.activeSessions, store.options, now, store.kv, store.recs);
        }
      case _ =>
    }
    EndsKeepActive(recs0, store.recs, store.activeSessions);
  }

  // ---------- what the files say ----------

  /** The beginning of a list of chunks tells the beginning of the log. */
  lemma BeginningTells(chunks: seq<TraceChunk>, log: seq<TraceEvent>, k: nat)
    requires TellsPrefixes(chunks, log) && k <= |chunks|
    ensures TellsPrefixes(chunks[..k], log) && Told(chunks[..k], k) == Told(chunks, k) <= |log|
  {
    hide DecodedChunks;
    assert TellsPrefix(chunks, log, k);
    forall j | 0 <= j <= k ensures TellsPrefix(chunks[..k], log, j) {
      assert TellsPrefix(chunks, log, j);
      assert chunks[..k][..j] == chunks[..j];
    }
  }

  /** A file made of the first chunks, with a footer that counts them, decodes to the first events. */
  lemma PartDecodes(chunks: seq<TraceChunk>, log: seq<TraceEvent>, part: seq<TraceChunk>, header: SessionHeader, end: SessionEnd)
    requires TellsPrefixes(chunks, log) && part <= chunks && WellFormedHeader(header)
    requires end.sessionId == header.sessionId && end.eventCount == Told(part, |part|)
    requires FileBytes(header, Contents(part), end).Success?
    ensures Told(part, |part|) <= |log|
    ensures DecodedFile(FileBytes(header, Contents(part), end).value)
         == Success(DecodedTrace(header, end, log[..Told(part, |part|)]))
  {
    hide TellsPrefixes, FileBytes, DecodedFile;
    assert part == chunks[..|part|];
    BeginningTells(chunks, log, |part|);
    FileDecodes(part, log, header, end);
  }

  /**
   * `snapshotBytes`: flush, then read out. The snapshot of a running session decodes to
   * exactly the events accepted so far.
   */
  method Snapshot(store: TraceHistoryStore, s: TraceSession, ghost header: SessionHeader, now: int) returns (file: Result<bytes>)
    requires Linked(store, s, header) && WellFormedHeader(header)
    modifies store`kv, store`recs, store`known, store`past, s
    ensures Linked(store, s, header) && s.log == old(s.log) && s.names == old(s.names) && old(store.past) <= store.past
    ensures s.Load() == old(s.Load()) && (s.Load() <= MAX_SAFE ==> s.InRange()) && (s.InRange() ==> old(s.InRange()))
    ensures var end := SnapshotEnd(Recorded(header, s.chunks, None), now);
      && file == FileBytes(header, Contents(s.chunks), end)
      && (file.Success? <==> WritableFile(header, Contents(s.chunks), end))
      && (file.Success? && s.InRange() ==> DecodedFile(file.value) == Success(DecodedTrace(header, end, s.log)))
    ensures OnlyOf(old(store.kv), old(store.recs), old(store.known), store.kv, store.recs, store.known, header, s.chunks)
    ensures store.known.Keys == old(store.known.Keys)
    ensures Undisturbed(old(store.recs), old(store.activeSessions), old(store.known),
                        store.recs, store.activeSessions, store.known, header.sessionId)
  {
    hide TraceHistoryStore.Keeps, TraceHistoryStore.Ticks, TraceHistoryStore.Settled, TraceSession.Valid, FileBytes, WritableFile, DecodedFile,
         Undisturbed, SnapshotEnd, ReadBack, OnlyOf;
    ActiveRuns(store);
    TrackedIsKnown(store, header, s.chunks);
    var from, sealed := |s.chunks|, s.chunks;
    s.Flush();
    InRangeIfLight(s);
    assert s.chunks[..from] == sealed;
    Forward(store, s, header, from);
    OnlyDisturbs(old(store.kv), old(store.recs), old(store.known), store.kv, store.recs, store.known, header, s.chunks, store.activeSessions);
    file := store.ToSnapshotBytes(s.sessionId, now);
    ghost var end := SnapshotEnd(store.recs[header.sessionId], now);
    SnapshotCounts(header, s.chunks, now);
    FileExists(header, Contents(s.chunks), end);
    if file.Success? && s.InRange() {
      AllDecodes(s, header, end);
    }
  }

  lemma SnapshotCounts(header: SessionHeader, chunks: seq<TraceChunk>, now: int)
    ensures var rec := Recorded(header, chunks, None);
      && ReadBack(rec) == chunks && SnapshotEnd(rec, now).chunkCount == |chunks|
      && SnapshotEnd(rec, now).sessionId == header.sessionId && SnapshotEnd(rec, now).eventCount == Told(chunks, |chunks|)
  {
  }

  /** The session ends, and its last chunk goes to the store. */
  method LastChunks(
    store: TraceHistoryStore, s: TraceSession, ghost header: SessionHeader,
    status: Status, endReason: Option<HostString>, endTick: int, now: int) returns (end: SessionEnd)
    requires Linked(store, s, header)
    modifies store`kv, store`recs, store`known, store`past, s
    ensures store.Valid() && s.Valid() && s.ended && s.log == old(s.log) && s.sessionId == header.sessionId
    ensures s.Load() == old(s.Load()) && (s.Load() <= MAX_SAFE ==> s.InRange()) && (s.InRange() ==> old(s.InRange()))
    ensures end.status == status && end.endTick == endTick && end.endWallTime == now && end.sessionId == header.sessionId
    ensures end.eventCount == |s.log| == Told(s.chunks, |s.chunks|) && end.chunkCount == |s.chunks|
    ensures Tracks(store.recs, store.activeSessions, header, s.chunks) && old(store.past) <= store.past
    ensures OnlyOf(old(store.kv), old(store.recs), old(store.known), store.kv, store.recs, store.known, header, s.chunks)
    ensures store.known.Keys == old(store.known.Keys)
    ensures Undisturbed(old(store.recs), old(store.activeSessions), old(store.known),
                        store.recs, store.activeSessions, store.known, header.sessionId)
  {
    hide TraceHistoryStore.Keeps, TraceHistoryStore.Ticks, TraceHistoryStore.Settled, TraceSession.Valid, Undisturbed, Told, OnlyOf;
    var from, sealed := |s.chunks|, s.chunks;
    ActiveRuns(store);
    TrackedIsKnown(store, header, s.chunks);
    end := s.End(status, endReason, endTick, now);
    InRangeIfLight(s);
    assert s.chunks[..from] == sealed;
    Forward(store, s, header, from);
    OnlyDisturbs(old(store.kv), old(store.recs), old(store.known), store.kv, store.recs, store.known, header, s.chunks, store.activeSessions);
  }

  /**
   * The end of a session. It is still stored exactly if its record is among the survivors of
   * the cleanup that follows, and then it reads back in full.
   */
  method Finish(
    store: TraceHistoryStore, s: TraceSession, ghost header: SessionHeader,
    status: Status, endReason: Option<HostString>, endTick: int, now: int)
    returns (end: SessionEnd, file: Result<bytes>, ghost closed: Disk, ghost xs: seq<Meta>)
    requires Linked(store, s, header) && WellFormedHeader(header)
    modifies store`kv, store`recs, store`known, store`past, store`activeSessions, s
    ensures store.Valid() && s.Valid() && s.ended && s.log == old(s.log)
    ensures s.Load() == old(s.Load()) && (s.Load() <= MAX_SAFE ==> s.InRange()) && (s.InRange() ==> old(s.InRange()))
    ensures store.activeSessions == old(store.activeSessions) - {header.sessionId}
    ensures end.status == status && end.endTick == endTick && end.endWallTime == now && end.sessionId == header.sessionId
    ensures end.eventCount == |s.log| && end.chunkCount == |s.chunks|
    ensures store.known == old(store.known)[header.sessionId := Account(header, s.chunks, Some(end), true)] && Accounts(store, s, header)
    ensures Retired(store.collates, old(store.kv), old(store.recs), store.activeSessions, header, s.chunks, end, closed, xs,
                    store.options, now, store.kv, store.recs)
    ensures old(store.past) <= store.past
    ensures Moment(closed, EndedAs(old(store.recs), header, s.chunks, end)) in store.past[|old(store.past)|..]
    ensures file == if header.sessionId in store.recs then FileBytes(header, Contents(s.chunks), end) else Failure
    ensures file.Success? <==> header.sessionId in store.recs && WritableFile(header, Contents(s.chunks), end)
    ensures file.Success? && s.InRange() ==> DecodedFile(file.value) == Success(DecodedTrace(header, end, s.log))
    ensures store.known.Keys == old(store.known.Keys)
    ensures Undisturbed(old(store.recs), old(store.activeSessions), old(store.known),
                        store.recs, store.activeSessions, store.known, header.sessionId)
  {
    hide TraceHistoryStore.Keeps, TraceHistoryStore.Ticks, TraceHistoryStore.Settled, TraceSession.Valid, Consistent, FileBytes, WritableFile,
         DecodedFile, CleanedUp, Undisturbed, ReadBack, Candidates, Survivors, Recorded.Record, Told, OnlyOf, SameElsewhere, Retired;
    end := LastChunks(store, s, header, status, endReason, endTick, now);
    ghost var kv0, recs0, known0, active0 := old(store.kv), old(store.recs), old(store.known), store.activeSessions;
    ghost var kv1, recs1, known1, past1 := store.kv, store.recs, store.known, store.past;
    TrackedIsKnown(store, header, s.chunks);
    ActiveRuns(store);
    closed := store.OnSessionEnd(end, now);
    ghost var rec := Recorded(header, s.chunks, Some(end));
    ghost var recs2 := EndedAs(recs0, header, s.chunks, end);
    EndsThere(kv0, recs0, known0, kv1, recs1, known1, header, s.chunks, end, closed);
    assert past1 + [Moment(closed, recs2)] <= store.past && store.past[|past1|] == Moment(closed, recs2);
    xs := KeptExactly(store.collates, closed, recs2, store.activeSessions, store.options, now, store.kv, store.recs, header.sessionId);
    EndDisturbsNobody(store.collates, closed, recs1, recs2, active0, known1, store.options, now, store.kv, store.recs, store.known, header.sessionId);
    DisturbedTwice(recs0, active0, known0, recs1, active0, known1,
                   store.recs, store.activeSessions, store.known, header.sessionId);
    ItIsRetired(store.collates, kv0, recs0, store.activeSessions, header, s.chunks, end, closed, xs, store.options, now, store.kv, store.recs);
    ReadsBackAll(rec);
    file := store.ToBytes(s.sessionId);
    FileExists(header, Contents(s.chunks), end);
    if file.Success? && s.InRange() {
      AllDecodes(s, header, end);
    }
  }

  /** The file of all chunks decodes to the whole log. */
  lemma AllDecodes(s: TraceSession, header: SessionHeader, end: SessionEnd)
    requires s.Valid() && s.InRange() && WellFormedHeader(header) && Told(s.chunks, |s.chunks|) == |s.log|
    requires end.sessionId == header.sessionId && end.eventCount == |s.log| && FileBytes(header, Contents(s.chunks), end).Success?
    ensures DecodedFile(FileBytes(header, Contents(s.chunks), end).value) == Success(DecodedTrace(header, end, s.log))
  {
    hide Counted, FileBytes, DecodedFile, Dictionaries.Match;
    PartDecodes(s.chunks, s.log, s.chunks, header, end);
    assert s.log[..|s.log|] == s.log;
  }

  /** The records once the session has its footer, before the cleanup. */
  function EndedAs(recs: map<Id, Recorded>, header: SessionHeader, chunks: seq<TraceChunk>, end: SessionEnd): map<Id, Recorded> {
    recs[header.sessionId := Recorded(header, chunks, Some(end))]
  }

  /**
   * The disk `closed` holds these records and other sessions as before. What the cleanup then
   * leaves is decided by the survivors among its candidates `xs`, the ended session included.
   */
  ghost predicate Retired(
    c: Collation, kv: Disk, recs: map<Id, Recorded>, active: set<Id>, header: SessionHeader, chunks: seq<TraceChunk>, end: SessionEnd,
    closed: Disk, xs: seq<Meta>, o: Options, now: int, kv': Disk, recs': map<Id, Recorded>)
  {
    && Consistent(closed, EndedAs(recs, header, chunks, end), active) && SameElsewhere(kv, closed, header.sessionId)
    && CleanedUp(c, closed, EndedAs(recs, header, chunks, end), active, o, now, kv', recs')
    && Candidates(c, closed, active, xs)
    && var rec := Recorded(header, chunks, Some(end));
       && (header.sessionId in recs' <==> rec.Record() in Survivors(xs, o, now))
       && (header.sessionId in recs' ==> recs'[header.sessionId] == rec)
  }

  lemma ItIsRetired(
    c: Collation, kv: Disk, recs: map<Id, Recorded>, active: set<Id>, header: SessionHeader, chunks: seq<TraceChunk>, end: SessionEnd,
    closed: Disk, xs: seq<Meta>, o: Options, now: int, kv': Disk, recs': map<Id, Recorded>)
    requires Consistent(closed, EndedAs(recs, header, chunks, end), active) && SameElsewhere(kv, closed, header.sessionId)
    requires CleanedUp(c, closed, EndedAs(recs, header, chunks, end), active, o, now, kv', recs') && Candidates(c, closed, active, xs)
    requires var rec := Recorded(header, chunks, Some(end));
      && (header.sessionId in recs' <==> rec.Record() in Survivors(xs, o, now))
      && (header.sessionId in recs' ==> recs'[header.sessionId] == rec)
    ensures Retired(c, kv, recs, active, header, chunks, end, closed, xs, o, now, kv', recs')
  {
  }

  lemma EndsThere(
    kv: Disk, recs: map<Id, Recorded>, known: map<Id, Account>, kv1: Disk, recs1: map<Id, Recorded>, known1: map<Id, Account>,
    header: SessionHeader, chunks: seq<TraceChunk>, end: SessionEnd, closed: Disk)
    requires OnlyOf(kv, recs, known, kv1, recs1, known1, header, chunks)
    requires var rec := Recorded(header, chunks, Some(end)); closed == kv1[MetaKey(header.sessionId) := MetaText(rec.Record())]
    ensures header.sessionId in recs1 && header.sessionId in known1
    ensures recs1[header.sessionId := recs1[header.sessionId].(end := Some(end))] == EndedAs(recs, header, chunks, end)
    ensures known1[header.sessionId := known1[header.sessionId].(end := Some(end))] == known[header.sessionId := Account(header, chunks, Some(end), true)]
    ensures SameElsewhere(kv, closed, header.sessionId)
  {
  }

  /** A session that has ended survives a cleanup exactly if its record does, and then unchanged. */
  lemma KeptExactly(
    c: Collation, kv: Disk, recs: map<Id, Recorded>, active: set<Id>, o: Options, now: int, kv': Disk, recs': map<Id, Recorded>, id: Id)
    returns (xs: seq<Meta>)
    requires Consistent(kv, recs, active) && CleanedUp(c, kv, recs, active, o, now, kv', recs')
    requires id in recs && id !in active && recs[id].end.Some?
    ensures Candidates(c, kv, active, xs)
    ensures id in recs' <==> recs[id].Record() in Survivors(xs, o, now)
    ensures id in recs' ==> recs'[id] == recs[id]
  {
    hide Without, Before;
    xs := CleanedList(c, kv, recs, active, o, now, kv', recs');
    RecordOf(kv, recs, active, id);
    var m := recs[id].Record();
    assert Stored(kv, m) && m in xs;
    LongestPrefix(xs, o, now, 0);
    SurvivorsListed(xs, o, now);
    forall m' | m' in Survivors(xs, o, now) && m'.header.sessionId == id
      ensures m' == m
    {
      SameId(xs, m, m');
    }
  }

  lemma SurvivorsListed(xs: seq<Meta>, o: Options, now: int)
    ensures forall m :: m in Survivors(xs, o, now) ==> m in xs
  {
    LongestPrefix(xs, o, now, 0);
    UnexpiredListed(xs, now, o.maxAgeMs);
  }

  lemma {:induction false} UnexpiredListed(xs: seq<Meta>, now: int, maxAgeMs: real)
    ensures forall m :: m in Unexpired(xs, now, maxAgeMs) ==> m in xs
  {
    if xs != [] {
      UnexpiredListed(xs[1..], now, maxAgeMs);
    }
  }

  lemma SameId(xs: seq<Meta>, m: Meta, m': Meta)
    requires DistinctIds(xs) && m in xs && m' in xs && m.header.sessionId == m'.header.sessionId
    ensures m == m'
  {
  }

  lemma EndDisturbsNobody(
    c: Collation, closed: Disk, recs1: map<Id, Recorded>, recs2: map<Id, Recorded>, active: set<Id>, known: map<Id, Account>,
    o: Options, now: int, kv: Disk, recs: map<Id, Recorded>, known': map<Id, Account>, id: Id)
    requires (forall other :: other in active ==> other in recs1 && recs1[other].end.None?) && id in active
    requires id in recs1 && id in known && id in recs2 && recs2 == recs1[id := recs2[id]]
    requires Consistent(closed, recs2, active - {id}) && CleanedUp(c, closed, recs2, active - {id}, o, now, kv, recs)
    requires id in known' && known' == known[id := known'[id]]
    ensures Undisturbed(recs1, active, known, recs, active - {id}, known', id)
  {
    hide CleanedUp, Consistent, Maintained;
    assert Maintained(c, recs2, active - {id}, o, now, kv, recs) by { ItIsMaintained(c, closed, recs2, active - {id}, o, now, kv, recs); }
    CleanedEnds(c, recs2, active - {id}, o, now, kv, recs);
  }

  lemma ItIsMaintained(c: Collation, kv1: Disk, recs1: map<Id, Recorded>, active: set<Id>, o: Options, now: int, kv: Disk, recs: map<Id, Recorded>)
    requires Consistent(kv1, recs1, active) && CleanedUp(c, kv1, recs1, active, o, now, kv, recs)
    ensures Maintained(c, recs1, active, o, now, kv, recs)
  {
    hide Consistent, CleanedUp;
  }

  lemma DisturbedTwice(
    recs: map<Id, Recorded>, active: set<Id>, known: map<Id, Account>,
    recs': map<Id, Recorded>, active': set<Id>, known': map<Id, Account>,
    recs'': map<Id, Recorded>, active'': set<Id>, known'': map<Id, Account>, id: Id)
    requires Undisturbed(recs, active, known, recs', active', known', id)
    requires Undisturbed(recs', active', known', recs'', active'', known'', id)
    ensures Undisturbed(recs, active, known, recs'', active'', known'', id)
  {
  }

  // ---------- crashes ----------

  /**
   * A new store over what a crash left, enabled: every leftover running session is now
   * interrupted with the chunks whose record was written, unless retention removed it.
   */
  method Restart(collates: Collation, options: Options, disk: Disk, ghost left: map<Id, Recorded>, now: int)
    returns (store: TraceHistoryStore, ghost swept: Disk)
    requires Collates(collates) && Consistent(disk, left, {})
    ensures store.Valid() && store.enabled && store.activeSessions == {}
    ensures forall id :: id in store.recs ==> id in left && store.recs[id] == Recovered(left, {}, now)[id]
    ensures Maintained(collates, Recovered(left, {}, now), {}, options, now, swept, store.recs)
  {
    hide TraceHistoryStore.Valid, Consistent, Recovered, Maintained;
    store := new TraceHistoryStore(collates, options, disk, true, left);
    swept := store.Enable(now);
    MaintainedKeeps(collates, Recovered(left, {}, now), {}, options, now, swept, store.recs);
    SameSessions(left, {}, now);
  }

  lemma SameSessions(recs: map<Id, Recorded>, active: set<Id>, now: int)
    ensures Recovered(recs, active, now).Keys == recs.Keys
  {
  }

  lemma MaintainedKeeps(
    c: Collation, recs: map<Id, Recorded>, active: set<Id>, o: Options, now: int, kv: Disk, recs': map<Id, Recorded>)
    requires Maintained(c, recs, active, o, now, kv, recs')
    ensures forall id :: id in recs' ==> id in recs && recs'[id] == recs[id]
  {
    hide Candidates, Without, Gone, Consistent;
    var kv1 :| CleanedUp(c, kv1, recs, active, o, now, kv, recs');
    var _ := CleanedList(c, kv1, recs, active, o, now, kv, recs');
  }

  /** The store was told what the session handed over, and if it was told its end, that is all there is. */
  ghost predicate Accounts(store: TraceHistoryStore, s: TraceSession, header: SessionHeader)
    reads store, s
  {
    && store.Valid() && s.Valid() && header.sessionId in store.known
    && var a := store.known[header.sessionId];
    && a.own && a.header == header && a.chunks == s.chunks
    && (a.end.Some? ==>
          && a.end.value.sessionId == header.sessionId && a.end.value.chunkCount == |s.chunks|
          && a.end.value.eventCount == |s.log| == Told(s.chunks, |s.chunks|))
  }

  lemma LinkedAccounts(store: TraceHistoryStore, s: TraceSession, header: SessionHeader)
    requires Linked(store, s, header)
    ensures Accounts(store, s, header)
  {
    hide TraceHistoryStore.Keeps, TraceHistoryStore.Ticks, TraceHistoryStore.Settled, TraceSession.Valid;
    TrackedIsKnown(store, header, s.chunks);
  }

  /** What a crash makes of a session of which this was kept. */
  function Comeback(rec: Recorded, now: int): SessionEnd {
    if rec.end.Some? then rec.end.value else Interruption(rec, now)
  }

  /**
   * Whenever the process stops after a write, be it before the session starts, while it is live,
   * at its end or later, the disk is one of `store.past`. From the moment of its start on the
   * session is there until it is removed after its end, and of its chunks none is lost from one
   * moment to a later one. After recovery it reads back with the chunks whose record was written,
   * as an interrupted one unless its footer was, and its file decodes to the events of these
   * chunks, a prefix of those accepted, and to all of them once the footer was written.
   */
  lemma CrashLeavesAPrefix(store: TraceHistoryStore, s: TraceSession, header: SessionHeader, i: nat, now: int)
    returns (start: nat, stop: nat)
    requires Accounts(store, s, header) && s.InRange() && WellFormedHeader(header) && i < |store.past|
    ensures Spans(store.past, header.sessionId, header, start, stop)
    ensures stop == |store.past| <==> header.sessionId in store.recs
    ensures Linked(store, s, header) ==> stop == |store.past|
    ensures Consistent(store.past[i].kv, store.past[i].recs, {})
    ensures header.sessionId in store.past[i].recs <==> start <= i < stop
    ensures start <= i < stop ==> ComesBack(store.past[i].recs, s, header, now)
  {
    hide TraceHistoryStore.Ticks, TraceHistoryStore.Settled, TraceSession.Valid, Consistent, PastOf, Later, ComesBack, AsTold, OwnRun;
    start, stop := Lifetime(store.past, store.known, header.sessionId);
    if start <= i < stop {
      KeptComesBack(store, s, header, i, now);
    }
  }

  /** The session reads back as a prefix of what it was. */
  ghost predicate ComesBack(recs: map<Id, Recorded>, s: TraceSession, header: SessionHeader, now: int)
    requires header.sessionId in recs
    reads s
  {
    var rec := recs[header.sessionId];
    var end := Comeback(rec, now);
    && rec.header == header && rec.chunks <= s.chunks && Told(rec.chunks, |rec.chunks|) <= |s.log|
    && (rec.end.Some? ==> rec.chunks == s.chunks && Told(rec.chunks, |rec.chunks|) == |s.log|)
    && end.chunkCount == |rec.chunks|
    && Recovered(recs, {}, now)[header.sessionId] == Recorded(header, rec.chunks, Some(end))
    && (FileBytes(header, Contents(rec.chunks), end).Success? <==> WritableFile(header, Contents(rec.chunks), end))
    && (FileBytes(header, Contents(rec.chunks), end).Success? ==>
          DecodedFile(FileBytes(header, Contents(rec.chunks), end).value)
          == Success(DecodedTrace(header, end, s.log[..Told(rec.chunks, |rec.chunks|)])))
  }

  lemma KeptComesBack(store: TraceHistoryStore, s: TraceSession, header: SessionHeader, i: nat, now: int)
    requires Accounts(store, s, header) && s.InRange() && WellFormedHeader(header)
    requires i < |store.past| && header.sessionId in store.past[i].recs
    ensures ComesBack(store.past[i].recs, s, header, now)
  {
    hide TraceHistoryStore.Ticks, TraceHistoryStore.Settled, Counted, Consistent, FileBytes, WritableFile, DecodedFile, Dictionaries.Match,
         TellsPrefixes, Succeeds;
    var rec := store.past[i].recs[header.sessionId];
    assert BeginsAs(rec, store.known[header.sessionId]);
    BeginningTells(s.chunks, s.log, |rec.chunks|);
    assert rec.chunks == s.chunks[..|rec.chunks|];
    var end := Comeback(rec, now);
    FileExists(header, Contents(rec.chunks), end);
    if FileBytes(header, Contents(rec.chunks), end).Success? {
      PartDecodes(s.chunks, s.log, rec.chunks, header, end);
    }
  }

  /**
   * A crash and what comes after it: a new store over any disk of the past is enabled and asked
   * for the session. Unless retention removed it, its file decodes to a prefix of its events.
   */
  method Reopen(
    collates: Collation, options: Options, disk: Disk, id: Id, now: int,
    ghost before: TraceHistoryStore, ghost s: TraceSession, ghost header: SessionHeader, ghost i: nat)
    returns (store: TraceHistoryStore, file: Result<bytes>, ghost recovered: Disk, ghost xs: seq<Meta>)
    requires Collates(collates) && Accounts(before, s, header) && s.InRange() && WellFormedHeader(header)
    requires i < |before.past| && disk == before.past[i].kv && id == header.sessionId
    ensures store.Valid() && store.enabled && store.activeSessions == {}
    ensures Consistent(recovered, Recovered(before.past[i].recs, {}, now), {}) && Candidates(collates, recovered, {}, xs)
    ensures id !in before.past[i].recs ==> file == Failure
    ensures id in before.past[i].recs ==>
      var rec := before.past[i].recs[id];
      var end := Comeback(rec, now);
      && rec.chunks <= s.chunks && Told(rec.chunks, |rec.chunks|) <= |s.log| && (rec.end.Some? ==> Told(rec.chunks, |rec.chunks|) == |s.log|)
      && (id in store.recs <==> Recorded(header, rec.chunks, Some(end)).Record() in Survivors(xs, options, now))
      && (file.Success? <==> id in store.recs && WritableFile(header, Contents(rec.chunks), end))
      && (file.Success? ==> DecodedFile(file.value) == Success(DecodedTrace(header, end, s.log[..Told(rec.chunks, |rec.chunks|)])))
  {
    hide TraceHistoryStore.Keeps, TraceHistoryStore.Ticks, TraceHistoryStore.Settled, TraceSession.Valid, Consistent, Recovered, Maintained, CleanedUp,
         Candidates, Survivors, Recorded.Record, FileBytes, WritableFile, DecodedFile, ReadBack, Comeback, Told;
    ghost var left := before.past[i].recs;
    ghost var swept;
    MomentsHold(before, i);
    store, swept := Restart(collates, options, disk, left, now);
    recovered := Swept(collates, Recovered(left, {}, now), options, now, swept, store.recs);
    SameSessions(left, {}, now);
    if id in left {
      KeptComesBack(before, s, header, i, now);
      ghost var rec := left[id];
      ghost var end := Comeback(rec, now);
      xs := KeptExactly(collates, recovered, Recovered(left, {}, now), {}, options, now, swept, store.recs, id);
      ReadsBackAll(Recorded(header, rec.chunks, Some(end)));
    } else {
      xs := CleanedList(collates, recovered, Recovered(left, {}, now), {}, options, now, swept, store.recs);
    }
    file := store.ToBytes(id);
  }

  lemma MomentsHold(store: TraceHistoryStore, i: nat)
    requires store.Valid() && i < |store.past|
    ensures Consistent(store.past[i].kv, store.past[i].recs, {})
  {
    hide Consistent, PastOf;
  }

  lemma Swept(c: Collation, recs: map<Id, Recorded>, o: Options, now: int, kv: Disk, recs': map<Id, Recorded>) returns (kv1: Disk)
    requires Maintained(c, recs, {}, o, now, kv, recs')
    ensures Consistent(kv1, recs, {}) && CleanedUp(c, kv1, recs, {}, o, now, kv, recs')
  {
    hide Consistent, CleanedUp;
    kv1 :| Consistent(kv1, recs, {}) && CleanedUp(c, kv1, recs, {}, o, now, kv, recs');
  }
}
