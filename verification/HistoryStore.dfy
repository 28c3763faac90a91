/**
 * `TraceHistoryStore` of packages/trace/src/runtime/historyStore.ts over a key-value store,
 * a scheduler and a readiness gate. The ghost field `recs` is what the store has accepted and
 * still keeps, `known` what it was ever told, and `past` lists every content of the key-value
 * store at which a crash can find it.
 */
module HistoryStore {
  import opened Wrappers
  import opened Bytes
  import opened TraceTypes
  import opened Container
  import opened StoreKeys
  import opened StoredSessions
  import opened Retention
  import opened Session
  import opened Sorting
  import opened Base64
  import RetentionRule

  /** A callback that waits for the world to be ready. */
  datatype Pending = Persist(on: bool) | Restore | Maintain(token: nat)

  datatype Moment = Moment(kv: Disk, recs: map<Id, Recorded>)

  ghost predicate AllRecoverable(past: seq<Moment>) {
    forall i :: 0 <= i < |past| ==> Consistent(past[i].kv, past[i].recs, {})
  }

  /** All that was ever told about a session; `own` if it started here and not in an earlier run. */
  datatype Account = Account(header: SessionHeader, chunks: seq<TraceChunk>, end: Option<SessionEnd>, own: bool)

  /**
   * The moments in their order: every session that was ever told about was kept at some time,
   * and what was kept of it is the beginning of what was told.
   */
  ghost predicate PastOf(past: seq<Moment>, known: map<Id, Account>) {
    && Beginnings(past, known)
    && (forall id :: past != [] && id in past[0].recs ==> id in known && !known[id].own)
    && (forall j :: 0 < j < |past| ==> Succeeds(past, j, known))
    && (forall id :: id in known ==> exists i :: 0 <= i < |past| && id in past[i].recs)
  }

  /** What was kept of a session at any time is the beginning of what was told, and all of it once it had its end. */
  ghost predicate Beginnings(past: seq<Moment>, known: map<Id, Account>) {
    forall i, id :: 0 <= i < |past| && id in past[i].recs ==> id in known && BeginsAs(past[i].recs[id], known[id])
  }

  /**
   * From one moment to the next nothing that was kept of a session is lost unless the session
   * goes, one that started here does not go before it has its end, and none comes back.
   */
  ghost predicate Succeeds(past: seq<Moment>, j: nat, known: map<Id, Account>)
    requires 0 < j < |past|
  {
    var before, after := past[j - 1].recs, past[j].recs;
    && (forall id :: id in before && id in after ==> Later(before[id], after[id]))
    && (forall id :: id in before && id !in after ==> MayGo(before[id], known, id))
    && (forall id :: id in after && id !in before ==> after[id] == Recorded(after[id].header, [], None) && Unheard(past[..j], id))
  }

  predicate Later(rec: Recorded, rec': Recorded) {
    rec'.header == rec.header && rec.chunks <= rec'.chunks && (rec.end.Some? ==> rec' == rec)
  }

  predicate MayGo(rec: Recorded, known: map<Id, Account>, id: Id) {
    id in known && (known[id].own ==> rec.end.Some?)
  }

  predicate Unheard(past: seq<Moment>, id: Id) { forall i :: 0 <= i < |past| ==> id !in past[i].recs }

  predicate BeginsAs(rec: Recorded, a: Account) {
    && rec.header == a.header && rec.chunks <= a.chunks
    && (a.own && rec.end.Some? ==> rec.chunks == a.chunks && rec.end == a.end)
  }

  /** What is kept of a session is all that was told, but that recovery ends those of an earlier run. */
  ghost predicate AsTold(recs: map<Id, Recorded>, known: map<Id, Account>) {
    forall id :: id in recs ==>
      && id in known && recs[id].header == known[id].header && recs[id].chunks == known[id].chunks
      && (known[id].own ==> recs[id].end == known[id].end)
  }

  /** The active sessions are those that started here and have no end. */
  ghost predicate OwnRun(recs: map<Id, Recorded>, known: map<Id, Account>, active: set<Id>) {
    && (forall id :: id in recs && id in known && known[id].own && recs[id].end.None? ==> id in active)
    && (forall id :: id in active ==> id in recs && id in known && known[id].own && known[id].end.None?)
  }

  /** What an earlier run left. */
  function LeftBehind(left: map<Id, Recorded>): map<Id, Account> {
    map id | id in left :: Account(left[id].header, left[id].chunks, left[id].end, false)
  }

  lemma FirstMoment(disk: Disk, left: map<Id, Recorded>)
    requires Consistent(disk, left, {})
    ensures PastOf([Moment(disk, left)], LeftBehind(left)) && AllRecoverable([Moment(disk, left)])
    ensures AsTold(left, LeftBehind(left)) && OwnRun(left, LeftBehind(left), {})
  {
    hide Consistent;
    assert [Moment(disk, left)][0].recs == left;
  }

  lemma GoneForGood(past: seq<Moment>, known: map<Id, Account>, id: Id, i: nat, j: nat, k: nat)
    requires PastOf(past, known) && i <= j <= k < |past| && id in past[i].recs && id !in past[j].recs
    ensures id !in past[k].recs
    decreases k
  {
    hide MayGo, Later;
    if j < k {
      GoneForGood(past, known, id, i, j, k - 1);
      assert Succeeds(past, k, known);
      assert past[..k][i] == past[i];
    }
  }

  lemma {:induction false} NothingLost(past: seq<Moment>, known: map<Id, Account>, id: Id, i: nat, j: nat)
    requires PastOf(past, known) && i <= j < |past| && id in past[i].recs && id in past[j].recs
    ensures Later(past[i].recs[id], past[j].recs[id])
    decreases j
  {
    hide MayGo;
    if i < j {
      if id !in past[j - 1].recs {
        GoneForGood(past, known, id, i, j - 1, j);
        assert false;
      }
      NothingLost(past, known, id, i, j - 1);
      assert Succeeds(past, j, known);
    }
  }

  /** The first moment of a session is before or at any other of its moments. */
  lemma {:induction false} FirstKept(past: seq<Moment>, id: Id, i: nat) returns (start: nat)
    requires i < |past| && id in past[i].recs
    ensures start <= i && id in past[start].recs && forall j :: 0 <= j < start ==> id !in past[j].recs
  {
    start := 0;
    while id !in past[start].recs
      invariant start <= i && forall j :: 0 <= j < start ==> id !in past[j].recs
      decreases i - start
    {
      start := start + 1;
    }
  }

  lemma {:induction false} LastKept(past: seq<Moment>, known: map<Id, Account>, id: Id, start: nat) returns (stop: nat)
    requires PastOf(past, known) && start < |past| && id in past[start].recs
    ensures start < stop <= |past| && (forall j :: start <= j < stop ==> id in past[j].recs)
    ensures forall j :: stop <= j < |past| ==> id !in past[j].recs
  {
    hide PastOf;
    stop := start + 1;
    while stop < |past| && id in past[stop].recs
      invariant start < stop <= |past| && forall j :: start <= j < stop ==> id in past[j].recs
    {
      stop := stop + 1;
    }
    forall j | stop <= j < |past| ensures id !in past[j].recs {
      GoneForGood(past, known, id, start, stop, j);
    }
  }

  /**
   * The session is on the disk from the moment of its start on, first without a chunk, and no
   * chunk of it is lost; if it goes, then for good and not before it had its end.
   */
  ghost predicate Spans(past: seq<Moment>, id: Id, header: SessionHeader, start: nat, stop: nat) {
    && 0 < start < stop <= |past|
    && (forall i :: 0 <= i < |past| ==> (id in past[i].recs <==> start <= i < stop))
    && past[start].recs[id] == Recorded(header, [], None)
    && (forall i, j :: start <= i <= j < stop ==> Later(past[i].recs[id], past[j].recs[id]))
    && (stop < |past| ==> past[stop - 1].recs[id].end.Some?)
  }

  /** Every session that started here has such a time. */
  lemma Lifetime(past: seq<Moment>, known: map<Id, Account>, id: Id) returns (start: nat, stop: nat)
    requires PastOf(past, known) && id in known && known[id].own
    ensures Spans(past, id, known[id].header, start, stop)
  {
    hide Later, BeginsAs;
    var some :| 0 <= some < |past| && id in past[some].recs;
    start := FirstKept(past, id, some);
    stop := LastKept(past, known, id, start);
    assert Succeeds(past, start, known);
    BeginningOf(past, known, id, start);
    forall i, j | start <= i <= j < stop ensures Later(past[i].recs[id], past[j].recs[id]) {
      NothingLost(past, known, id, i, j);
    }
    if stop < |past| {
      assert Succeeds(past, stop, known);
      assert MayGo(past[stop - 1].recs[id], known, id);
    }
  }

  lemma BeginningOf(past: seq<Moment>, known: map<Id, Account>, id: Id, i: nat)
    requires Beginnings(past, known) && i < |past| && id in past[i].recs
    ensures id in known && past[i].recs[id].header == known[id].header
  {
    assert BeginsAs(past[i].recs[id], known[id]);
  }

  /** Sessions may go on and go. */
  lemma PastGrows(past: seq<Moment>, known: map<Id, Account>, kv: Disk, recs: map<Id, Recorded>)
    requires PastOf(past, known) && AsTold(recs, known) && past != []
    requires var before := past[|past| - 1].recs;
      && recs.Keys <= before.Keys && (forall id :: id in recs ==> Later(before[id], recs[id]))
      && (forall id :: id in before && id !in recs ==> MayGo(before[id], known, id))
    ensures PastOf(past + [Moment(kv, recs)], known)
  {
    hide MayGo, Later, BeginsAs;
    var longer := past + [Moment(kv, recs)];
    forall j | 0 < j < |longer| ensures Succeeds(longer, j, known) {
      if j < |past| {
        assert Succeeds(past, j, known);
        assert longer[..j] == past[..j];
      }
    }
    assert Beginnings(longer, known) by { AllBegin(recs, known); }
    forall id | id in known ensures exists i :: 0 <= i < |longer| && id in longer[i].recs {
      var i :| 0 <= i < |past| && id in past[i].recs;
      assert longer[i] == past[i];
    }
  }

  lemma AllBegin(recs: map<Id, Recorded>, known: map<Id, Account>)
    requires AsTold(recs, known)
    ensures forall id :: id in recs ==> id in known && BeginsAs(recs[id], known[id])
  {
  }

  /** A session of a new id may start. */
  lemma PastStarts(past: seq<Moment>, known: map<Id, Account>, kv: Disk, header: SessionHeader)
    requires PastOf(past, known) && past != [] && header.sessionId !in known
    ensures PastOf(past + [Moment(kv, past[|past| - 1].recs[header.sessionId := Recorded(header, [], None)])],
                   known[header.sessionId := Account(header, [], None, true)])
  {
    hide MayGo, BeginsAs;
    var id, rec, account := header.sessionId, Recorded(header, [], None), Account(header, [], None, true);
    var longer, known' := past + [Moment(kv, past[|past| - 1].recs[id := rec])], known[id := account];
    assert BeginsAs(rec, account) by { StartsAsTold(header); }
    assert Unheard(past, id);
    forall j | 0 < j < |longer| ensures Succeeds(longer, j, known') {
      if j < |past| {
        StillSucceeds(past, j, known, id, account);
        assert longer[..j] == past[..j];
      } else {
        assert longer[..j] == past;
      }
    }
    assert forall i :: 0 <= i < |past| ==> longer[i] == past[i];
    assert Beginnings(longer, known');
    forall other | other in known' ensures exists i :: 0 <= i < |longer| && other in longer[i].recs {
      if other == id {
        assert id in longer[|past|].recs;
      } else {
        var i :| 0 <= i < |past| && other in past[i].recs;
        assert other in longer[i].recs;
      }
    }
  }

  lemma NothingMoves(past: seq<Moment>, known: map<Id, Account>, kv: Disk, recs: map<Id, Recorded>)
    requires PastOf(past, known) && AsTold(recs, known) && past != [] && past[|past| - 1].recs == recs
    ensures PastOf(past + [Moment(kv, recs)], known)
  {
    hide PastOf, AsTold;
    PastGrows(past, known, kv, recs);
  }

  lemma OneGoesOn(past: seq<Moment>, known: map<Id, Account>, kv: Disk, recs: map<Id, Recorded>, id: Id, rec: Recorded)
    requires PastOf(past, known) && AsTold(recs[id := rec], known) && past != [] && past[|past| - 1].recs == recs
    requires id in recs && Later(recs[id], rec)
    ensures PastOf(past + [Moment(kv, recs[id := rec])], known)
  {
    hide PastOf, AsTold;
    PastGrows(past, known, kv, recs[id := rec]);
  }

  lemma OneGoes(past: seq<Moment>, known: map<Id, Account>, kv: Disk, recs: map<Id, Recorded>, active: set<Id>, id: Id)
    requires PastOf(past, known) && AsTold(recs, known) && OwnRun(recs, known, active) && id !in active
    requires past != [] && past[|past| - 1].recs == recs
    ensures PastOf(past + [Moment(kv, recs - {id})], known)
  {
    hide PastOf;
    PastGrows(past, known, kv, recs - {id});
  }

  lemma UnknownIsNew(recs: map<Id, Recorded>, known: map<Id, Account>, id: Id)
    requires AsTold(recs, known) && id !in known
    ensures id !in recs
  {
  }

  lemma StartsAsTold(header: SessionHeader)
    ensures BeginsAs(Recorded(header, [], None), Account(header, [], None, true))
  {
  }

  /** More can be told about a session that has no end. */
  lemma MoreTold(past: seq<Moment>, known: map<Id, Account>, id: Id, a: Account)
    requires PastOf(past, known)
    requires id in known && known[id].own && known[id].end.None? && a.header == known[id].header && known[id].chunks <= a.chunks
    requires a.own
    ensures PastOf(past, known[id := a])
  {
    hide Succeeds, BeginsAs;
    var known' := known[id := a];
    forall i, other | 0 <= i < |past| && other in past[i].recs
      ensures other in known' && BeginsAs(past[i].recs[other], known'[other])
    {
      assert BeginsAs(past[i].recs[other], known[other]);
      if other == id {
        BeginsStill(past[i].recs[id], known[id], a);
      }
    }
    forall j | 0 < j < |past| ensures Succeeds(past, j, known') {
      StillSucceeds(past, j, known, id, a);
    }
  }

  lemma BeginsStill(rec: Recorded, a: Account, a': Account)
    requires BeginsAs(rec, a) && a.own && a'.own && a.end.None? && a'.header == a.header && a.chunks <= a'.chunks
    ensures BeginsAs(rec, a')
  {
  }

  lemma StillSucceeds(past: seq<Moment>, j: nat, known: map<Id, Account>, id: Id, a: Account)
    requires 0 < j < |past| && Succeeds(past, j, known) && (id in known ==> known[id].own == a.own)
    ensures Succeeds(past, j, known[id := a])
  {
    hide Later, Unheard;
    var before, after := past[j - 1].recs, past[j].recs;
    forall other | other in before && other !in after ensures MayGo(before[other], known[id := a], other) {
      assert MayGo(before[other], known, other);
    }
  }

  lemma ToldOfOne(recs: map<Id, Recorded>, known: map<Id, Account>, active: set<Id>, id: Id, rec: Recorded, a: Account, active': set<Id>)
    requires AsTold(recs, known) && OwnRun(recs, known, active)
    requires rec.header == a.header && rec.chunks == a.chunks && rec.end == a.end && a.own
    requires active' == if rec.end.None? then active + {id} else active - {id}
    ensures AsTold(recs[id := rec], known[id := a]) && OwnRun(recs[id := rec], known[id := a], active')
  {
  }

  /** At most one timer, at most one wait, and neither unless the store is enabled. */
  ghost predicate Clockwork(
    enabled: bool, ready: bool, run: Option<nat>, wait: Option<nat>, recover: bool,
    timers: map<nat, nat>, nextHandle: nat, interval: nat, pending: seq<Pending>)
  {
    && timers == (if run.Some? then map[run.value := interval] else map[])
    && (run.Some? ==> ready && enabled && run.value < nextHandle)
    && (wait.Some? ==> enabled && wait.value < nextHandle && (ready || (run.None? && Maintain(wait.value) in pending)))
    && (forall p :: p in pending && p.Maintain? ==> wait == Some(p.token))
    && (forall i, j :: 0 <= i < j < |pending| && pending[i].Maintain? ==> pending[i] != pending[j])
    && (recover ==> enabled)
  }

  /** How recovery ends a session: with the chunks it has. */
  function Interruption(rec: Recorded, now: int): SessionEnd {
    SessionEnd(rec.header.sessionId, Interrupted, rec.LastTick(), now, Some(Ascii("runtime-recovered")),
               Told(rec.chunks, |rec.chunks|), |rec.chunks|)
  }

  /** How a snapshot ends a running session. */
  function SnapshotEnd(rec: Recorded, now: int): SessionEnd {
    if rec.end.Some? then rec.end.value
    else SessionEnd(rec.header.sessionId, Interrupted, rec.LastTick(), now, Some(Ascii("live-snapshot")),
                    Told(rec.chunks, |rec.chunks|), |rec.chunks|)
  }

  /** The chunks that are read: those that the footer counts, all of them if there is none. */
  function ReadBack(rec: Recorded): seq<TraceChunk> {
    if rec.end.Some? && rec.end.value.chunkCount <= |rec.chunks| then rec.chunks[..rec.end.value.chunkCount] else rec.chunks
  }

  lemma ReadsBackAll(rec: Recorded)
    requires rec.end.Some? ==> rec.end.value.chunkCount == |rec.chunks|
    ensures ReadBack(rec) == rec.chunks
  {
    assert rec.chunks[..|rec.chunks|] == rec.chunks;
  }

  predicate Leftover(rec: Recorded, id: Id, active: set<Id>) { rec.end.None? && id !in active }

  /** Every leftover running session becomes an interrupted one; the others stay as they are. */
  function Recovered(recs: map<Id, Recorded>, active: set<Id>, now: int): map<Id, Recorded> {
    map id | id in recs ::
      if Leftover(recs[id], id, active) then recs[id].(end := Some(Interruption(recs[id], now))) else recs[id]
  }

  /** Recovery ends what nobody goes on with, as interrupted now, at the last tick and with the counts it has; the rest stays. */
  lemma RecoveryEnds(recs: map<Id, Recorded>, active: set<Id>, now: int, id: Id)
    requires id in recs
    ensures Recovered(recs, active, now).Keys == recs.Keys
    ensures var rec, rec' := recs[id], Recovered(recs, active, now)[id];
      var none := rec.chunks == [];
      && rec'.header == rec.header && rec'.chunks == rec.chunks
      && (rec.end.Some? || id in active ==> rec'.end == rec.end)
      && (rec.end.None? && id !in active ==>
            rec'.end == Some(SessionEnd(
              rec.header.sessionId, Interrupted,
              if none then rec.header.startTick else rec.chunks[|rec.chunks| - 1].endTick, now, Some(Ascii("runtime-recovered")),
              if none then 0 else rec.chunks[|rec.chunks| - 1].lastSequence, |rec.chunks|)))
  {
  }

  /** A snapshot of a running session ends as interrupted now, with what is stored of it. */
  lemma SnapshotEnds(rec: Recorded, now: int)
    ensures var none := rec.chunks == [];
      && (rec.end.Some? ==> SnapshotEnd(rec, now) == rec.end.value)
      && (rec.end.None? ==>
            SnapshotEnd(rec, now) == SessionEnd(
              rec.header.sessionId, Interrupted,
              if none then rec.header.startTick else rec.chunks[|rec.chunks| - 1].endTick, now, Some(Ascii("live-snapshot")),
              if none then 0 else rec.chunks[|rec.chunks| - 1].lastSequence, |rec.chunks|))
  {
  }

  /** What a listed record says of its session. */
  predicate Summarises(m: Meta, rec: Recorded) {
    && m.header == rec.header && m.end == rec.end && m.storedBytes == StoredBytes(rec.chunks)
    && (rec.end.None? ==>
          && m.status == Running && m.chunkCount == |rec.chunks|
          && m.eventCount == (if rec.chunks == [] then 0 else rec.chunks[|rec.chunks| - 1].lastSequence)
          && m.lastTick == (if rec.chunks == [] then rec.header.startTick else rec.chunks[|rec.chunks| - 1].endTick))
    && (rec.end.Some? ==>
          && m.status == Over(rec.end.value.status) && m.chunkCount == rec.end.value.chunkCount
          && m.eventCount == rec.end.value.eventCount && m.lastTick == rec.end.value.endTick)
  }

  lemma AllSummarised(kv: Disk, recs: map<Id, Recorded>, active: set<Id>, xs: seq<Meta>)
    requires Consistent(kv, recs, active) && forall m :: m in xs <==> Stored(kv, m)
    ensures forall m :: m in xs ==> m.header.sessionId in recs && Summarises(m, recs[m.header.sessionId])
    ensures forall id :: id in recs ==> id in IdsOf(xs)
  {
    hide StoredBytes;
    forall m | m in xs ensures m.header.sessionId in recs && Summarises(m, recs[m.header.sessionId]) {
      var id := m.header.sessionId;
      assert Stored(kv, m);
      RecordOf(kv, recs, active, id);
    }
    AllListed(kv, recs, active, xs);
  }

  /** The sessions that a cleanup removes. */
  function Gone(xs: seq<Meta>, o: Options, now: int): set<Id> { IdsOf(xs) - IdsOf(Survivors(xs, o, now)) }

  /** What `cleanup` does to the store. */
  ghost predicate CleanedUp(
    c: Collation, kv: Disk, recs: map<Id, Recorded>, active: set<Id>, o: Options, now: int, kv': Disk, recs': map<Id, Recorded>)
  {
    exists xs :: Candidates(c, kv, active, xs) && kv' == Without(kv, Gone(xs, o, now)) && recs' == recs - Gone(xs, o, now)
  }

  class TraceHistoryStore {
    const collates: Collation

    var options: Options
    var enabled: bool
    var cleanupRunId: Option<nat>
    var cancelMaintenanceWait: Option<nat>
    var recoverOnMaintenance: bool
    var activeSessions: set<Id>

    var kv: Disk

    var ready: bool
    var pending: seq<Pending>
    var timers: map<nat, nat>
    var nextHandle: nat

    ghost var recs: map<Id, Recorded>
    ghost var known: map<Id, Account>
    ghost var past: seq<Moment>

    ghost predicate Keeps()
      reads this`kv, this`recs, this`known, this`activeSessions, this`past
    {
      && Collates(collates)
      && Consistent(kv, recs, activeSessions)
      && AsTold(recs, known) && OwnRun(recs, known, activeSessions)
      && AllRecoverable(past) && PastOf(past, known) && past != [] && past[|past| - 1] == Moment(kv, recs)
    }

    ghost predicate Ticks()
      reads this`enabled, this`ready, this`cleanupRunId, this`cancelMaintenanceWait, this`recoverOnMaintenance
      reads this`timers, this`nextHandle, this`options, this`pending
    {
      Clockwork(enabled, ready, cleanupRunId, cancelMaintenanceWait, recoverOnMaintenance,
                timers, nextHandle, options.cleanupIntervalTicks, pending)
    }

    /** Maintenance is due if it is neither waited for nor repeated by a timer. */
    ghost predicate Settled()
      reads this`enabled, this`cleanupRunId, this`cancelMaintenanceWait, this`recoverOnMaintenance
    {
      && (enabled ==> cleanupRunId.Some? || cancelMaintenanceWait.Some?)
      && (recoverOnMaintenance ==> cancelMaintenanceWait.Some?)
    }

    ghost predicate Valid()
      reads this
    {
      Keeps() && Ticks() && Settled() && (ready ==> pending == [] && cancelMaintenanceWait.None?)
    }

    /** A store over what an earlier run left behind. */
    constructor (collates: Collation, options: Options, disk: Disk, ready: bool, ghost left: map<Id, Recorded>)
      requires Collates(collates) && Consistent(disk, left, {})
      ensures Valid() && !enabled && kv == disk && recs == left && activeSessions == {}
      ensures this.options == options && this.ready == ready && this.collates == collates
      ensures known == LeftBehind(left) && past == [Moment(disk, left)]
    {
      hide PastOf, AsTold, OwnRun, AllRecoverable, Consistent, Collates, LeftBehind;
      FirstMoment(disk, left);
      this.collates := collates;
      this.options := options;
      enabled, cleanupRunId, cancelMaintenanceWait, recoverOnMaintenance := false, None, None, false;
      activeSessions := {};
      kv := disk;
      this.ready, pending, timers, nextHandle := ready, [], map[], 1;
      recs := left;
      known := LeftBehind(left);
      past := [Moment(disk, left)];
    }

    // ---------- writing ----------

    /** One write to the key-value store, after which a crash may come. */
    method Write(k: Key, v: Value, ghost rs: map<Id, Recorded>)
      requires AllRecoverable(past) && Consistent(kv[k := v], rs, {})
      requires PastOf(past + [Moment(kv[k := v], rs)], known)
      modifies `kv, `recs, `past
      ensures kv == old(kv)[k := v] && recs == rs && past == old(past) + [Moment(kv, recs)]
      ensures AllRecoverable(past) && PastOf(past, known)
    {
      hide Consistent, PastOf;
      kv := kv[k := v];
      recs := rs;
      past := past + [Moment(kv, recs)];
    }

    /** Accepted only while the store is enabled and the world is ready. */
    method OnSessionStart(header: SessionHeader)
      requires Valid() && Dotless(header.sessionId) && header.sessionId !in known
      modifies `kv, `recs, `known, `past, `activeSessions
      ensures Valid()
      ensures known == if enabled && ready then old(known)[header.sessionId := Account(header, [], None, true)] else old(known)
      ensures if enabled && ready then
          recs == old(recs)[header.sessionId := Recorded(header, [], None)] && activeSessions == old(activeSessions) + {header.sessionId}
        else recs == old(recs) && activeSessions == old(activeSessions)
      ensures kv == if enabled && ready then old(kv)[MetaKey(header.sessionId) := MetaText(Recorded(header, [], None).Record())] else old(kv)
      ensures past == if enabled && ready then old(past) + [Moment(kv, recs)] else old(past)
    {
      hide Consistent, PastOf, AsTold, OwnRun, AllRecoverable, Collates, Ticks, Settled;
      if !(enabled && ready) { return; }
      UnknownIsNew(recs, known, header.sessionId);
      ghost var account := Account(header, [], None, true);
      PastStarts(past, known, kv[MetaKey(header.sessionId) := MetaText(Recorded(header, [], None).Record())], header);
      ToldOfOne(recs, known, activeSessions, header.sessionId, Recorded(header, [], None), account, activeSessions + {header.sessionId});
      known := known[header.sessionId := account];
      ghost var rec := Recorded(header, [], None);
      var meta := Meta(header, Running, 0, 0, header.startTick, 0, None);
      assert meta == rec.Record();
      ghost var rs := recs[header.sessionId := rec];
      Begun(kv, recs, activeSessions, header);
      WithoutMemory(kv[MetaKey(header.sessionId) := MetaText(meta)], rs, activeSessions + {header.sessionId});
      Write(MetaKey(header.sessionId), MetaText(meta), rs);
      activeSessions := activeSessions + {header.sessionId};
    }

    /** Refused when it is not the next chunk of its session. */
    method OnChunk(chunk: TraceChunk) returns (ok: bool)
      requires Valid()
      modifies `kv, `recs, `known, `past
      ensures Valid()
      ensures ok <==> (chunk.sessionId in activeSessions ==> chunk.index == |old(recs)[chunk.sessionId].chunks|)
      ensures known == if ok && chunk.sessionId in activeSessions
                       then old(known)[chunk.sessionId := Account(old(known)[chunk.sessionId].header, old(known)[chunk.sessionId].chunks + [chunk], None, true)]
                       else old(known)
      ensures recs == if ok && chunk.sessionId in activeSessions
                      then old(recs)[chunk.sessionId := old(recs)[chunk.sessionId].Chunk(chunk)] else old(recs)
      ensures if ok && chunk.sessionId in activeSessions then
          var written := old(kv)[ChunkKey(chunk.sessionId, chunk.index) := ChunkText(Encoded(chunk.content))];
          && kv == written[MetaKey(chunk.sessionId) := MetaText(recs[chunk.sessionId].Record())]
          && past == old(past) + [Moment(written, old(recs)), Moment(kv, recs)]
        else kv == old(kv) && past == old(past)
    {
      hide Consistent, Recorded.Record, Encoded, PastOf, AllRecoverable, Collates, AsTold, OwnRun, Ticks;
      var id := chunk.sessionId;
      ActiveIsRecorded(kv, recs, activeSessions, id);
      if id !in activeSessions { return true; }
      ActiveIsOwn(recs, known, activeSessions, id);
      RecordOf(kv, recs, activeSessions, id);
      var meta := kv[MetaKey(id)].meta;
      if chunk.index != meta.chunkCount { return false; }
      var encoded := EncodeBase64(chunk.content);
      ghost var rec := recs[id].Chunk(chunk);
      ghost var active := activeSessions;
      ghost var kv0, recs0 := kv, recs;
      ChunkWritten(kv, recs, active, id, encoded);
      ChunkCommitted(kv, recs, active, id, chunk);
      NextRecord(recs[id], chunk);
      NothingMoves(past, known, kv[ChunkKey(id, chunk.index) := ChunkText(encoded)], recs);
      Write(ChunkKey(id, chunk.index), ChunkText(encoded), recs);
      meta := meta.(chunkCount := chunk.index + 1, eventCount := chunk.lastSequence, lastTick := chunk.endTick,
                    storedBytes := meta.storedBytes + |encoded|);
      ghost var account := Account(known[id].header, known[id].chunks + [chunk], None, true);
      MoreTold(past, known, id, account);
      ToldOfOne(recs, known, active, id, rec, account, active);
      known := known[id := account];
      WithoutMemory(kv[MetaKey(id) := MetaText(meta)], recs0[id := rec], active);
      OneGoesOn(past, known, kv[MetaKey(id) := MetaText(meta)], recs0, id, rec);
      Write(MetaKey(id), MetaText(meta), recs[id := rec]);
      return true;
    }

    /** The footer, then retention. */
    method OnSessionEnd(end: SessionEnd, now: int) returns (ghost closed: Disk)
      requires Valid()
      modifies `kv, `recs, `known, `past, `activeSessions
      ensures Valid() && activeSessions == old(activeSessions) - {end.sessionId}
      ensures old(past) <= past
      ensures if end.sessionId in old(activeSessions) then
          var recs1 := old(recs)[end.sessionId := old(recs)[end.sessionId].(end := Some(end))];
          && closed == old(kv)[MetaKey(end.sessionId) := MetaText(recs1[end.sessionId].Record())]
          && old(past) + [Moment(closed, recs1)] <= past
          && Consistent(closed, recs1, activeSessions)
          && CleanedUp(collates, closed, recs1, activeSessions, options, now, kv, recs)
          && known == old(known)[end.sessionId := old(known)[end.sessionId].(end := Some(end))]
        else recs == old(recs) && kv == old(kv) && known == old(known) && past == old(past)
    {
      hide Consistent, Recorded.Record, Candidates, Without, Gone, Ticks, PastOf, AllRecoverable, Collates, AsTold, OwnRun, RetentionRule.Retained;
      var id := end.sessionId;
      closed := kv;
      if id !in activeSessions { return; }
      ActiveIsRecorded(kv, recs, activeSessions, id);
      ActiveIsOwn(recs, known, activeSessions, id);
      RecordOf(kv, recs, activeSessions, id);
      var meta := kv[MetaKey(id)].meta;
      ghost var rec := recs[id].(end := Some(end));
      ghost var account := known[id].(end := Some(end));
      EndRecord(recs[id], end);
      meta := meta.(status := Over(end.status), end := Some(end), chunkCount := end.chunkCount,
                    eventCount := end.eventCount, lastTick := end.endTick);
      Closed(kv, recs, activeSessions, id, end);
      ghost var recs1 := recs[id := rec];
      closed := kv[MetaKey(id) := MetaText(meta)];
      WithoutMemory(closed, recs1, activeSessions - {id});
      MoreTold(past, known, id, account);
      ToldOfOne(recs, known, activeSessions, id, rec, account, activeSessions - {id});
      known := known[id := account];
      OneGoesOn(past, known, closed, recs, id, rec);
      Write(MetaKey(id), MetaText(meta), recs1);
      activeSessions := activeSessions - {id};
      var _, _ := Cleanup(now);
      assert CleanedUp(collates, closed, recs1, activeSessions, options, now, kv, recs);
    }

    /** All session records, newest first; the keys come in no particular order. */
    method List() returns (summaries: seq<Meta>)
      requires Keeps()
      ensures Ranked(collates, summaries) && forall m :: m in summaries <==> Stored(kv, m)
      ensures forall i, j :: 0 <= i < j < |summaries| ==>
        && summaries[i].header.startWallTime >= summaries[j].header.startWallTime
        && (summaries[i].header.startWallTime == summaries[j].header.startWallTime ==>
              collates(summaries[j].header.sessionId, summaries[i].header.sessionId))
      ensures forall m :: m in summaries ==> m.header.sessionId in recs && Summarises(m, recs[m.header.sessionId])
      ensures forall id :: id in recs ==> id in IdsOf(summaries)
    {
      hide Holds, Render, LooksLikeMeta, Recorded.Record, PastOf, AllRecoverable, Summarises, IdsOf;
      var keys := kv.Keys;
      var found: seq<Meta> := [];
      while keys != {}
        invariant keys <= kv.Keys
        invariant forall m :: m in found <==> Stored(kv, m) && MetaKey(m.header.sessionId) !in keys
        invariant DistinctIds(found)
        decreases |keys|
      {
        var k :| k in keys;
        StoredMeta(kv, recs, activeSessions, k);
        MetaSelects(k);
        if LooksLikeMeta(Render(k)) {
          found := found + [kv[k].meta];
        }
        keys := keys - {k};
      }
      summaries := Sort(found, Before(collates));
      RankFound(collates, found);
      NewestFirst(collates, summaries);
      AllSummarised(kv, recs, activeSessions, summaries);
    }

    /** Deletes every key with the prefix of the session, unless the session is active. */
    method Delete(id: Id) returns (removed: bool)
      requires Keeps() && Dotless(id)
      modifies `kv, `recs, `past
      ensures Keeps()
      ensures past == if id in activeSessions then old(past) else old(past) + [Moment(kv, recs)]
      ensures id in activeSessions ==> !removed && kv == old(kv) && recs == old(recs)
      ensures id !in activeSessions ==>
        kv == Without(old(kv), {id}) && recs == old(recs) - {id} && removed == (exists k :: k in old(kv) && OfSession(k, id))
    {
      hide Consistent, Collates, PastOf, Render, SessionPrefix, StartsWith;
      if id in activeSessions { return false; }
      removed := false;
      ghost var kv0 := kv;
      var keys := kv.Keys;
      while keys != {}
        invariant keys <= kv0.Keys && kv.Keys <= kv0.Keys
        invariant forall k :: k in kv ==> kv[k] == kv0[k]
        invariant forall k :: k in kv0 ==> (k in kv <==> k in keys || !OfSession(k, id))
        invariant removed <==> exists k :: k in kv0 && k !in keys && OfSession(k, id)
        invariant recs == old(recs) && past == old(past)
        decreases |keys|
      {
        var k :| k in keys;
        StoredKey(kv0, recs, activeSessions, k);
        PrefixSelects(k, id);
        if StartsWith(Render(k), SessionPrefix(id)) {
          kv := kv - {k};
          removed := true;
        }
        keys := keys - {k};
      }
      assert kv == Without(kv0, {id});
      assert AsTold(recs - {id}, known) && OwnRun(recs - {id}, known, activeSessions);
      OneGoes(past, known, kv, recs, activeSessions, id);
      Removed(kv0, recs, activeSessions, {id});
      recs := recs - {id};
      WithoutMemory(kv, recs, activeSessions);
      past := past + [Moment(kv, recs)];
    }

    /** The sessions that retention may touch. */
    method Completed() returns (completed: seq<Meta>)
      requires Keeps()
      ensures Collates(collates) && Candidates(collates, kv, activeSessions, completed) && DistinctIds(completed)
    {
      hide Stored, Consistent, Before, PastOf, AllRecoverable, Summarises, IdsOf, AsTold, OwnRun;
      var all := List();
      completed := [];
      for i := 0 to |all|
        invariant Ranked(collates, completed)
        invariant forall m :: m in completed <==> m in all[..i] && m.status != Running && m.header.sessionId !in activeSessions
      {
        var m := all[i];
        assert all[..i + 1] == all[..i] + [m];
        if m.status != Running && m.header.sessionId !in activeSessions {
          LastRanked(collates, all, i, completed);
          completed := completed + [m];
        }
      }
      assert all[..|all|] == all;
    }

    /** `delete` for a session that is listed and not active. */
    method DeleteListed(m: Meta, ghost kv0: Disk, ghost recs0: map<Id, Recorded>, ghost gone: set<Id>) returns (removed: bool)
      requires Keeps() && kv == Without(kv0, gone) && recs == recs0 - gone
      requires Candidate(kv0, activeSessions, m) && m.header.sessionId !in gone
      modifies `kv, `recs, `past
      ensures removed && Keeps() && old(past) <= past
      ensures kv == Without(kv0, gone + {m.header.sessionId}) && recs == recs0 - (gone + {m.header.sessionId})
    {
      hide Consistent, AllRecoverable, PastOf, Collates, Without;
      var id := m.header.sessionId;
      StillListed(kv0, gone, m);
      StoredKey(kv, recs, activeSessions, MetaKey(id));
      GoneTogether(kv0, recs0, gone, {id});
      removed := Delete(id);
    }

    method RemoveExpired(completed: seq<Meta>, now: int) returns (removed: seq<Id>, ghost gone: set<Id>)
      requires Keeps() && Candidates(collates, kv, activeSessions, completed)
      modifies `kv, `recs, `past
      ensures Keeps() && old(past) <= past
      ensures Removal(collates, old(kv), old(recs), activeSessions, completed, Unexpired(completed, now, options.maxAgeMs),
                      removed, gone, kv, recs)
    {
      hide Keeps, Expired, Without, Before;
      removed, gone := [], {};
      ghost var kv0, recs0 := kv, recs;
      NothingGone(kv0, recs0);
      for i := 0 to |completed|
        invariant Keeps() && old(past) <= past
        invariant kv == Without(kv0, gone) && recs == recs0 - gone
        invariant forall id :: id in removed <==> id in gone
        invariant forall id :: id in gone <==>
          exists j :: 0 <= j < i && completed[j].header.sessionId == id && Expired(completed[j], now, options.maxAgeMs)
      {
        var entry := completed[i];
        if Expired(entry, now, options.maxAgeMs) {
          assert entry in completed;
          var deleted := DeleteListed(entry, kv0, recs0, gone);
          removed := removed + [entry.header.sessionId];
          gone := gone + {entry.header.sessionId};
        }
      }
      UnexpiredRanked(collates, completed, now, options.maxAgeMs);
      AfterRemoval(collates, kv0, activeSessions, completed, Unexpired(completed, now, options.maxAgeMs), gone);
    }

    method RemoveBeyond(completed: seq<Meta>) returns (removed: seq<Id>, ghost gone: set<Id>)
      requires Keeps() && Candidates(collates, kv, activeSessions, completed)
      modifies `kv, `recs, `past
      ensures Keeps() && old(past) <= past
      ensures Removal(collates, old(kv), old(recs), activeSessions, completed, AtMostSessions(completed, options.maxSessions),
                      removed, gone, kv, recs)
      ensures OldestGo(completed, gone)
    {
      hide Keeps, Without, Before;
      removed, gone := [], {};
      ghost var kv0, recs0 := kv, recs;
      NothingGone(kv0, recs0);
      var limit := if |completed| <= options.maxSessions then |completed| else options.maxSessions;
      for i := limit to |completed|
        invariant Keeps() && old(past) <= past
        invariant kv == Without(kv0, gone) && recs == recs0 - gone
        invariant forall id :: id in removed <==> id in gone
        invariant gone == IdsOf(completed[limit..i])
      {
        var entry := completed[i];
        assert entry in completed;
        assert completed[limit..i + 1] == completed[limit..i] + [entry];
        var deleted := DeleteListed(entry, kv0, recs0, gone);
        removed := removed + [entry.header.sessionId];
        gone := gone + {entry.header.sessionId};
      }
      assert completed[limit..|completed|] == completed[limit..] && completed[..limit] == AtMostSessions(completed, options.maxSessions);
      PrefixRanked(collates, completed, limit);
      AfterRemoval(collates, kv0, activeSessions, completed, completed[..limit], gone);
      PrefixOldest(collates, completed, limit);
    }

    method RemoveOldest(completed: seq<Meta>) returns (removed: seq<Id>, ghost gone: set<Id>)
      requires Keeps() && Candidates(collates, kv, activeSessions, completed)
      modifies `kv, `recs, `past
      ensures Keeps() && old(past) <= past
      ensures Removal(collates, old(kv), old(recs), activeSessions, completed, Fitting(completed, options.maxBytes),
                      removed, gone, kv, recs)
      ensures OldestGo(completed, gone)
    {
      hide Keeps, Without, Before, IdsOf, Ranked, Candidate, TotalBytes, Fitting;
      removed, gone := [], {};
      ghost var kv0, recs0 := kv, recs;
      NothingGone(kv0, recs0);
      var totalBytes := TotalBytes(completed);
      var index := |completed|;
      assert completed[..index] == completed;
      NoIds(completed);
      while index > 0 && totalBytes > options.maxBytes
        invariant 0 <= index <= |completed|
        invariant Keeps() && old(past) <= past
        invariant kv == Without(kv0, gone) && recs == recs0 - gone
        invariant forall id :: id in removed <==> id in gone
        invariant gone == IdsOf(completed[index..])
        invariant totalBytes == TotalBytes(completed[..index])
        invariant Fitting(completed, options.maxBytes) == Fitting(completed[..index], options.maxBytes)
      {
        index := index - 1;
        var entry := completed[index];
        assert entry in completed;
        OldestOf(collates, completed, index, options.maxBytes);
        var deleted := DeleteListed(entry, kv0, recs0, gone);
        totalBytes := totalBytes - entry.storedBytes;
        removed := removed + [entry.header.sessionId];
        gone := gone + {entry.header.sessionId};
      }
      FittingDone(completed[..index], options.maxBytes);
      PrefixDropped(completed, completed[..index], index, gone);
      PrefixRanked(collates, completed, index);
      AfterRemoval(collates, kv0, activeSessions, completed, completed[..index], gone);
      PrefixOldest(collates, completed, index);
    }

    /** Age, then count, then size: what is left of the completed sessions are the survivors. */
    method Cleanup(now: int) returns (removed: seq<Id>, ghost xs: seq<Meta>)
      requires Keeps()
      modifies `kv, `recs, `past
      ensures Keeps() && old(past) <= past
      ensures Candidates(collates, old(kv), activeSessions, xs)
      ensures kv == Without(old(kv), Gone(xs, options, now)) && recs == old(recs) - Gone(xs, options, now)
      ensures forall id :: id in removed <==> id in Gone(xs, options, now)
      ensures Candidates(collates, kv, activeSessions, Survivors(xs, options, now))
      ensures RetentionRule.Retained(collates, old(recs), activeSessions, options, now, recs)
    {
      hide Keeps, Without, Candidates, Before, Dropped, OldestGo, RetentionRule.Retained, Consistent;
      KeepsConsistent();
      ghost var kv0, recs0 := kv, recs;
      var completed := Completed();
      xs := completed;
      var removed1, gone1 := RemoveExpired(completed, now);
      ghost var kv1, recs1, first := kv, recs, Unexpired(xs, now, options.maxAgeMs);
      completed := Completed();
      SameCandidates(collates, kv, activeSessions, completed, first);
      var removed2, gone2 := RemoveBeyond(completed);
      ghost var kv2, recs2, second := kv, recs, AtMostSessions(first, options.maxSessions);
      completed := Completed();
      SameCandidates(collates, kv, activeSessions, completed, second);
      var removed3, gone3 := RemoveOldest(completed);
      removed := removed1 + removed2 + removed3;
      GoneTogether(kv0, recs0, gone1, gone2);
      GoneTogether(kv0, recs0, gone1 + gone2, gone3);
      DroppedTogether(xs, first, second, gone1, gone2);
      DroppedTogether(xs, second, Survivors(xs, options, now), gone1 + gone2, gone3);
      DroppedIs(xs, Survivors(xs, options, now), gone1 + gone2 + gone3);
      RetentionRule.CleanupExactly(collates, kv0, recs0, activeSessions, xs, options, now);
    }

    // ---------- maintenance ----------

    method Interrupt(id: Id, now: int)
      requires Keeps() && id in recs && Leftover(recs[id], id, activeSessions)
      modifies `kv, `recs, `past
      ensures Keeps() && old(past) <= past
      ensures recs == old(recs)[id := old(recs)[id].(end := Some(Interruption(old(recs)[id], now)))]
      ensures Choice(kv) == Choice(old(kv))
    {
      hide Consistent, AllRecoverable, PastOf, Collates, Recorded.Record, Interruption;
      assert !known[id].own;
      RecordOf(kv, recs, activeSessions, id);
      var meta := kv[MetaKey(id)].meta;
      var end := SessionEnd(id, Interrupted, meta.lastTick, now, Some(Ascii("runtime-recovered")), meta.eventCount, meta.chunkCount);
      InterruptedRecord(recs[id], id, now);
      Closed(kv, recs, activeSessions, id, end);
      meta := meta.(status := Over(Interrupted), end := Some(end));
      ghost var rs := recs[id := recs[id].(end := Some(end))];
      WithoutMemory(kv[MetaKey(id) := MetaText(meta)], rs, activeSessions - {id});
      assert activeSessions - {id} == activeSessions;
      assert AsTold(rs, known);
      OneGoesOn(past, known, kv[MetaKey(id) := MetaText(meta)], recs, id, rs[id]);
      Write(MetaKey(id), MetaText(meta), rs);
    }

    /** Ends every leftover running session with the chunks it has. */
    method RecoverInterruptedSessions(now: int)
      requires Keeps()
      modifies `kv, `recs, `past
      ensures Keeps() && old(past) <= past
      ensures recs == Recovered(old(recs), activeSessions, now)
      ensures Choice(kv) == Choice(old(kv))
    {
      hide Keeps, Consistent, Stored, Recorded.Record, Interruption, Ranked, Choice, RecoveredSome, Recovered, Leftover, Summarises;
      KeepsConsistent();
      var all := List();
      ghost var recs0, done := recs, {};
      NoneRecovered(recs0, activeSessions, now);
      for i := 0 to |all|
        invariant Keeps() && old(past) <= past && Choice(kv) == Choice(old(kv))
        invariant done == IdsOf(all[..i])
        invariant recs == RecoveredSome(recs0, activeSessions, now, done)
      {
        var summary := all[i];
        var id := summary.header.sessionId;
        assert all[..i + 1] == all[..i] + [summary];
        ListedOnce(collates, old(kv), recs0, activeSessions, all, i);
        OneRecovered(recs0, activeSessions, now, done, id);
        done := done + {id};
        if summary.status == Running && id !in activeSessions {
          Interrupt(id, now);
        }
      }
      assert all[..|all|] == all;
      AllListed(old(kv), recs0, activeSessions, all);
      AllRecovered(recs0, activeSessions, now, done);
    }

    method StartCleanupTimer()
      requires Ticks()
      modifies `cleanupRunId, `timers, `nextHandle
      ensures enabled && ready ==> cleanupRunId.Some?
      ensures cancelMaintenanceWait.None? ==> Ticks()
    {
      if !enabled || !ready || cleanupRunId.Some? { return; }
      cleanupRunId := Some(nextHandle);
      timers := timers[nextHandle := options.cleanupIntervalTicks];
      nextHandle := nextHandle + 1;
    }

    method StopCleanupTimer(ghost interval: nat)
      requires Clockwork(enabled, ready, cleanupRunId, cancelMaintenanceWait, recoverOnMaintenance, timers, nextHandle, interval, pending)
      modifies `cleanupRunId, `timers
      ensures Ticks() && cleanupRunId.None? && timers == map[]
    {
      if cleanupRunId.None? { return; }
      timers := timers - {cleanupRunId.value};
      cleanupRunId := None;
    }

    /** Recovery if it is due, then retention, then the timer. */
    method RunMaintenance(now: int)
      requires Keeps() && Ticks() && enabled && ready && cancelMaintenanceWait.None?
      modifies `kv, `recs, `past, `recoverOnMaintenance, `cleanupRunId, `timers, `nextHandle
      ensures Keeps() && Ticks() && Settled() && old(past) <= past
      ensures Maintained(collates, if old(recoverOnMaintenance) then Recovered(old(recs), activeSessions, now) else old(recs),
                         activeSessions, options, now, kv, recs)
      ensures Choice(kv) == Choice(old(kv)) && !recoverOnMaintenance
    {
      hide Keeps, Consistent, Candidates, Clockwork, Recovered, Gone, Without, Choice;
      ghost var kv1, recs1 := kv, recs;
      if recoverOnMaintenance {
        StopRecovering();
        RecoverInterruptedSessions(now);
      }
      ghost var xs;
      kv1, recs1 := kv, recs;
      var removed;
      KeepsConsistent();
      removed, xs := Cleanup(now);
      SameChoice(kv1, Gone(xs, options, now));
      assert CleanedUp(collates, kv1, recs1, activeSessions, options, now, kv, recs);
      StartCleanupTimer();
    }

    lemma KeepsConsistent()
      requires Keeps()
      ensures Consistent(kv, recs, activeSessions)
    {
    }

    method StopRecovering()
      requires Ticks()
      modifies `recoverOnMaintenance
      ensures Ticks() && !recoverOnMaintenance
    {
      recoverOnMaintenance := false;
    }

    /** Now if the world is ready, otherwise once when it is. */
    method ScheduleMaintenance(now: int)
      requires Keeps() && Ticks() && (recoverOnMaintenance ==> cleanupRunId.None?)
      requires ready ==> cancelMaintenanceWait.None?
      modifies `kv, `recs, `past, `recoverOnMaintenance, `cleanupRunId, `timers, `nextHandle, `cancelMaintenanceWait, `pending
      ensures Keeps() && Ticks() && Settled() && (ready ==> pending == old(pending)) && old(past) <= past
      ensures enabled && ready ==> !recoverOnMaintenance
      ensures if enabled && ready then
          Maintained(collates, if old(recoverOnMaintenance) then Recovered(old(recs), activeSessions, now) else old(recs),
                     activeSessions, options, now, kv, recs)
        else kv == old(kv) && recs == old(recs)
      ensures Choice(kv) == Choice(old(kv)) && PlaysAs(pending, old(pending)) && (ready ==> cancelMaintenanceWait.None?)
    {
      hide Keeps, Maintained, Recovered, Choice, Played;
      if !enabled { return; }
      if ready {
        RunMaintenance(now);
        return;
      }
      if cancelMaintenanceWait.Some? { return; }
      cancelMaintenanceWait := Some(nextHandle);
      WaitPlaysNothing(pending, nextHandle);
      pending := pending + [Maintain(nextHandle)];
      nextHandle := nextHandle + 1;
    }

    // ---------- switching ----------

    method CancelWait()
      requires Ticks() && !recoverOnMaintenance
      modifies `cancelMaintenanceWait, `pending
      ensures Ticks() && cancelMaintenanceWait.None? && |pending| <= |old(pending)| && PlaysAs(pending, old(pending))
    {
      hide Played;
      if cancelMaintenanceWait.Some? {
        CancelledIs(pending, cancelMaintenanceWait.value);
        CancelledPlays(pending, cancelMaintenanceWait.value);
        pending := Cancelled(pending, cancelMaintenanceWait.value);
        cancelMaintenanceWait := None;
      }
    }

    method SwitchOff()
      requires Ticks() && enabled
      modifies `enabled, `recoverOnMaintenance, `cleanupRunId, `timers, `cancelMaintenanceWait, `pending
      ensures Ticks() && Settled() && !enabled && |pending| <= |old(pending)| && PlaysAs(pending, old(pending))
      ensures cancelMaintenanceWait.None?
    {
      hide Clockwork, PlaysAs;
      StopRecovering();
      CancelWait();
      StopCleanupTimer(options.cleanupIntervalTicks);
      Disabled();
      enabled := false;
    }

    lemma Disabled()
      requires Ticks() && cleanupRunId.None? && cancelMaintenanceWait.None? && !recoverOnMaintenance
      ensures Clockwork(false, ready, cleanupRunId, cancelMaintenanceWait, recoverOnMaintenance,
                        timers, nextHandle, options.cleanupIntervalTicks, pending)
    {
    }

    /** Turning the store on recovers what an earlier run left; sessions already accepted are kept either way. */
    method SetEnabled(on: bool, persist: bool, now: int) returns (ghost swept: Disk)
      requires Keeps() && Ticks() && Settled()
      modifies `enabled, `kv, `recs, `past, `recoverOnMaintenance, `cleanupRunId, `timers, `nextHandle, `cancelMaintenanceWait, `pending
      ensures Keeps() && Ticks() && Settled() && enabled == on && old(past) <= past
      ensures ready ==> |pending| <= |old(pending)|
      ensures if on && !old(enabled) && ready then
          Maintained(collates, Recovered(old(recs), activeSessions, now), activeSessions, options, now, swept, recs)
        else recs == old(recs)
      ensures Choice(kv) == if persist && ready then on else Choice(old(kv))
      ensures !persist && (!on || old(enabled) || !ready) ==> kv == old(kv)
      ensures !persist ==> swept == kv
      ensures ready ==> (recoverOnMaintenance <==> on && old(enabled) && old(recoverOnMaintenance))
      ensures PlaysAs(pending, if persist && !ready then old(pending) + [Persist(on)] else old(pending))
      ensures ready ==> cancelMaintenanceWait.None? || cancelMaintenanceWait == old(cancelMaintenanceWait)
    {
      hide Keeps, Clockwork, Maintained, Recovered, Choice, Played;
      OnlyThenRecovering();
      if on {
        if !enabled {
          Enabling();
          enabled := true;
          recoverOnMaintenance := true;
          ScheduleMaintenance(now);
        }
      } else if enabled {
        SwitchOff();
      }
      swept := kv;
      if persist {
        PlaysBefore(pending, old(pending), Persist(on));
        PersistEnabled(on);
      }
    }

    lemma OnlyThenRecovering()
      requires Ticks()
      ensures recoverOnMaintenance ==> enabled
    {
    }

    lemma Enabling()
      requires Ticks() && !enabled
      ensures cleanupRunId.None? && cancelMaintenanceWait.None?
      ensures Clockwork(true, ready, cleanupRunId, cancelMaintenanceWait, true, timers, nextHandle, options.cleanupIntervalTicks, pending)
    {
    }

    method PersistEnabled(on: bool)
      requires Keeps() && Ticks()
      modifies `kv, `recs, `past, `pending
      ensures Keeps() && Ticks() && old(past) <= past && recs == old(recs)
      ensures ready ==> pending == old(pending) && kv == old(kv)[EnabledKey := Flag(on)]
      ensures !ready ==> pending == old(pending) + [Persist(on)] && kv == old(kv)
      ensures Choice(kv) == if ready then on else Choice(old(kv))
    {
      hide Consistent, AllRecoverable, PastOf, Collates;
      if ready {
        Flagged(kv, recs, activeSessions, on);
        WithoutMemory(kv[EnabledKey := Flag(on)], recs, activeSessions);
        NothingMoves(past, known, kv[EnabledKey := Flag(on)], recs);
        Write(EnabledKey, Flag(on), recs);
      } else {
        pending := pending + [Persist(on)];
      }
    }

    method Enable(now: int) returns (ghost swept: Disk)
      requires Valid()
      modifies `enabled, `kv, `recs, `past, `recoverOnMaintenance, `cleanupRunId, `timers, `nextHandle, `cancelMaintenanceWait, `pending
      ensures Valid() && enabled && old(past) <= past
      ensures if !old(enabled) && ready then
          Maintained(collates, Recovered(old(recs), activeSessions, now), activeSessions, options, now, swept, recs)
        else recs == old(recs)
      ensures Choice(kv) == if ready then true else Choice(old(kv))
      ensures !ready ==> PlaysAs(pending, old(pending) + [Persist(true)])
    {
      hide Keeps, Ticks, Maintained, Recovered, Choice, PlaysAs;
      swept := SetEnabled(true, true, now);
    }

    /** Sessions already accepted go on until their footer is written. */
    method Disable(now: int)
      requires Valid()
      modifies `enabled, `kv, `recs, `past, `recoverOnMaintenance, `cleanupRunId, `timers, `nextHandle, `cancelMaintenanceWait, `pending
      ensures Valid() && !enabled && recs == old(recs) && old(past) <= past
      ensures Choice(kv) == if ready then false else Choice(old(kv))
      ensures !ready ==> PlaysAs(pending, old(pending) + [Persist(false)])
    {
      hide Keeps, Ticks, Maintained, Recovered, Choice, PlaysAs;
      var _ := SetEnabled(false, true, now);
    }

    /** The persisted choice, off if there is none. */
    method ApplyPersisted(now: int)
      requires Keeps() && Ticks() && Settled() && ready
      modifies `enabled, `kv, `recs, `past, `recoverOnMaintenance, `cleanupRunId, `timers, `nextHandle, `cancelMaintenanceWait, `pending
      ensures Keeps() && Ticks() && Settled() && old(past) <= past && |pending| <= |old(pending)|
      ensures enabled == Choice(old(kv)) == Choice(kv)
      ensures cancelMaintenanceWait.None? || cancelMaintenanceWait == old(cancelMaintenanceWait)
      ensures OnlyEnds(old(recs), recs, activeSessions)
      ensures if Choice(old(kv)) && !old(enabled) then
          Maintained(collates, Recovered(old(recs), activeSessions, now), activeSessions, options, now, kv, recs)
        else recs == old(recs) && kv == old(kv)
      ensures recoverOnMaintenance <==> enabled && old(enabled) && old(recoverOnMaintenance)
    {
      hide Keeps, Ticks, Maintained, Recovered, OnlyEnds, PlaysAs;
      var on := EnabledKey in kv && kv[EnabledKey] == Flag(true);
      ghost var recs0, was := recs, enabled;
      var swept := SetEnabled(on, false, now);
      if on && !was {
        MaintainedEnds(collates, recs0, activeSessions, options, now, swept, recs);
      } else {
        NothingEnds(recs0, activeSessions);
      }
    }

    method RestoreEnabled(now: int)
      requires Valid()
      modifies `enabled, `kv, `recs, `past, `recoverOnMaintenance, `cleanupRunId, `timers, `nextHandle, `cancelMaintenanceWait, `pending
      ensures Valid() && OnlyEnds(old(recs), recs, activeSessions) && old(past) <= past
      ensures Choice(kv) == Choice(old(kv))
      ensures if ready then enabled == Choice(kv) else enabled == old(enabled) && pending == old(pending) + [Restore]
      ensures if ready && Choice(old(kv)) && !old(enabled) then
          Maintained(collates, Recovered(old(recs), activeSessions, now), activeSessions, options, now, kv, recs)
        else recs == old(recs) && kv == old(kv)
    {
      hide Keeps, Maintained, Recovered, OnlyEnds, PlaysAs;
      NothingEnds(recs, activeSessions);
      if ready {
        ApplyPersisted(now);
      } else {
        pending := pending + [Restore];
      }
    }

    /** Refused, with nothing changed, unless every given limit is positive. */
    method Configure(maxSessions: Option<int>, maxBytes: Option<int>, maxAgeMs: Option<real>, cleanupIntervalTicks: Option<int>, now: int)
      returns (ok: bool)
      requires Valid()
      modifies `options, `kv, `recs, `past, `recoverOnMaintenance, `cleanupRunId, `timers, `nextHandle, `cancelMaintenanceWait, `pending
      ensures Valid() && old(past) <= past && Choice(kv) == Choice(old(kv))
      ensures !ready ==> PlaysAs(pending, old(pending))
      ensures ok <==>
        && (maxSessions.Some? ==> 1 <= maxSessions.value <= 9007199254740991) && (maxBytes.Some? ==> 1 <= maxBytes.value <= 9007199254740991)
        && (maxAgeMs.Some? ==> maxAgeMs.value > 0.0)
        && (cleanupIntervalTicks.Some? ==> 1 <= cleanupIntervalTicks.value <= 9007199254740991)
      ensures options == if !ok then old(options) else Options(
          if maxSessions.Some? then maxSessions.value else old(options).maxSessions,
          if maxBytes.Some? then maxBytes.value else old(options).maxBytes,
          if maxAgeMs.Some? then maxAgeMs.value else old(options).maxAgeMs,
          if cleanupIntervalTicks.Some? then cleanupIntervalTicks.value else old(options).cleanupIntervalTicks)
      ensures if ok && enabled && ready then Maintained(collates, old(recs), activeSessions, options, now, kv, recs)
        else recs == old(recs) && kv == old(kv)
    {
      hide Keeps, Maintained, Recovered;
      if !Positive(maxSessions) || !Positive(maxBytes) || (maxAgeMs.Some? && maxAgeMs.value <= 0.0) || !Positive(cleanupIntervalTicks) {
        return false;
      }
      var previousInterval := options.cleanupIntervalTicks;
      options := Options(
        if maxSessions.Some? then maxSessions.value else options.maxSessions,
        if maxBytes.Some? then maxBytes.value else options.maxBytes,
        if maxAgeMs.Some? then maxAgeMs.value else options.maxAgeMs,
        if cleanupIntervalTicks.Some? then cleanupIntervalTicks.value else options.cleanupIntervalTicks);
      if enabled && previousInterval != options.cleanupIntervalTicks {
        StopCleanupTimer(previousInterval);
      }
      if enabled {
        ScheduleMaintenance(now);
      }
      return true;
    }

    /** What decides what a step of the store does. */
    function Settings(): Setting
      reads this`options, this`enabled, this`ready, this`kv
    {
      Setting(options, enabled, ready, Choice(kv))
    }

    lemma TimerRuns()
      requires Ticks() && Settled() && (ready ==> cancelMaintenanceWait.None?)
      ensures timers != map[] <==> ready && enabled
    {
      if cleanupRunId.Some? {
        assert cleanupRunId.value in timers;
      }
    }

    lemma GateOpens()
      requires Ticks() && !ready
      ensures Clockwork(enabled, true, cleanupRunId, cancelMaintenanceWait, recoverOnMaintenance,
                        timers, nextHandle, options.cleanupIntervalTicks, [])
      ensures cancelMaintenanceWait.Some? ==> Maintain(cancelMaintenanceWait.value) in pending
    {
    }

    ghost function Stands(): Switch
      reads this`enabled, this`kv, this`recoverOnMaintenance
    {
      Switch(enabled, Choice(kv), recoverOnMaintenance)
    }

    /**
     * A callback that waited. One that was cancelled meanwhile still runs, for the world goes
     * through a copy of its list.
     */
    method RunWaiter(callback: Pending, now: int)
      requires Keeps() && Ticks() && Settled() && ready && pending == []
      modifies `enabled, `kv, `recs, `past, `recoverOnMaintenance, `cleanupRunId, `timers, `nextHandle, `cancelMaintenanceWait, `pending
      ensures Keeps() && Ticks() && Settled() && old(past) <= past && pending == []
      ensures cancelMaintenanceWait.Some? ==> !callback.Maintain? && cancelMaintenanceWait == old(cancelMaintenanceWait)
      ensures OnlyEnds(old(recs), recs, activeSessions)
      ensures Stands() == Waited(callback, old(Stands()))
      ensures Ran(collates, callback, old(Stands()), old(recs), activeSessions, options, now, recs)
      ensures match callback
        case Persist(on) => enabled == old(enabled) && recs == old(recs) && kv == old(kv)[EnabledKey := Flag(on)]
        case Restore =>
          && enabled == (EnabledKey in old(kv) && old(kv)[EnabledKey] == Flag(true))
          && if enabled && !old(enabled) then
               Maintained(collates, Recovered(old(recs), activeSessions, now), activeSessions, options, now, kv, recs)
             else recs == old(recs)
        case Maintain(_) =>
          && enabled == old(enabled)
          && if enabled then
               Maintained(collates, if old(recoverOnMaintenance) then Recovered(old(recs), activeSessions, now) else old(recs),
                          activeSessions, options, now, kv, recs)
             else recs == old(recs)
    {
      hide Keeps, Maintained, Recovered, OnlyEnds;
      NothingEnds(recs, activeSessions);
      match callback {
        case Persist(on) =>
          PersistEnabled(on);
        case Restore =>
          ApplyPersisted(now);
        case Maintain(_) =>
          cancelMaintenanceWait := None;
          if enabled {
            ghost var recovering := recoverOnMaintenance;
            RunMaintenance(now);
            if recovering {
              MaintainedEnds(collates, old(recs), activeSessions, options, now, kv, recs);
            } else {
              CleanedEnds(collates, old(recs), activeSessions, options, now, kv, recs);
            }
          }
      }
    }

    /**
     * The world gets ready: what waited for it runs in the order in which it came. The course of
     * the records is that of one maintenance after the other.
     */
    method WorldReady(now: int) returns (ghost course: seq<map<Id, Recorded>>)
      requires Valid() && !ready
      modifies `enabled, `kv, `recs, `past, `recoverOnMaintenance, `cleanupRunId, `timers, `nextHandle, `cancelMaintenanceWait, `pending, `ready
      ensures Valid() && ready && old(past) <= past
      ensures OnlyEnds(old(recs), recs, activeSessions)
      ensures Stands() == WaitedAll(old(pending), old(Stands()))
      ensures RunsTo(collates, old(pending), |old(pending)|, old(Stands()), course, activeSessions, options, now)
      ensures |course| == |old(pending)| + 1 && course[0] == old(recs) && course[|old(pending)|] == recs
    {
      hide Keeps, OnlyEnds, Choice, Clockwork, Ran, Waited, WaitedAll, RunsTo;
      NothingEnds(recs, activeSessions);
      GateOpens();
      ready := true;
      var waiters := pending;
      pending := [];
      course := [recs];
      RunsToNone(collates, waiters, Stands(), course, activeSessions, options, now);
      for i := 0 to |waiters|
        invariant Keeps() && Ticks() && Settled() && ready && pending == []
        invariant cancelMaintenanceWait.Some? ==> Maintain(cancelMaintenanceWait.value) in waiters[i..]
        invariant old(past) <= past && OnlyEnds(old(recs), recs, activeSessions)
        invariant Stands() == WaitedAll(waiters[..i], old(Stands()))
        invariant RunsTo(collates, waiters, i, old(Stands()), course, activeSessions, options, now)
        invariant |course| == i + 1 && course[0] == old(recs) && course[i] == recs
      {
        ghost var before := recs;
        OnlyOneWaits(waiters, i, cancelMaintenanceWait);
        RunWaiter(waiters[i], now);
        RunsOn(collates, waiters, i, old(Stands()), course, activeSessions, options, now, recs);
        course := course + [recs];
        EndsTogether(old(recs), before, recs, activeSessions);
      }
      assert waiters[..|waiters|] == waiters;
    }

    // ---------- reading ----------

    /** As many chunks as asked for, if they are stored. */
    method ReadChunks(id: Id, count: nat) returns (r: Result<seq<bytes>>)
      requires Keeps() && id in recs
      ensures count <= |recs[id].chunks| ==> r == Success(Contents(recs[id].chunks[..count]))
      ensures count > |recs[id].chunks| && ChunkKey(id, |recs[id].chunks|) !in kv ==> r == Failure
    {
      hide AllRecoverable, PastOf, AsTold, OwnRun, Collates, Recorded.Record, Recorded.Proper, Stripped, Decoded, Encoded;
      Held(kv, recs, activeSessions, id);
      ghost var kept := recs[id].chunks;
      var chunks: seq<bytes> := [];
      for index := 0 to count
        invariant index <= |kept| ==> chunks == Contents(kept[..index])
        invariant index > |kept| ==> ChunkKey(id, |kept|) in kv
      {
        var key := ChunkKey(id, index);
        if key !in kv || !kv[key].ChunkText? { return Failure; }
        var content := DecodeBase64(kv[key].text);
        if content.Failure? {
          ghost var stored := index < |kept|;
          if stored {
            StoredDecodes(kept[index].content);
          }
          return Failure;
        }
        if index < |kept| {
          StoredDecodes(kept[index].content);
          assert kept[..index + 1] == kept[..index] + [kept[index]];
          ContentsLast(kept[..index], kept[index]);
        }
        chunks := chunks + [content.value];
      }
      return Success(chunks);
    }

    /**
     * A finished session comes back as its header, as many chunks as its footer counts, and
     * that footer.
     */
    method Read(id: Id) returns (r: Result<Option<BegTraceContainer>>)
      requires Keeps()
      ensures id !in recs || recs[id].end.None? ==> r == Success(None)
      ensures id in recs && recs[id].end.Some? && recs[id].end.value.chunkCount <= |recs[id].chunks| ==>
        && r == Success(Some(BegTraceContainer(recs[id].header, Contents(ReadBack(recs[id])), recs[id].end.value)))
        && ReadBack(recs[id]) == recs[id].chunks[..recs[id].end.value.chunkCount]
      ensures id in recs && recs[id].end.Some? ==>
        recs[id].end.value.chunkCount > |recs[id].chunks| && ChunkKey(id, |recs[id].chunks|) !in kv ==> r == Failure
    {
      hide AllRecoverable, PastOf, AsTold, OwnRun, Collates, Consistent;
      OnlyRecorded(kv, recs, activeSessions, id);
      if MetaKey(id) !in kv { return Success(None); }
      RecordOf(kv, recs, activeSessions, id);
      var meta := kv[MetaKey(id)].meta;
      if meta.end.None? { return Success(None); }
      var chunks := ReadChunks(id, meta.chunkCount);
      if chunks.Failure? { return Failure; }
      return Success(Some(BegTraceContainer(meta.header, chunks.value, meta.end.value)));
    }

    method ToBytes(id: Id) returns (r: Result<bytes>)
      requires Keeps()
      ensures id !in recs || recs[id].end.None? ==> r == Failure
      ensures id in recs && recs[id].end.Some? && recs[id].end.value.chunkCount <= |recs[id].chunks| ==>
        r == FileBytes(recs[id].header, Contents(ReadBack(recs[id])), recs[id].end.value)
      ensures id in recs && recs[id].end.Some? ==>
        recs[id].end.value.chunkCount > |recs[id].chunks| && ChunkKey(id, |recs[id].chunks|) !in kv ==> r == Failure
    {
      hide Keeps, FileBytes;
      var stored := Read(id);
      if stored.Failure? || stored.value.None? { return Failure; }
      r := EncodeBegTrace(stored.value.value.header, stored.value.value.chunks, stored.value.value.end);
    }

    /** A running session gets a footer that counts what is stored. */
    method ToSnapshotBytes(id: Id, now: int) returns (r: Result<bytes>)
      requires Keeps()
      ensures id !in recs ==> r == Failure
      ensures id in recs && SnapshotEnd(recs[id], now).chunkCount <= |recs[id].chunks| ==>
        r == FileBytes(recs[id].header, Contents(ReadBack(recs[id])), SnapshotEnd(recs[id], now))
      ensures id in recs && recs[id].end.Some? ==>
        recs[id].end.value.chunkCount > |recs[id].chunks| && ChunkKey(id, |recs[id].chunks|) !in kv ==> r == Failure
    {
      hide AllRecoverable, PastOf, AsTold, OwnRun, Collates, Consistent, FileBytes, Recorded.Record, SnapshotEnd;
      OnlyRecorded(kv, recs, activeSessions, id);
      if MetaKey(id) !in kv { return Failure; }
      RecordOf(kv, recs, activeSessions, id);
      SnapshotFooter(recs[id], id, now);
      var meta := kv[MetaKey(id)].meta;
      var chunks := ReadChunks(id, meta.chunkCount);
      if chunks.Failure? { return Failure; }
      var end := if meta.end.Some? then meta.end.value
        else SessionEnd(id, Interrupted, meta.lastTick, now, Some(Ascii("live-snapshot")), meta.eventCount, meta.chunkCount);
      r := EncodeBegTrace(meta.header, chunks.value, end);
    }

    /** The timer. */
    method OnCleanupTimer(now: int)
      requires Valid() && timers != map[]
      modifies `kv, `recs, `past
      ensures Valid() && old(past) <= past
      ensures CleanedUp(collates, old(kv), old(recs), activeSessions, options, now, kv, recs)
      ensures OnlyEnds(old(recs), recs, activeSessions) && Choice(kv) == Choice(old(kv))
    {
      hide Keeps, Candidates, Without, Gone, Ticks, OnlyEnds, Choice;
      KeepsConsistent();
      var _, xs := Cleanup(now);
      SameChoice(old(kv), Gone(xs, options, now));
      CleanedEnds(collates, old(recs), activeSessions, options, now, kv, recs);
    }
  }

  lemma StoredDecodes(b: bytes)
    ensures Decoded(Stripped(Encoded(b))) == Success(b)
  {
    NoSpaceEncoded(b);
    NothingToStrip(Encoded(b));
    EncodedDecodes(b);
  }

  lemma OnlyRecorded(kv: Disk, recs: map<Id, Recorded>, active: set<Id>, id: Id)
    requires Consistent(kv, recs, active)
    ensures MetaKey(id) in kv <==> id in recs
  {
    if id in recs {
      RecordOf(kv, recs, active, id);
    }
  }

  predicate Positive(n: Option<int>) { n.Some? ==> 0 < n.value <= MAX_SAFE }

  /** Whether the key-value store says that the history is on. */
  predicate Choice(kv: Disk) { EnabledKey in kv && kv[EnabledKey] == Flag(true) }

  /** The limits, the switch, whether the world is ready, and the persisted choice. */
  datatype Setting = Setting(options: Options, on: bool, ready: bool, choice: bool)

  /** The switch, the persisted choice, and whether recovery is due. */
  datatype Switch = Switch(on: bool, choice: bool, recovering: bool)

  /** What a waiting callback does to them; the world is ready by then. */
  function Waited(callback: Pending, w: Switch): Switch {
    match callback
    case Persist(on) => w.(choice := on)
    case Restore => Switch(w.choice, w.choice, w.recovering && w.choice && w.on)
    case Maintain(_) => w.(recovering := w.recovering && !w.on)
  }

  function WaitedAll(pending: seq<Pending>, w: Switch): Switch {
    if pending == [] then w else Waited(pending[|pending| - 1], WaitedAll(pending[..|pending| - 1], w))
  }

  /** Maintenance is what a waiting callback may do to the records. */
  ghost predicate Ran(
    c: Collation, callback: Pending, w: Switch, recs: map<Id, Recorded>, active: set<Id>, o: Options, now: int, recs': map<Id, Recorded>)
  {
    if callback.Maintain? && w.on then
      var first := if w.recovering then Recovered(recs, active, now) else recs;
      exists kv :: Maintained(c, first, active, o, now, kv, recs')
    else if callback.Restore? && w.choice && !w.on then
      var first := Recovered(recs, active, now);
      exists kv :: Maintained(c, first, active, o, now, kv, recs')
    else
      recs' == recs
  }

  /** The first callbacks have run, one after the other. */
  ghost predicate RunsTo(
    c: Collation, waiters: seq<Pending>, n: nat, w: Switch, course: seq<map<Id, Recorded>>, active: set<Id>, o: Options, now: int)
  {
    && n <= |waiters| && |course| == n + 1
    && forall i :: 0 <= i < n ==> Ran(c, waiters[i], WaitedAll(waiters[..i], w), course[i], active, o, now, course[i + 1])
  }

  lemma RunsToNone(
    c: Collation, waiters: seq<Pending>, w: Switch, course: seq<map<Id, Recorded>>, active: set<Id>, o: Options, now: int)
    requires |course| == 1
    ensures RunsTo(c, waiters, 0, w, course, active, o, now) && WaitedAll(waiters[..0], w) == w
  {
  }

  lemma RunsOn(
    c: Collation, waiters: seq<Pending>, n: nat, w: Switch, course: seq<map<Id, Recorded>>, active: set<Id>, o: Options, now: int,
    recs: map<Id, Recorded>)
    requires RunsTo(c, waiters, n, w, course, active, o, now) && n < |waiters|
    requires Ran(c, waiters[n], WaitedAll(waiters[..n], w), course[n], active, o, now, recs)
    ensures RunsTo(c, waiters, n + 1, w, course + [recs], active, o, now)
    ensures WaitedAll(waiters[..n + 1], w) == Waited(waiters[n], WaitedAll(waiters[..n], w))
  {
    hide Ran, Waited;
    assert waiters[..n + 1][..n] == waiters[..n];
    var longer := course + [recs];
    forall i | 0 <= i <= n
      ensures Ran(c, waiters[i], WaitedAll(waiters[..i], w), longer[i], active, o, now, longer[i + 1])
    {
      assert i < n ==> longer[i] == course[i] && longer[i + 1] == course[i + 1];
    }
  }

  /** Where the switch and the persisted choice stand after everything that waits has run. */
  function Played(pending: seq<Pending>, on: bool, choice: bool): (bool, bool) {
    var w := WaitedAll(pending, Switch(on, choice, false));
    (w.on, w.choice)
  }

  /** A wait that is not the next callback is a later one. */
  lemma OnlyOneWaits(waiters: seq<Pending>, i: nat, wait: Option<nat>)
    requires i < |waiters| && (wait.Some? ==> Maintain(wait.value) in waiters[i..])
    ensures wait.Some? && !waiters[i].Maintain? ==> Maintain(wait.value) in waiters[i + 1..]
  {
    assert waiters[i..] == [waiters[i]] + waiters[i + 1..];
  }

  ghost predicate PlaysAs(p: seq<Pending>, q: seq<Pending>) {
    forall on, choice :: Played(p, on, choice) == Played(q, on, choice)
  }

  lemma WaitedOne(last: Pending, w: Switch)
    ensures WaitedAll([last], w) == Waited(last, w)
  {
    assert [last][..0] == [];
  }

  lemma PlayedLast(p: seq<Pending>, last: Pending, on: bool, choice: bool)
    ensures Played(p + [last], on, choice) == var (on', choice') := Played(p, on, choice); Played([last], on', choice')
  {
    assert (p + [last])[..|p|] == p;
    WaitedOne(last, Switch(Played(p, on, choice).0, Played(p, on, choice).1, false));
  }

  lemma WaitPlaysNothing(p: seq<Pending>, token: nat)
    ensures PlaysAs(p + [Maintain(token)], p)
  {
    forall on, choice
      ensures Played(p + [Maintain(token)], on, choice) == Played(p, on, choice)
    {
      PlayedLast(p, Maintain(token), on, choice);
      NothingPlayed(Maintain(token), Played(p, on, choice).0, Played(p, on, choice).1);
    }
  }

  lemma NothingPlayed(last: Pending, on: bool, choice: bool)
    ensures Played([last], on, choice) ==
      if last.Maintain? then (on, choice) else if last.Restore? then (choice, choice) else (on, last.on)
  {
    WaitedOne(last, Switch(on, choice, false));
  }

  lemma PlaysBefore(p: seq<Pending>, q: seq<Pending>, last: Pending)
    requires PlaysAs(p, q)
    ensures PlaysAs(p + [last], q + [last])
  {
    forall on, choice
      ensures Played(p + [last], on, choice) == Played(q + [last], on, choice)
    {
      PlayedLast(p, last, on, choice);
      PlayedLast(q, last, on, choice);
    }
  }

  lemma {:induction false} CancelledPlays(pending: seq<Pending>, token: nat)
    ensures PlaysAs(Cancelled(pending, token), pending)
  {
    hide Played;
    if pending != [] {
      var front, last := pending[..|pending| - 1], pending[|pending| - 1];
      CancelledPlays(front, token);
      assert pending == front + [last];
      forall on, choice
        ensures Played(Cancelled(pending, token), on, choice) == Played(pending, on, choice)
      {
        PlayedLast(front, last, on, choice);
        PlayedLast(Cancelled(front, token), last, on, choice);
        NothingPlayed(last, Played(front, on, choice).0, Played(front, on, choice).1);
        assert Played(Cancelled(front, token), on, choice) == Played(front, on, choice);
        assert Cancelled(front, token) + [] == Cancelled(front, token);
      }
    }
  }

  /**
   * Restored and then enabled before the world is ready: the store ends as it was persisted
   * before, although the new choice is persisted. The other way round it ends enabled.
   */
  lemma LastRestoreWins(choice: bool)
    ensures Played([Restore, Persist(true)], true, choice) == (choice, true)
    ensures Played([Persist(true), Restore], true, choice) == (true, true)
  {
    hide Played;
    assert [Restore] + [Persist(true)] == [Restore, Persist(true)] && [Persist(true)] + [Restore] == [Persist(true), Restore];
    PlayedLast([Restore], Persist(true), true, choice);
    PlayedLast([Persist(true)], Restore, true, choice);
    NothingPlayed(Restore, true, choice);
    NothingPlayed(Persist(true), choice, choice);
    NothingPlayed(Persist(true), true, choice);
    NothingPlayed(Restore, true, true);
  }

  lemma SameChoice(kv: Disk, gone: set<Id>)
    ensures Choice(Without(kv, gone)) == Choice(kv)
  {
    assert EnabledKey in kv <==> EnabledKey in Without(kv, gone);
  }

  function Cancelled(pending: seq<Pending>, token: nat): seq<Pending> {
    if pending == [] then []
    else
      var last := pending[|pending| - 1];
      Cancelled(pending[..|pending| - 1], token) + (if last == Maintain(token) then [] else [last])
  }

  lemma {:induction false} CancelledIs(pending: seq<Pending>, token: nat)
    requires forall i, j :: 0 <= i < j < |pending| && pending[i].Maintain? ==> pending[i] != pending[j]
    ensures var r := Cancelled(pending, token);
      && |r| <= |pending|
      && (forall p :: p in r <==> p in pending && p != Maintain(token))
      && (forall i, j :: 0 <= i < j < |r| && r[i].Maintain? ==> r[i] != r[j])
  {
    if pending != [] {
      var front, last := pending[..|pending| - 1], pending[|pending| - 1];
      CancelledIs(front, token);
      assert pending == front + [last];
      assert last.Maintain? ==> last !in front;
      assert forall j :: 0 <= j < |Cancelled(front, token)| ==> Cancelled(front, token)[j] in front;
    }
  }

  /** Sessions may go or get an end; nothing else happens, and active ones stay. */
  ghost predicate OnlyEnds(recs: map<Id, Recorded>, recs': map<Id, Recorded>, active: set<Id>) {
    && (forall id :: id in recs' ==>
          id in recs && recs'[id].header == recs[id].header && recs'[id].chunks == recs[id].chunks
          && (recs[id].end.Some? || id in active ==> recs'[id] == recs[id]))
    && (forall id :: id in recs && id in active ==> id in recs')
  }

  lemma NothingEnds(recs: map<Id, Recorded>, active: set<Id>)
    ensures OnlyEnds(recs, recs, active)
  {
  }

  lemma EndsTogether(a: map<Id, Recorded>, b: map<Id, Recorded>, c: map<Id, Recorded>, active: set<Id>)
    requires OnlyEnds(a, b, active) && OnlyEnds(b, c, active)
    ensures OnlyEnds(a, c, active)
  {
  }

  lemma CandidatesIdle(c: Collation, kv: Disk, active: set<Id>, xs: seq<Meta>)
    requires Candidates(c, kv, active, xs)
    ensures IdsOf(xs) !! active
  {
  }

  lemma CleanedList(
    c: Collation, kv: Disk, recs: map<Id, Recorded>, active: set<Id>, o: Options, now: int, kv': Disk, recs': map<Id, Recorded>)
    returns (xs: seq<Meta>)
    requires CleanedUp(c, kv, recs, active, o, now, kv', recs')
    ensures Candidates(c, kv, active, xs) && kv' == Without(kv, Gone(xs, o, now)) && recs' == recs - Gone(xs, o, now)
  {
    xs :| Candidates(c, kv, active, xs) && kv' == Without(kv, Gone(xs, o, now)) && recs' == recs - Gone(xs, o, now);
  }

  /** Wherever a cleanup happens, it leaves exactly the sessions that stay. */
  lemma CleanedRetains(
    c: Collation, kv: Disk, recs: map<Id, Recorded>, active: set<Id>, o: Options, now: int, kv': Disk, recs': map<Id, Recorded>)
    requires Collates(c) && Consistent(kv, recs, active) && CleanedUp(c, kv, recs, active, o, now, kv', recs')
    ensures RetentionRule.Retained(c, recs, active, o, now, recs')
  {
    hide Candidates, Without, Survivors, Consistent, RetentionRule.Retained;
    var xs := CleanedList(c, kv, recs, active, o, now, kv', recs');
    RetentionRule.CleanupExactly(c, kv, recs, active, xs, o, now);
  }

  lemma CleanedEnds(
    c: Collation, recs: map<Id, Recorded>, active: set<Id>, o: Options, now: int, kv: Disk, recs': map<Id, Recorded>)
    requires Maintained(c, recs, active, o, now, kv, recs')
    ensures OnlyEnds(recs, recs', active)
  {
    hide Candidates, Without, Survivors, Consistent;
    var kv1 :| CleanedUp(c, kv1, recs, active, o, now, kv, recs');
    var xs := CleanedList(c, kv1, recs, active, o, now, kv, recs');
    CandidatesIdle(c, kv1, active, xs);
  }

  lemma MaintainedEnds(
    c: Collation, recs: map<Id, Recorded>, active: set<Id>, o: Options, now: int, kv: Disk, recs': map<Id, Recorded>)
    requires Maintained(c, Recovered(recs, active, now), active, o, now, kv, recs')
    ensures OnlyEnds(recs, recs', active)
  {
    hide Maintained;
    CleanedEnds(c, Recovered(recs, active, now), active, o, now, kv, recs');
    assert OnlyEnds(recs, Recovered(recs, active, now), active);
    EndsTogether(recs, Recovered(recs, active, now), recs', active);
  }

  /** A cleanup of the sessions `recs1`. */
  ghost predicate Maintained(
    c: Collation, recs1: map<Id, Recorded>, active: set<Id>, o: Options, now: int, kv: Disk, recs: map<Id, Recorded>)
  {
    exists kv1 :: Consistent(kv1, recs1, active) && CleanedUp(c, kv1, recs1, active, o, now, kv, recs)
  }

  /** Recovery so far: the sessions of `done` are dealt with. */
  function RecoveredSome(recs: map<Id, Recorded>, active: set<Id>, now: int, done: set<Id>): map<Id, Recorded> {
    map id | id in recs ::
      if id in done && Leftover(recs[id], id, active) then recs[id].(end := Some(Interruption(recs[id], now))) else recs[id]
  }

  lemma NoneRecovered(recs: map<Id, Recorded>, active: set<Id>, now: int)
    ensures RecoveredSome(recs, active, now, {}) == recs
  {
  }

  lemma OneRecovered(recs: map<Id, Recorded>, active: set<Id>, now: int, done: set<Id>, id: Id)
    requires id in recs && id !in done
    ensures var before := RecoveredSome(recs, active, now, done);
      && id in before && before[id] == recs[id] && (Leftover(recs[id], id, active) <==> recs[id].end.None? && id !in active)
      && RecoveredSome(recs, active, now, done + {id}) ==
           if Leftover(recs[id], id, active) then before[id := recs[id].(end := Some(Interruption(recs[id], now)))] else before
  {
    hide Interruption;
  }

  lemma AllRecovered(recs: map<Id, Recorded>, active: set<Id>, now: int, done: set<Id>)
    requires forall id :: id in recs ==> id in done
    ensures RecoveredSome(recs, active, now, done) == Recovered(recs, active, now)
  {
    hide Interruption;
  }

  lemma ListedOnce(c: Collation, kv: Disk, recs: map<Id, Recorded>, active: set<Id>, all: seq<Meta>, i: nat)
    requires Consistent(kv, recs, active) && Ranked(c, all) && i < |all| && forall m :: m in all <==> Stored(kv, m)
    ensures var id := all[i].header.sessionId;
      id in recs && id !in IdsOf(all[..i]) && (all[i].status == Running <==> recs[id].end.None?)
  {
    assert all[i] in all;
    RecordOf(kv, recs, active, all[i].header.sessionId);
  }

  lemma AllListed(kv: Disk, recs: map<Id, Recorded>, active: set<Id>, all: seq<Meta>)
    requires Consistent(kv, recs, active) && forall m :: m in all <==> Stored(kv, m)
    ensures forall id :: id in recs ==> id in IdsOf(all)
  {
    forall id | id in recs ensures id in IdsOf(all) {
      RecordOf(kv, recs, active, id);
      assert recs[id].Record() in all;
    }
  }

  lemma InterruptedRecord(rec: Recorded, id: Id, now: int)
    requires rec.end.None? && rec.Proper(id)
    ensures var meta := rec.Record();
      var end := SessionEnd(id, Interrupted, meta.lastTick, now, Some(Ascii("runtime-recovered")), meta.eventCount, meta.chunkCount);
      && end == Interruption(rec, now)
      && rec.(end := Some(end)).Record() == meta.(status := Over(Interrupted), end := Some(end))
  {
  }

  lemma SnapshotFooter(rec: Recorded, id: Id, now: int)
    requires rec.Proper(id)
    ensures var meta := rec.Record();
      && meta.header == rec.header && meta.chunkCount == SnapshotEnd(rec, now).chunkCount && meta.end == rec.end
      && (if meta.end.Some? then meta.end.value
          else SessionEnd(id, Interrupted, meta.lastTick, now, Some(Ascii("live-snapshot")), meta.eventCount, meta.chunkCount))
         == SnapshotEnd(rec, now)
    ensures SnapshotEnd(rec, now).chunkCount <= |rec.chunks| ==> ReadBack(rec) == rec.chunks[..SnapshotEnd(rec, now).chunkCount]
    ensures rec.end.Some? ==> SnapshotEnd(rec, now) == rec.end.value
  {
    assert rec.chunks[..|rec.chunks|] == rec.chunks;
  }

  lemma NoIds(xs: seq<Meta>)
    ensures IdsOf(xs[|xs|..]) == {}
  {
  }

  /** The oldest of the first sessions, and what is left without it. */
  lemma OldestOf(c: Collation, xs: seq<Meta>, index: nat, maxBytes: nat)
    requires Ranked(c, xs) && index < |xs|
    ensures IdsOf(xs[index..]) == IdsOf(xs[index + 1..]) + {xs[index].header.sessionId}
    ensures xs[index].header.sessionId !in IdsOf(xs[index + 1..])
    ensures TotalBytes(xs[..index + 1]) == TotalBytes(xs[..index]) + xs[index].storedBytes
    ensures TotalBytes(xs[..index + 1]) > maxBytes ==> Fitting(xs[..index + 1], maxBytes) == Fitting(xs[..index], maxBytes)
  {
    assert xs[index..] == [xs[index]] + xs[index + 1..];
    assert xs[..index + 1][..index] == xs[..index];
  }

  lemma FittingDone(xs: seq<Meta>, maxBytes: nat)
    requires xs == [] || TotalBytes(xs) <= maxBytes
    ensures Fitting(xs, maxBytes) == xs
  {
  }

  lemma PrefixDropped(xs: seq<Meta>, keep: seq<Meta>, index: nat, gone: set<Id>)
    requires index <= |xs| && keep == xs[..index] && gone == IdsOf(xs[index..])
    ensures gone <= IdsOf(xs)
  {
  }

  /** Of `xs` just those in `keep` remain, for `gone` are the ids of the others. */
  ghost predicate Dropped(xs: seq<Meta>, keep: seq<Meta>, gone: set<Id>) {
    gone <= IdsOf(xs) && forall m :: m in keep <==> m in xs && m.header.sessionId !in gone
  }

  /** Of the listed sessions none is gone that started later than one that is not. */
  ghost predicate OldestGo(xs: seq<Meta>, gone: set<Id>) {
    forall i, j :: 0 <= i < |xs| && 0 <= j < |xs| && xs[i].header.sessionId in gone && xs[j].header.sessionId !in gone ==>
      xs[i].header.startWallTime <= xs[j].header.startWallTime
  }

  lemma PrefixOldest(c: Collation, xs: seq<Meta>, n: nat)
    requires Ranked(c, xs) && n <= |xs|
    ensures OldestGo(xs, IdsOf(xs[n..]))
  {
    var gone := IdsOf(xs[n..]);
    NewestFirst(c, xs);
    forall j | n <= j < |xs| ensures xs[j].header.sessionId in gone {
      assert xs[j] == xs[n..][j - n];
    }
    forall i | 0 <= i < |xs| && xs[i].header.sessionId in gone ensures n <= i {
      var k :| 0 <= k < |xs[n..]| && xs[n..][k].header.sessionId == xs[i].header.sessionId;
      assert xs[n..][k] == xs[n + k];
    }
  }

  ghost predicate Removal(
    c: Collation, kv: Disk, recs: map<Id, Recorded>, active: set<Id>, xs: seq<Meta>, keep: seq<Meta>,
    removed: seq<Id>, gone: set<Id>, kv': Disk, recs': map<Id, Recorded>)
  {
    && kv' == Without(kv, gone) && recs' == recs - gone
    && Dropped(xs, keep, gone) && Candidates(c, kv', active, keep)
    && forall id :: id in removed <==> id in gone
  }

  lemma StillListed(kv: Disk, gone: set<Id>, m: Meta)
    requires Stored(kv, m) && m.header.sessionId !in gone
    ensures MetaKey(m.header.sessionId) in Without(kv, gone) && OfSession(MetaKey(m.header.sessionId), m.header.sessionId)
  {
  }

  lemma NothingGone(kv: Disk, recs: map<Id, Recorded>)
    ensures Without(kv, {}) == kv && recs - {} == recs
  {
  }

  lemma GoneTogether(kv: Disk, recs: map<Id, Recorded>, a: set<Id>, b: set<Id>)
    ensures Without(Without(kv, a), b) == Without(kv, a + b) && recs - a - b == recs - (a + b)
  {
  }

  lemma SameCandidates(c: Collation, kv: Disk, active: set<Id>, xs: seq<Meta>, ys: seq<Meta>)
    requires Collates(c) && Candidates(c, kv, active, xs) && Candidates(c, kv, active, ys)
    ensures xs == ys
  {
    RankedUnique(c, xs, ys);
  }

  lemma DroppedTogether(xs: seq<Meta>, ys: seq<Meta>, zs: seq<Meta>, a: set<Id>, b: set<Id>)
    requires Dropped(xs, ys, a) && Dropped(ys, zs, b)
    ensures Dropped(xs, zs, a + b)
  {
  }

  lemma DroppedIs(xs: seq<Meta>, keep: seq<Meta>, gone: set<Id>)
    requires Dropped(xs, keep, gone) && DistinctIds(xs)
    ensures gone == IdsOf(xs) - IdsOf(keep)
  {
  }

  lemma LastRanked(c: Collation, all: seq<Meta>, i: nat, some: seq<Meta>)
    requires Ranked(c, all) && i < |all| && Ranked(c, some) && forall m :: m in some ==> m in all[..i]
    ensures Ranked(c, some + [all[i]])
  {
    forall k | 0 <= k < |some| ensures Before(c)(some[k], all[i]) && some[k].header.sessionId != all[i].header.sessionId {
      assert some[k] in all[..i];
    }
  }

  lemma EndRecord(rec: Recorded, end: SessionEnd)
    requires rec.end.None?
    ensures rec.(end := Some(end)).Record() ==
      rec.Record().(status := Over(end.status), end := Some(end), chunkCount := end.chunkCount,
                    eventCount := end.eventCount, lastTick := end.endTick)
  {
  }

  lemma StoredKey(kv: Disk, recs: map<Id, Recorded>, active: set<Id>, k: Key)
    requires Consistent(kv, recs, active) && k in kv
    ensures !k.EnabledKey? ==> Dotless(k.id)
  {
  }

  lemma StoredMeta(kv: Disk, recs: map<Id, Recorded>, active: set<Id>, k: Key)
    requires Consistent(kv, recs, active) && k in kv
    ensures !k.EnabledKey? ==> Dotless(k.id)
    ensures k.MetaKey? ==> kv[k].MetaText? && kv[k].meta.header.sessionId == k.id
  {
    if k.MetaKey? {
      Held(kv, recs, active, k.id);
    }
  }

  lemma RankFound(c: Collation, found: seq<Meta>)
    requires Collates(c) && DistinctIds(found)
    ensures Ranked(c, Sort(found, Before(c)))
    ensures forall m :: m in Sort(found, Before(c)) <==> m in found
  {
    hide Sort;
    var t := Sort(found, Before(c));
    BeforeRanks(c);
    SortOrders(found, Before(c));
    SortNoRepeats(found, Before(c));
    forall m ensures m in t <==> m in found { SortKeeps(found, Before(c), m); }
    forall i, j | 0 <= i < j < |t| ensures t[i].header.sessionId != t[j].header.sessionId {
      assert t[i] in found && t[j] in found;
    }
  }

  lemma ActiveIsRecorded(kv: Disk, recs: map<Id, Recorded>, active: set<Id>, id: Id)
    requires Consistent(kv, recs, active)
    ensures id in active ==> id in recs && recs[id].end.None?
  {
  }

  lemma ActiveIsOwn(recs: map<Id, Recorded>, known: map<Id, Account>, active: set<Id>, id: Id)
    requires AsTold(recs, known) && OwnRun(recs, known, active)
    ensures id in active ==>
      && id in recs && id in known && known[id].own && known[id].end.None?
      && recs[id].header == known[id].header && recs[id].chunks == known[id].chunks && recs[id].end.None?
  {
  }

  lemma RecordOf(kv: Disk, recs: map<Id, Recorded>, active: set<Id>, id: Id)
    requires Consistent(kv, recs, active) && id in recs
    ensures MetaKey(id) in kv && kv[MetaKey(id)] == MetaText(recs[id].Record()) && recs[id].Proper(id)
    ensures recs[id].Record().chunkCount == if recs[id].end.Some? then recs[id].end.value.chunkCount else |recs[id].chunks|
  {
    Held(kv, recs, active, id);
  }

  lemma NextRecord(rec: Recorded, c: TraceChunk)
    requires rec.end.None? && c.index == |rec.chunks|
    ensures rec.Chunk(c).Record() ==
      rec.Record().(chunkCount := c.index + 1, eventCount := c.lastSequence, lastTick := c.endTick,
                    storedBytes := rec.Record().storedBytes + |Encoded(c.content)|)
  {
    OneMoreChunk(rec.chunks, c);
  }
}
