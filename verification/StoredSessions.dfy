/**
 * What the history store (packages/trace/src/runtime/historyStore.ts) keeps of its sessions.
 * A `Recorded` is what was accepted for a session; `Consistent` says that a key-value store
 * holds it, as it must even if the process stops between two writes.
 */
module StoredSessions {
  import opened Wrappers
  import opened Bytes
  import opened TraceTypes
  import opened StoreKeys
  import opened Session
  import Base64

  datatype StoredStatus = Running | Over(status: Status)

  /** The record of a session, kept under its `.meta` key. */
  datatype Meta = Meta(
    header: SessionHeader, status: StoredStatus, chunkCount: nat, eventCount: nat,
    lastTick: int, storedBytes: nat, end: Option<SessionEnd>)

  datatype Value = Flag(on: bool) | MetaText(meta: Meta) | ChunkText(text: seq<unit>)

  type Disk = map<Key, Value>

  /** What the store was told about a session: its header, the chunks so far, and its end. */
  datatype Recorded = Recorded(header: SessionHeader, chunks: seq<TraceChunk>, end: Option<SessionEnd>)
  {
    /** The chunks come in order. */
    predicate Proper(id: Id) {
      && header.sessionId == id
      && (forall i :: 0 <= i < |chunks| ==> chunks[i].index == i)
      && (end.Some? ==> end.value.sessionId == id)
    }

    function LastTick(): int { if chunks == [] then header.startTick else chunks[|chunks| - 1].endTick }

    /** The record that the store keeps. */
    function Record(): Meta {
      match end
      case None =>
        Meta(header, Running, |chunks|, Told(chunks, |chunks|), LastTick(), StoredBytes(chunks), None)
      case Some(e) =>
        Meta(header, Over(e.status), e.chunkCount, e.eventCount, e.endTick, StoredBytes(chunks), end)
    }

    function Chunk(c: TraceChunk): Recorded { this.(chunks := chunks + [c]) }
  }

  /** The sum of the encoded lengths. */
  function StoredBytes(chunks: seq<TraceChunk>): nat {
    if chunks == [] then 0
    else StoredBytes(chunks[..|chunks| - 1]) + |Base64.Encoded(chunks[|chunks| - 1].content)|
  }

  lemma OneMoreChunk(chunks: seq<TraceChunk>, c: TraceChunk)
    ensures StoredBytes(chunks + [c]) == StoredBytes(chunks) + |Base64.Encoded(c.content)|
    ensures Told(chunks + [c], |chunks| + 1) == c.lastSequence
  {
    assert (chunks + [c])[..|chunks|] == chunks;
  }

  predicate HoldsChunks(kv: Disk, id: Id, chunks: seq<TraceChunk>) {
    forall i :: 0 <= i < |chunks| ==>
      ChunkKey(id, i) in kv && kv[ChunkKey(id, i)] == ChunkText(Base64.Encoded(chunks[i].content))
  }

  /** No chunk key beyond those recorded, but for one whose record was never written. */
  ghost predicate HoldsNoMore(kv: Disk, id: Id, n: nat, exact: bool) {
    forall i: nat :: ChunkKey(id, i) in kv ==> i < n || (i == n && !exact)
  }

  ghost predicate Holds(kv: Disk, id: Id, rec: Recorded, exact: bool) {
    && rec.Proper(id)
    && MetaKey(id) in kv && kv[MetaKey(id)] == MetaText(rec.Record())
    && HoldsChunks(kv, id, rec.chunks)
    && HoldsNoMore(kv, id, |rec.chunks|, exact)
  }

  /** Every key is the flag or belongs to a recorded session. */
  ghost predicate Accounted(kv: Disk, recs: map<Id, Recorded>) {
    && (forall k :: k in kv ==> k.EnabledKey? || k.id in recs)
    && (EnabledKey in kv ==> kv[EnabledKey].Flag?)
    && (forall id :: id in recs ==> Dotless(id))
  }

  ghost predicate AllHeld(kv: Disk, recs: map<Id, Recorded>, active: set<Id>) {
    forall id :: id in recs ==> Holds(kv, id, recs[id], id in active)
  }

  /** The active sessions are recorded and still running. */
  ghost predicate ActiveRun(recs: map<Id, Recorded>, active: set<Id>) {
    forall id :: id in active ==> id in recs && recs[id].end.None?
  }

  ghost predicate Consistent(kv: Disk, recs: map<Id, Recorded>, active: set<Id>) {
    Accounted(kv, recs) && AllHeld(kv, recs, active) && ActiveRun(recs, active)
  }

  /** The disk is enough: nothing in memory is needed to make sense of it. */
  lemma WithoutMemory(kv: Disk, recs: map<Id, Recorded>, active: set<Id>)
    requires Consistent(kv, recs, active)
    ensures Consistent(kv, recs, {})
  {
  }

  predicate SameElsewhere(kv: Disk, kv': Disk, id: Id) {
    && (forall k :: k in kv && !OfSession(k, id) ==> k in kv' && kv'[k] == kv[k])
    && (forall k :: k in kv' && !OfSession(k, id) ==> k in kv)
  }

  lemma HeldElsewhere(kv: Disk, kv': Disk, id: Id, other: Id, rec: Recorded, exact: bool)
    requires SameElsewhere(kv, kv', id) && other != id && Holds(kv, other, rec, exact)
    ensures Holds(kv', other, rec, exact)
  {
    assert !OfSession(MetaKey(other), id);
    forall i: nat ensures !OfSession(ChunkKey(other, i), id) {}
  }

  /** One session changes and the others do not. */
  lemma UpdateOne(kv: Disk, recs: map<Id, Recorded>, active: set<Id>, kv': Disk, id: Id, rec: Recorded, active': set<Id>)
    requires Consistent(kv, recs, active) && Dotless(id)
    requires SameElsewhere(kv, kv', id) && Holds(kv', id, rec, id in active')
    requires (active' <= active || active' == active + {id}) && (id in active' ==> rec.end.None?)
    ensures Consistent(kv', recs[id := rec], active')
  {
    hide Holds;
    var recs' := recs[id := rec];
    forall other | other in recs' ensures Holds(kv', other, recs'[other], other in active') {
      if other != id {
        Loosen(kv, other, recs[other], other in active, other in active');
        HeldElsewhere(kv, kv', id, other, recs[other], other in active');
      }
    }
    assert !OfSession(EnabledKey, id);
  }

  lemma Loosen(kv: Disk, id: Id, rec: Recorded, exact: bool, exact': bool)
    requires Holds(kv, id, rec, exact) && (exact' ==> exact)
    ensures Holds(kv, id, rec, exact')
  {
  }

  lemma Held(kv: Disk, recs: map<Id, Recorded>, active: set<Id>, id: Id)
    requires Consistent(kv, recs, active) && id in recs
    ensures Holds(kv, id, recs[id], id in active) && Dotless(id)
  {
  }

  // ---------- what each write does ----------

  lemma Begun(kv: Disk, recs: map<Id, Recorded>, active: set<Id>, header: SessionHeader)
    requires Consistent(kv, recs, active) && header.sessionId !in recs && Dotless(header.sessionId)
    ensures var rec := Recorded(header, [], None);
      Consistent(kv[MetaKey(header.sessionId) := MetaText(rec.Record())], recs[header.sessionId := rec], active + {header.sessionId})
  {
    hide AllHeld, ActiveRun, Consistent;
    var id, rec := header.sessionId, Recorded(header, [], None);
    var kv' := kv[MetaKey(id) := MetaText(rec.Record())];
    NoKeys(kv, recs, active, id);
    UpdateOne(kv, recs, active, kv', id, rec, active + {id});
  }

  lemma NoKeys(kv: Disk, recs: map<Id, Recorded>, active: set<Id>, id: Id)
    requires Consistent(kv, recs, active) && id !in recs
    ensures forall k :: k in kv ==> !OfSession(k, id)
  {
  }

  /** The chunk is written and its record is not: the session is still the earlier one. */
  lemma ChunkWritten(kv: Disk, recs: map<Id, Recorded>, active: set<Id>, id: Id, text: seq<unit>)
    requires Consistent(kv, recs, active) && id in active
    ensures Consistent(kv[ChunkKey(id, |recs[id].chunks|) := ChunkText(text)], recs, {})
  {
    hide AllHeld, Recorded.Record, Recorded.Proper;
    var rec := recs[id];
    Held(kv, recs, active, id);
    var kv' := kv[ChunkKey(id, |rec.chunks|) := ChunkText(text)];
    assert HoldsNoMore(kv', id, |rec.chunks|, false);
    WithoutMemory(kv, recs, active);
    UpdateOne(kv, recs, {}, kv', id, rec, {});
    assert recs[id := rec] == recs;
  }

  lemma ChunkCommitted(kv: Disk, recs: map<Id, Recorded>, active: set<Id>, id: Id, c: TraceChunk)
    requires Consistent(kv, recs, active) && id in active && c.index == |recs[id].chunks|
    ensures var rec := recs[id].Chunk(c);
      Consistent(kv[ChunkKey(id, c.index) := ChunkText(Base64.Encoded(c.content))][MetaKey(id) := MetaText(rec.Record())],
                 recs[id := rec], active)
  {
    hide AllHeld, Recorded.Record;
    var rec := recs[id].Chunk(c);
    Held(kv, recs, active, id);
    var kv' := kv[ChunkKey(id, c.index) := ChunkText(Base64.Encoded(c.content))][MetaKey(id) := MetaText(rec.Record())];
    assert HoldsNoMore(kv', id, |rec.chunks|, true);
    UpdateOne(kv, recs, active, kv', id, rec, active);
  }

  lemma Closed(kv: Disk, recs: map<Id, Recorded>, active: set<Id>, id: Id, end: SessionEnd)
    requires Consistent(kv, recs, active) && id in recs
    requires end.sessionId == id
    ensures var rec := recs[id].(end := Some(end));
      Consistent(kv[MetaKey(id) := MetaText(rec.Record())], recs[id := rec], active - {id})
  {
    hide AllHeld, Recorded.Record;
    var rec := recs[id].(end := Some(end));
    Held(kv, recs, active, id);
    UpdateOne(kv, recs, active, kv[MetaKey(id) := MetaText(rec.Record())], id, rec, active - {id});
  }

  lemma Flagged(kv: Disk, recs: map<Id, Recorded>, active: set<Id>, on: bool)
    requires Consistent(kv, recs, active)
    ensures Consistent(kv[EnabledKey := Flag(on)], recs, active)
  {
    var kv' := kv[EnabledKey := Flag(on)];
    forall id | id in recs ensures Holds(kv', id, recs[id], id in active) {
      assert Holds(kv, id, recs[id], id in active);
      assert MetaKey(id) != EnabledKey;
      forall i: nat ensures ChunkKey(id, i) != EnabledKey {}
    }
  }

  // ---------- removal ----------

  function Without(kv: Disk, ids: set<Id>): Disk {
    map k | k in kv && (k.EnabledKey? || k.id !in ids) :: kv[k]
  }

  lemma Removed(kv: Disk, recs: map<Id, Recorded>, active: set<Id>, ids: set<Id>)
    requires Consistent(kv, recs, active) && ids !! active
    ensures Consistent(Without(kv, ids), recs - ids, active)
  {
    var kv', recs' := Without(kv, ids), recs - ids;
    forall id | id in recs' ensures Holds(kv', id, recs'[id], id in active) {
      assert Holds(kv, id, recs[id], id in active);
      assert MetaKey(id) in kv' && kv'[MetaKey(id)] == kv[MetaKey(id)];
    }
  }
}
