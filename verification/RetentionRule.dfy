/**
 * What `cleanup` of packages/trace/src/runtime/historyStore.ts leaves, said of the sessions
 * themselves: of the ended ones those that are young enough and near enough to the newest.
 */
module RetentionRule {
  import opened Wrappers
  import opened TraceTypes
  import opened StoreKeys
  import opened StoredSessions
  import opened Retention
  import opened Sorting

  /** Ended, in nobody's hands, and not too old. */
  predicate Young(recs: map<Id, Recorded>, active: set<Id>, maxAgeMs: real, now: int, id: Id) {
    id in recs && id !in active && recs[id].end.Some? && (now - recs[id].end.value.endWallTime) as real <= maxAgeMs
  }

  /** Started later, or at the same time with a greater id or the same. */
  predicate NotOlder(c: Collation, b: SessionHeader, a: SessionHeader) {
    b.startWallTime > a.startWallTime || (b.startWallTime == a.startWallTime && c(a.sessionId, b.sessionId))
  }

  lemma NotOlderRanks(c: Collation, x: SessionHeader, y: SessionHeader, z: SessionHeader)
    requires Collates(c)
    ensures NotOlder(c, x, y) || NotOlder(c, y, x)
    ensures NotOlder(c, x, y) && NotOlder(c, y, z) ==> NotOlder(c, x, z)
    ensures NotOlder(c, x, y) && NotOlder(c, y, x) ==> x.sessionId == y.sessionId
  {
    assert c(x.sessionId, y.sessionId) || c(y.sessionId, x.sessionId);
    assert c(z.sessionId, y.sessionId) && c(y.sessionId, x.sessionId) ==> c(z.sessionId, x.sessionId);
  }

  /** The sessions that are young enough and not older than this one. */
  ghost function NotBelow(c: Collation, recs: map<Id, Recorded>, active: set<Id>, maxAgeMs: real, now: int, id: Id): set<Id>
    requires id in recs
  {
    set b | b in recs && Young(recs, active, maxAgeMs, now, b) && NotOlder(c, recs[b].header, recs[id].header)
  }

  /** The encoded lengths of all chunks of some sessions. */
  ghost function Bytes(recs: map<Id, Recorded>, ids: set<Id>): nat
    requires ids <= recs.Keys
  {
    if ids == {} then 0 else var id :| id in ids; StoredBytes(recs[id].chunks) + Bytes(recs, ids - {id})
  }

  lemma {:induction false} BytesWithout(recs: map<Id, Recorded>, ids: set<Id>, id: Id)
    requires ids <= recs.Keys && id in ids
    ensures Bytes(recs, ids) == StoredBytes(recs[id].chunks) + Bytes(recs, ids - {id})
  {
    hide StoredBytes;
    var first :| first in ids && Bytes(recs, ids) == StoredBytes(recs[first].chunks) + Bytes(recs, ids - {first});
    if first != id {
      BytesWithout(recs, ids - {first}, id);
      BytesWithout(recs, ids - {id}, first);
      assert ids - {first} - {id} == ids - {id} - {first};
    }
  }

  /** A session stays as it is, or goes. */
  ghost predicate Stays(c: Collation, recs: map<Id, Recorded>, active: set<Id>, o: Options, now: int, id: Id)
    requires id in recs
  {
    recs[id].end.None? || id in active
    || (Young(recs, active, o.maxAgeMs, now, id)
        && var above := NotBelow(c, recs, active, o.maxAgeMs, now, id);
           |above| <= o.maxSessions && Bytes(recs, above) <= o.maxBytes)
  }

  ghost predicate Retained(c: Collation, recs: map<Id, Recorded>, active: set<Id>, o: Options, now: int, recs': map<Id, Recorded>) {
    && (forall id :: id in recs' ==> id in recs && recs'[id] == recs[id])
    && (forall id :: id in recs ==> (id in recs' <==> Stays(c, recs, active, o, now, id)))
  }

  /** No session that is young enough goes while an older one stays. */
  lemma NewestStay(c: Collation, recs: map<Id, Recorded>, active: set<Id>, o: Options, now: int, recs': map<Id, Recorded>, a: Id, b: Id)
    requires Collates(c) && Retained(c, recs, active, o, now, recs')
    requires Young(recs, active, o.maxAgeMs, now, a) && a in recs'
    requires Young(recs, active, o.maxAgeMs, now, b) && b !in recs'
    ensures !NotOlder(c, recs[b].header, recs[a].header)
    ensures recs[a].header.startWallTime >= recs[b].header.startWallTime
  {
    hide Bytes;
    NotOlderRanks(c, recs[a].header, recs[b].header, recs[a].header);
    if NotOlder(c, recs[b].header, recs[a].header) {
      var few, many := NotBelow(c, recs, active, o.maxAgeMs, now, b), NotBelow(c, recs, active, o.maxAgeMs, now, a);
      forall x | x in few ensures x in many {
        NotOlderRanks(c, recs[x].header, recs[b].header, recs[a].header);
      }
      FewerIn(recs, few, many);
      assert false;
    }
  }

  lemma {:induction false} FewerIn(recs: map<Id, Recorded>, few: set<Id>, many: set<Id>)
    requires few <= many <= recs.Keys
    ensures |few| <= |many| && Bytes(recs, few) <= Bytes(recs, many)
    decreases few
  {
    if few != {} {
      var id :| id in few;
      BytesWithout(recs, few, id);
      BytesWithout(recs, many, id);
      FewerIn(recs, few - {id}, many - {id});
    }
  }

  // ---------- the lists that `cleanup` works on ----------

  ghost predicate ListOf(recs: map<Id, Recorded>, xs: seq<Meta>) {
    DistinctIds(xs) && forall i :: 0 <= i < |xs| ==>
      && xs[i].header.sessionId in recs && xs[i] == recs[xs[i].header.sessionId].Record()
      && recs[xs[i].header.sessionId].header.sessionId == xs[i].header.sessionId
  }

  lemma {:induction false} ListSums(recs: map<Id, Recorded>, xs: seq<Meta>)
    requires ListOf(recs, xs)
    ensures IdsOf(xs) <= recs.Keys && |IdsOf(xs)| == |xs| && Bytes(recs, IdsOf(xs)) == TotalBytes(xs)
  {
    hide StoredBytes, Bytes;
    if xs == [] {
      assert IdsOf(xs) == {};
      NoBytes(recs);
    } else {
      var init, last := xs[..|xs| - 1], xs[|xs| - 1];
      ListSums(recs, init);
      LastId(recs, xs);
      BytesWithout(recs, IdsOf(xs), last.header.sessionId);
    }
  }

  lemma NoBytes(recs: map<Id, Recorded>)
    ensures Bytes(recs, {}) == 0
  {
  }

  lemma LastId(recs: map<Id, Recorded>, xs: seq<Meta>)
    requires ListOf(recs, xs) && xs != []
    ensures var id := xs[|xs| - 1].header.sessionId;
      && id in IdsOf(xs) && IdsOf(xs) - {id} == IdsOf(xs[..|xs| - 1]) && id in recs
      && xs[|xs| - 1].storedBytes == StoredBytes(recs[id].chunks)
  {
    hide StoredBytes;
    var init, last := xs[..|xs| - 1], xs[|xs| - 1];
    assert last in xs && xs == init + [last];
    assert forall m :: m in init ==> m.header.sessionId != last.header.sessionId;
  }

  lemma CandidatesListed(c: Collation, kv: Disk, recs: map<Id, Recorded>, active: set<Id>, xs: seq<Meta>)
    requires Consistent(kv, recs, active) && Candidates(c, kv, active, xs)
    ensures ListOf(recs, xs)
    ensures forall id :: id in recs ==> (recs[id].Record() in xs <==> recs[id].end.Some? && id !in active)
    ensures forall id :: id in IdsOf(xs) <==> id in recs && recs[id].end.Some? && id !in active
    ensures forall id :: id in recs ==> recs[id].header.sessionId == id
  {
    hide Accounted, HoldsChunks, HoldsNoMore, Ordered;
    forall m | m in xs
      ensures var id := m.header.sessionId; id in recs && m == recs[id].Record() && recs[id].header.sessionId == id
    {
      assert Candidate(kv, active, m);
      MetaOf(kv, recs, active, m.header.sessionId);
    }
    forall id | id in recs ensures recs[id].Record() in xs <==> recs[id].end.Some? && id !in active {
      Held(kv, recs, active, id);
      assert Stored(kv, recs[id].Record());
    }
  }

  lemma MetaOf(kv: Disk, recs: map<Id, Recorded>, active: set<Id>, id: Id)
    requires Consistent(kv, recs, active) && MetaKey(id) in kv
    ensures id in recs && kv[MetaKey(id)] == MetaText(recs[id].Record()) && recs[id].header.sessionId == id
  {
    Held(kv, recs, active, id);
  }

  /** The unexpired list tells of the young sessions. */
  lemma UnexpiredIsYoung(c: Collation, kv: Disk, recs: map<Id, Recorded>, active: set<Id>, xs: seq<Meta>, o: Options, now: int)
    requires Consistent(kv, recs, active) && Candidates(c, kv, active, xs)
    ensures var u := Unexpired(xs, now, o.maxAgeMs);
      && Ranked(c, u) && ListOf(recs, u)
      && forall id :: id in recs ==> (recs[id].Record() in u <==> Young(recs, active, o.maxAgeMs, now, id))
  {
    hide Consistent, Unexpired;
    CandidatesListed(c, kv, recs, active, xs);
    UnexpiredRanked(c, xs, now, o.maxAgeMs);
    var u := Unexpired(xs, now, o.maxAgeMs);
    forall i | 0 <= i < |u| ensures u[i] in xs {}
  }

  /** Up to a session the list holds those that are not below it. */
  lemma AboveIsPrefix(c: Collation, recs: map<Id, Recorded>, active: set<Id>, u: seq<Meta>, maxAgeMs: real, now: int, k: nat)
    requires Collates(c) && Ranked(c, u) && ListOf(recs, u) && k < |u|
    requires forall id :: id in recs ==> recs[id].header.sessionId == id
    requires forall id :: id in recs ==> (recs[id].Record() in u <==> Young(recs, active, maxAgeMs, now, id))
    ensures u[k].header.sessionId in recs && NotBelow(c, recs, active, maxAgeMs, now, u[k].header.sessionId) == IdsOf(u[..k + 1])
  {
    hide Young, NotOlder, Collates, Ranked, Recorded.Record;
    var id := u[k].header.sessionId;
    forall i | 0 <= i < |u| ensures u[i].header.sessionId in NotBelow(c, recs, active, maxAgeMs, now, id) <==> i <= k {
      PlaceOf(c, recs, active, u, maxAgeMs, now, k, i);
    }
    forall b | b in NotBelow(c, recs, active, maxAgeMs, now, id) ensures b in IdsOf(u[..k + 1]) {
      var i := IndexIn(u, recs[b].Record());
      RecordHeader(recs[b]);
      assert u[..k + 1][i] == u[i];
    }
    forall b | b in IdsOf(u[..k + 1]) ensures b in NotBelow(c, recs, active, maxAgeMs, now, id) {
      var i :| 0 <= i <= k && u[i].header.sessionId == b;
    }
  }

  lemma IndexIn(u: seq<Meta>, m: Meta) returns (i: nat)
    requires m in u
    ensures i < |u| && u[i] == m
  {
    i :| 0 <= i < |u| && u[i] == m;
  }

  lemma RecordHeader(rec: Recorded)
    ensures rec.Record().header == rec.header
  {
  }

  lemma PlaceOf(c: Collation, recs: map<Id, Recorded>, active: set<Id>, u: seq<Meta>, maxAgeMs: real, now: int, k: nat, i: nat)
    requires Collates(c) && Ranked(c, u) && ListOf(recs, u) && k < |u| && i < |u|
    requires forall id :: id in recs ==> (recs[id].Record() in u <==> Young(recs, active, maxAgeMs, now, id))
    ensures u[k].header.sessionId in recs
    ensures u[i].header.sessionId in NotBelow(c, recs, active, maxAgeMs, now, u[k].header.sessionId) <==> i <= k
  {
    hide Young, NotOlder, Collates, Ranked;
    assert u[i] in u;
    NotOlderRanks(c, u[k].header, u[i].header, u[k].header);
    if i < k {
      PlaceRanks(c, u, i, k);
    } else if k < i {
      PlaceRanks(c, u, k, i);
    } else {
      NotOlderRanks(c, u[k].header, u[k].header, u[k].header);
    }
  }

  lemma PlaceRanks(c: Collation, u: seq<Meta>, i: nat, j: nat)
    requires Ranked(c, u) && i < j < |u|
    ensures NotOlder(c, u[i].header, u[j].header) && u[i].header.sessionId != u[j].header.sessionId
  {
    assert Before(c)(u[i], u[j]);
  }

  /** The place of a session among the unexpired decides. */
  lemma PlaceDecides(c: Collation, recs: map<Id, Recorded>, active: set<Id>, xs: seq<Meta>, o: Options, now: int, k: nat)
    requires var u := Unexpired(xs, now, o.maxAgeMs);
      && Collates(c) && Ranked(c, u) && ListOf(recs, u) && k < |u|
      && (forall id :: id in recs ==> recs[id].header.sessionId == id)
      && forall id :: id in recs ==> (recs[id].Record() in u <==> Young(recs, active, o.maxAgeMs, now, id))
    ensures var id := Unexpired(xs, now, o.maxAgeMs)[k].header.sessionId;
      && id in recs
      && var above := NotBelow(c, recs, active, o.maxAgeMs, now, id);
         (id in IdsOf(Survivors(xs, o, now)) <==> |above| <= o.maxSessions && Bytes(recs, above) <= o.maxBytes)
  {
    hide Survivors, Bytes, TotalBytes, Unexpired, Young, NotBelow;
    var u, s := Unexpired(xs, now, o.maxAgeMs), Survivors(xs, o, now);
    AboveIsPrefix(c, recs, active, u, o.maxAgeMs, now, k);
    ListSums(recs, u[..k + 1]);
    LongestPrefix(xs, o, now, k + 1);
    var id := u[k].header.sessionId;
    assert forall i :: 0 <= i < |s| ==> s[i] == u[i];
    if k < |s| {
      assert s[k] in s;
    }
    assert id in IdsOf(s) <==> k < |s|;
  }

  lemma SurvivorListed(recs: map<Id, Recorded>, u: seq<Meta>, s: seq<Meta>, id: Id)
    requires ListOf(recs, u) && s <= u && id in IdsOf(s)
    ensures id in recs && recs[id].Record() in u
  {
    var i :| 0 <= i < |s| && s[i].header.sessionId == id;
    assert u[i] == s[i];
  }

  /** A cleanup leaves exactly the sessions that stay. */
  lemma CleanupExactly(c: Collation, kv: Disk, recs: map<Id, Recorded>, active: set<Id>, xs: seq<Meta>, o: Options, now: int)
    requires Collates(c) && Consistent(kv, recs, active) && Candidates(c, kv, active, xs)
    ensures Retained(c, recs, active, o, now, recs - (IdsOf(xs) - IdsOf(Survivors(xs, o, now))))
  {
    hide Consistent, Candidates, Survivors, Unexpired, NotBelow, Bytes, ListOf, Ranked;
    var u := Unexpired(xs, now, o.maxAgeMs);
    CandidatesListed(c, kv, recs, active, xs);
    UnexpiredIsYoung(c, kv, recs, active, xs, o, now);
    LongestPrefix(xs, o, now, 0);
    forall id | id in recs
      ensures id !in IdsOf(xs) - IdsOf(Survivors(xs, o, now)) <==> Stays(c, recs, active, o, now, id)
    {
      if Young(recs, active, o.maxAgeMs, now, id) {
        var k :| 0 <= k < |u| && u[k] == recs[id].Record();
        PlaceDecides(c, recs, active, xs, o, now, k);
      } else if id in IdsOf(Survivors(xs, o, now)) {
        SurvivorListed(recs, u, Survivors(xs, o, now), id);
      }
    }
  }
}
