/** The retention rule of `cleanup` in packages/trace/src/runtime/historyStore.ts. */
module Retention {
  import opened Wrappers
  import opened Bytes
  import opened TraceTypes
  import opened StoreKeys
  import opened StoredSessions
  import opened Sorting

  datatype Options = Options(maxSessions: nat, maxBytes: nat, maxAgeMs: real, cleanupIntervalTicks: nat)

  type Collation = (Id, Id) -> bool

  /** The host's order on ids is total and tells different ids apart. */
  ghost predicate Collates(c: Collation) {
    Ranks(c) && forall a, b :: c(a, b) && c(b, a) ==> a == b
  }

  /** Newest first; of two sessions that started together, the greater id first. */
  function Before(c: Collation): (Meta, Meta) -> bool {
    (a: Meta, b: Meta) =>
      a.header.startWallTime > b.header.startWallTime
      || (a.header.startWallTime == b.header.startWallTime && c(b.header.sessionId, a.header.sessionId))
  }

  lemma BeforeRanks(c: Collation)
    requires Collates(c)
    ensures Ranks(Before(c))
    ensures forall a, b :: Before(c)(a, b) && Before(c)(b, a) ==> a.header.sessionId == b.header.sessionId
  {
    var le := Before(c);
    forall x, y ensures le(x, y) || le(y, x) {
      assert c(x.header.sessionId, y.header.sessionId) || c(y.header.sessionId, x.header.sessionId);
    }
    forall x, y, z | le(x, y) && le(y, z) ensures le(x, z) {
      assert x.header.startWallTime == y.header.startWallTime == z.header.startWallTime ==>
          c(z.header.sessionId, y.header.sessionId) && c(y.header.sessionId, x.header.sessionId);
    }
  }

  ghost predicate DistinctIds(xs: seq<Meta>) {
    forall i, j :: 0 <= i < j < |xs| ==> xs[i].header.sessionId != xs[j].header.sessionId
  }

  /** A list of different sessions, newest first. */
  ghost predicate Ranked(c: Collation, xs: seq<Meta>) { Ordered(xs, Before(c)) && DistinctIds(xs) }

  lemma NewestFirst(c: Collation, xs: seq<Meta>)
    requires Ranked(c, xs)
    ensures forall i, j :: 0 <= i < j < |xs| ==>
      && xs[i].header.startWallTime >= xs[j].header.startWallTime
      && (xs[i].header.startWallTime == xs[j].header.startWallTime ==> c(xs[j].header.sessionId, xs[i].header.sessionId))
  {
    forall i, j | 0 <= i < j < |xs| ensures Before(c)(xs[i], xs[j]) {}
  }

  predicate Stored(kv: Disk, m: Meta) {
    MetaKey(m.header.sessionId) in kv && kv[MetaKey(m.header.sessionId)] == MetaText(m)
  }

  predicate Candidate(kv: Disk, active: set<Id>, m: Meta) {
    Stored(kv, m) && m.status != Running && m.header.sessionId !in active
  }

  /** The sessions that `cleanup` may remove, newest first. */
  ghost predicate Candidates(c: Collation, kv: Disk, active: set<Id>, xs: seq<Meta>) {
    Ranked(c, xs) && forall m :: m in xs <==> Candidate(kv, active, m)
  }

  /** A ranked list is determined by its members. */
  lemma {:induction false} RankedUnique(c: Collation, xs: seq<Meta>, ys: seq<Meta>)
    requires Collates(c) && Ranked(c, xs) && Ranked(c, ys) && forall m :: m in xs <==> m in ys
    ensures xs == ys
  {
    assert ys != [] ==> ys[0] in ys;
    if xs != [] {
      assert xs[0] in ys;
      BeforeRanks(c);
      FirstOf(c, xs, ys[0]);
      FirstOf(c, ys, xs[0]);
      assert xs[0] == ys[0];
      RestOf(c, xs);
      RestOf(c, ys);
      RankedUnique(c, xs[1..], ys[1..]);
    }
  }

  lemma FirstOf(c: Collation, xs: seq<Meta>, m: Meta)
    requires Ranked(c, xs) && m in xs
    ensures m == xs[0] || (Before(c)(xs[0], m) && xs[0].header.sessionId != m.header.sessionId)
  {
  }

  lemma RestOf(c: Collation, xs: seq<Meta>)
    requires Ranked(c, xs) && xs != []
    ensures Ranked(c, xs[1..]) && forall m :: m in xs[1..] <==> m in xs && m != xs[0]
  {
    forall m | m in xs && m != xs[0] ensures m in xs[1..] {
      var i :| 0 <= i < |xs| && xs[i] == m;
      assert xs[1..][i - 1] == m;
    }
  }

  // ---------- the rule ----------

  function Timestamp(m: Meta): int { if m.end.Some? then m.end.value.endWallTime else m.header.startWallTime }

  predicate Expired(m: Meta, now: int, maxAgeMs: real) { (now - Timestamp(m)) as real > maxAgeMs }

  function Unexpired(xs: seq<Meta>, now: int, maxAgeMs: real): seq<Meta> {
    if xs == [] then []
    else if Expired(xs[0], now, maxAgeMs) then Unexpired(xs[1..], now, maxAgeMs)
    else [xs[0]] + Unexpired(xs[1..], now, maxAgeMs)
  }

  function TotalBytes(xs: seq<Meta>): nat {
    if xs == [] then 0 else TotalBytes(xs[..|xs| - 1]) + xs[|xs| - 1].storedBytes
  }

  function AtMostSessions(xs: seq<Meta>, n: nat): seq<Meta> { if |xs| <= n then xs else xs[..n] }

  /** Drops the oldest while the bytes are too many. */
  function Fitting(xs: seq<Meta>, maxBytes: nat): (r: seq<Meta>)
    ensures r <= xs
  {
    if xs == [] || TotalBytes(xs) <= maxBytes then xs else Fitting(xs[..|xs| - 1], maxBytes)
  }

  function Survivors(xs: seq<Meta>, o: Options, now: int): seq<Meta> {
    Fitting(AtMostSessions(Unexpired(xs, now, o.maxAgeMs), o.maxSessions), o.maxBytes)
  }

  /**
   * The survivors are the longest newest-first run of the unexpired sessions that fits both
   * limits: a run of n of them fits exactly when n is at most their number.
   */
  lemma LongestPrefix(xs: seq<Meta>, o: Options, now: int, n: nat)
    requires n <= |Unexpired(xs, now, o.maxAgeMs)|
    ensures Survivors(xs, o, now) <= Unexpired(xs, now, o.maxAgeMs)
    ensures n <= |Survivors(xs, o, now)| <==> n <= o.maxSessions && TotalBytes(Unexpired(xs, now, o.maxAgeMs)[..n]) <= o.maxBytes
  {
    var u := Unexpired(xs, now, o.maxAgeMs);
    var capped := AtMostSessions(u, o.maxSessions);
    if n <= |capped| {
      FittingIsLongest(capped, o.maxBytes, n);
      assert capped[..n] == u[..n];
    }
  }

  lemma {:induction false} FittingIsLongest(xs: seq<Meta>, maxBytes: nat, n: nat)
    requires n <= |xs|
    ensures n <= |Fitting(xs, maxBytes)| <==> TotalBytes(xs[..n]) <= maxBytes
  {
    if xs == [] || TotalBytes(xs) <= maxBytes {
      FewerBytes(xs, n);
    } else if n < |xs| {
      FittingIsLongest(xs[..|xs| - 1], maxBytes, n);
      assert xs[..|xs| - 1][..n] == xs[..n];
    } else {
      assert xs[..n] == xs;
    }
  }

  lemma {:induction false} FewerBytes(xs: seq<Meta>, n: nat)
    requires n <= |xs|
    ensures TotalBytes(xs[..n]) <= TotalBytes(xs)
  {
    if n < |xs| {
      FewerBytes(xs[..|xs| - 1], n);
      assert xs[..|xs| - 1][..n] == xs[..n];
    } else {
      assert xs[..n] == xs;
    }
  }

  // ---------- lists after a removal ----------

  function IdsOf(xs: seq<Meta>): set<Id> { set m | m in xs :: m.header.sessionId }

  /** Removing all candidates but some leaves those as the candidates. */
  lemma AfterRemoval(c: Collation, kv: Disk, active: set<Id>, xs: seq<Meta>, keep: seq<Meta>, gone: set<Id>)
    requires Candidates(c, kv, active, xs) && Ranked(c, keep)
    requires forall m :: m in keep <==> m in xs && m.header.sessionId !in gone
    ensures Candidates(c, Without(kv, gone), active, keep)
  {
    forall m ensures m in keep <==> Candidate(Without(kv, gone), active, m) {
      assert Candidate(Without(kv, gone), active, m) <==> Candidate(kv, active, m) && m.header.sessionId !in gone;
    }
  }

  lemma {:induction false} UnexpiredRanked(c: Collation, xs: seq<Meta>, now: int, maxAgeMs: real)
    requires Ranked(c, xs)
    ensures Ranked(c, Unexpired(xs, now, maxAgeMs))
    ensures forall m :: m in Unexpired(xs, now, maxAgeMs) <==> m in xs && !Expired(m, now, maxAgeMs)
  {
    if xs != [] {
      RestOf(c, xs);
      UnexpiredRanked(c, xs[1..], now, maxAgeMs);
      var rest := Unexpired(xs[1..], now, maxAgeMs);
      forall i | 0 <= i < |rest| ensures Before(c)(xs[0], rest[i]) && xs[0].header.sessionId != rest[i].header.sessionId {
        assert rest[i] in xs[1..];
        FirstOf(c, xs, rest[i]);
      }
    }
  }

  lemma PrefixRanked(c: Collation, xs: seq<Meta>, n: nat)
    requires Ranked(c, xs) && n <= |xs|
    ensures Ranked(c, xs[..n])
    ensures forall m :: m in xs[..n] <==> m in xs && m.header.sessionId !in IdsOf(xs[n..])
  {
    forall m ensures m in xs[..n] <==> m in xs && m.header.sessionId !in IdsOf(xs[n..]) {
      if m in xs {
        var i :| 0 <= i < |xs| && xs[i] == m;
        if i < n {
          assert xs[..n][i] == m;
        } else {
          assert xs[n..][i - n] == m;
        }
      }
    }
  }
}
