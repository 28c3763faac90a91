/**
 * Traces copied out of a log: packages/trace/src/tools/logParser.ts, on the records that its
 * pattern finds, in the order of their offsets.
 */
module LogParser {
  import opened Wrappers
  import opened Bytes
  import opened Base64
  import opened Ingest
  import opened Sorting

  datatype Key = Key(formatVersion: nat, sessionId: seq<unit>)

  datatype LogPart = LogPart(key: Key, part: nat, partCount: nat, payload: seq<unit>, offset: nat)

  /** The pattern wants some payload; the numbers must make sense. */
  predicate Usable(e: LogPart) {
    e.key.formatVersion <= MAX_SAFE && 1 <= e.part <= e.partCount <= MAX_SAFE && e.payload != []
  }

  /** The usable records in their order. */
  function Parts(records: seq<LogPart>): (parts: seq<LogPart>)
    ensures forall e :: e in parts <==> e in records && Usable(e)
  {
    if records == [] then []
    else
      var last := |records| - 1;
      assert records == records[..last] + [records[last]];
      Parts(records[..last]) + (if Usable(records[last]) then [records[last]] else [])
  }

  method ExtractTraceLogParts(records: seq<LogPart>) returns (parts: seq<LogPart>)
    ensures parts == Parts(records)
    ensures forall e :: e in parts <==>
      (e in records && e.key.formatVersion <= 9007199254740991 && 1 <= e.part <= e.partCount <= 9007199254740991 && |e.payload| > 0)
  {
    parts := [];
    for i := 0 to |records|
      invariant parts == Parts(records[..i])
    {
      assert records[..i + 1][..i] == records[..i];
      if Usable(records[i]) {
        parts := parts + [records[i]];
      }
    }
    assert records[..|records|] == records;
  }

  // ---------- groups ----------

  /** `received` lists the part numbers as they came in. */
  datatype Group = Group(partCount: nat, payloads: map<nat, seq<unit>>, received: seq<nat>, lastOffset: nat)

  predicate Occurs(es: seq<LogPart>, k: Key) {
    exists j :: 0 <= j < |es| && es[j].key == k
  }

  predicate Received(es: seq<LogPart>, k: Key, part: nat) {
    exists j :: 0 <= j < |es| && es[j].key == k && es[j].part == part
  }

  predicate Ends(es: seq<LogPart>, k: Key, offset: nat) {
    && (exists j :: 0 <= j < |es| && es[j].key == k && es[j].offset == offset)
    && (forall j :: 0 <= j < |es| && es[j].key == k ==> es[j].offset <= offset)
  }

  /** Two records of a session disagree on the number of parts or on the contents of one. */
  predicate Clash(a: LogPart, b: LogPart) {
    a.key == b.key && (a.partCount != b.partCount || (a.part == b.part && a.payload != b.payload))
  }

  predicate Conflict(es: seq<LogPart>) {
    exists i, j :: 0 <= i < j < |es| && Clash(es[i], es[j])
  }

  predicate Agrees(es: seq<LogPart>, k: Key, g: Group) {
    forall j :: 0 <= j < |es| && es[j].key == k ==>
      es[j].partCount == g.partCount && es[j].part in g.payloads && g.payloads[es[j].part] == es[j].payload
  }

  predicate Backed(es: seq<LogPart>, k: Key, g: Group) {
    forall p :: p in g.payloads ==> Received(es, k, p) && 1 <= p <= g.partCount && g.payloads[p] != []
  }

  ghost predicate Ledger(g: Group) {
    NoRepeats(g.received) && forall p :: p in g.received <==> p in g.payloads
  }

  /** The group has exactly what the records of its session say. */
  ghost predicate Gathers(es: seq<LogPart>, k: Key, g: Group) {
    Agrees(es, k, g) && Backed(es, k, g) && Ends(es, k, g.lastOffset) && Ledger(g)
  }

  lemma OtherGroup(es: seq<LogPart>, e: LogPart, k: Key, g: Group)
    requires Gathers(es, k, g) && e.key != k
    ensures Gathers(es + [e], k, g)
  {
    StillReceived(es, e, k);
    var j :| 0 <= j < |es| && es[j].key == k && es[j].offset == g.lastOffset;
    assert (es + [e])[j] == es[j];
  }

  lemma StillReceived(es: seq<LogPart>, e: LogPart, k: Key)
    ensures forall p :: Received(es, k, p) ==> Received(es + [e], k, p)
  {
    forall p | Received(es, k, p) ensures Received(es + [e], k, p) {
      var j :| 0 <= j < |es| && es[j].key == k && es[j].part == p;
      assert (es + [e])[j] == es[j];
    }
  }

  /** The group after one more record. */
  function Extended(g: Group, e: LogPart): Group {
    g.(payloads := g.payloads[e.part := e.payload],
       received := if e.part in g.payloads then g.received else g.received + [e.part],
       lastOffset := if g.lastOffset < e.offset then e.offset else g.lastOffset)
  }

  lemma ExtendGroup(es: seq<LogPart>, e: LogPart, g: Group)
    requires Gathers(es, e.key, g) && Usable(e) && g.partCount == e.partCount
    requires e.part in g.payloads ==> g.payloads[e.part] == e.payload
    ensures Gathers(es + [e], e.key, Extended(g, e))
  {
    hide Backed, Ends, Ledger;
    ExtendBacked(es, e, g);
    ExtendLedger(g, e);
    LaterEnd(es, e, g.lastOffset);
  }

  lemma ExtendBacked(es: seq<LogPart>, e: LogPart, g: Group)
    requires Backed(es, e.key, g) && Usable(e) && g.partCount == e.partCount
    ensures Backed(es + [e], e.key, Extended(g, e))
  {
    hide Received;
    StillReceived(es, e, e.key);
    NowReceived(es, e);
  }

  lemma NowReceived(es: seq<LogPart>, e: LogPart)
    ensures Received(es + [e], e.key, e.part) && Occurs(es + [e], e.key)
  {
    assert (es + [e])[|es|] == e;
  }

  lemma ExtendLedger(g: Group, e: LogPart)
    requires Ledger(g)
    ensures Ledger(Extended(g, e))
  {
  }

  lemma LaterEnd(es: seq<LogPart>, e: LogPart, offset: nat)
    requires Ends(es, e.key, offset)
    ensures Ends(es + [e], e.key, if offset < e.offset then e.offset else offset)
  {
    var all := es + [e];
    assert all[|es|] == e;
    var j :| 0 <= j < |es| && es[j].key == e.key && es[j].offset == offset;
    assert all[j] == es[j];
  }

  lemma NewGroup(es: seq<LogPart>, e: LogPart)
    requires !Occurs(es, e.key) && Usable(e)
    ensures Gathers(es + [e], e.key, Extended(Group(e.partCount, map[], [], e.offset), e))
  {
    assert (es + [e])[|es|] == e;
    assert Received(es + [e], e.key, e.part);
  }

  /** The groups are exactly those of the sessions that occur, in `order`. */
  ghost predicate Gathered(es: seq<LogPart>, groups: map<Key, Group>, order: seq<Key>) {
    && (forall k :: k in groups <==> Occurs(es, k))
    && (forall k :: k in groups ==> Gathers(es, k, groups[k]))
    && (forall k :: k in order <==> k in groups)
    && (forall i, j :: 0 <= i < j < |order| ==> order[i] != order[j])
  }

  lemma OneMore(es: seq<LogPart>, e: LogPart)
    ensures forall k :: Occurs(es + [e], k) <==> k == e.key || Occurs(es, k)
  {
    var all := es + [e];
    assert all[|es|] == e;
    forall k | Occurs(es, k) ensures Occurs(all, k) {
      var j :| 0 <= j < |es| && es[j].key == k;
      assert all[j] == es[j];
    }
  }

  lemma GatherOne(es: seq<LogPart>, e: LogPart, groups: map<Key, Group>, order: seq<Key>, g: Group)
    requires Gathered(es, groups, order) && Gathers(es + [e], e.key, g)
    ensures Gathered(es + [e], groups[e.key := g], if e.key in groups then order else order + [e.key])
  {
    hide Gathers;
    OneMore(es, e);
    forall k | k in groups && k != e.key ensures Gathers(es + [e], k, groups[k]) {
      OtherGroup(es, e, k, groups[k]);
    }
  }

  lemma NoConflict(es: seq<LogPart>, groups: map<Key, Group>, order: seq<Key>)
    requires Gathered(es, groups, order)
    ensures !Conflict(es)
  {
    forall i, j | 0 <= i < j < |es| ensures !Clash(es[i], es[j]) {
      assert Occurs(es, es[i].key);
      assert Gathers(es, es[i].key, groups[es[i].key]);
    }
  }

  /** The record disagrees with its group, so with an earlier record. */
  lemma Conflicts(es: seq<LogPart>, i: nat, g: Group)
    requires i < |es| && Gathers(es[..i], es[i].key, g)
    requires g.partCount != es[i].partCount || (es[i].part in g.payloads && g.payloads[es[i].part] != es[i].payload)
    ensures Conflict(es)
  {
    var e := es[i];
    var j :| 0 <= j < i && es[..i][j].key == e.key && (e.part in g.payloads ==> es[..i][j].part == e.part);
    assert Clash(es[j], e);
  }

  /** Repeats that agree are tolerated; a conflict is refused. */
  method GatherGroups(es: seq<LogPart>) returns (r: Result<(map<Key, Group>, seq<Key>)>)
    requires forall e :: e in es ==> Usable(e)
    ensures r.Failure? <==> Conflict(es)
    ensures r.Success? ==> Gathered(es, r.value.0, r.value.1)
  {
    hide Gathers, Conflict, Occurs;
    var groups: map<Key, Group> := map[];
    var order: seq<Key> := [];
    NothingGathered();
    assert es[..0] == [];
    for i := 0 to |es|
      invariant Gathered(es[..i], groups, order)
    {
      var e := es[i];
      assert es[..i + 1] == es[..i] + [e];
      var group := Group(e.partCount, map[], [], e.offset);
      if e.key in groups {
        group := groups[e.key];
        if group.partCount != e.partCount || (e.part in group.payloads && group.payloads[e.part] != e.payload) {
          Conflicts(es, i, group);
          return Failure;
        }
        ExtendGroup(es[..i], e, group);
      } else {
        NewGroup(es[..i], e);
      }
      GatherOne(es[..i], e, groups, order, Extended(group, e));
      order := if e.key in groups then order else order + [e.key];
      groups := groups[e.key := Extended(group, e)];
    }
    assert es[..|es|] == es;
    NoConflict(es, groups, order);
    return Success((groups, order));
  }

  lemma NothingGathered()
    ensures Gathered([], map[], [])
  {
  }

  // ---------- exports ----------

  datatype Export = Export(
    key: Key, partCount: nat, received: seq<nat>, missing: seq<nat>, base64: Option<seq<unit>>, lastOffset: nat)

  predicate Ascending(s: seq<nat>) {
    forall i, j :: 0 <= i < j < |s| ==> s[i] < s[j]
  }

  /** What the records say about a session: the parts they hold, those they lack, and the text. */
  ghost predicate Describes(es: seq<LogPart>, x: Export) {
    && (forall j :: 0 <= j < |es| && es[j].key == x.key ==> 1 <= es[j].part <= es[j].partCount == x.partCount)
    && Ascending(x.received) && (forall p :: p in x.received <==> Received(es, x.key, p))
    && Ascending(x.missing) && (forall p :: p in x.missing <==> 1 <= p <= x.partCount && !Received(es, x.key, p))
    && (x.base64.Some? <==> x.missing == [])
    && (x.base64.Some? ==> exists pieces :: JoinsTo(es, x, pieces))
    && Ends(es, x.key, x.lastOffset)
  }

  /** The text is made of the payloads in the order of their numbers. */
  predicate JoinsTo(es: seq<LogPart>, x: Export, pieces: seq<seq<unit>>)
    requires x.base64.Some?
  {
    && |pieces| == x.partCount && x.base64.value == Join(pieces)
    && (forall i :: 0 <= i < |pieces| ==> pieces[i] != [])
    && (forall j :: 0 <= j < |es| && es[j].key == x.key && 1 <= es[j].part <= |pieces| ==> es[j].payload == pieces[es[j].part - 1])
  }

  predicate AtMost(a: nat, b: nat) { a <= b }

  lemma AtMostRanks()
    ensures Ranks(AtMost)
  {
  }

  lemma SortedNumbers(s: seq<nat>)
    requires NoRepeats(s)
    ensures Ascending(Sort(s, AtMost)) && forall p :: p in Sort(s, AtMost) <==> p in s
  {
    hide Sort;
    AtMostRanks();
    SortOrders(s, AtMost);
    SortNoRepeats(s, AtMost);
    var t := Sort(s, AtMost);
    forall p ensures p in t <==> p in s { SortKeeps(s, AtMost, p); }
  }

  lemma ReceivedParts(es: seq<LogPart>, k: Key, g: Group)
    requires Gathers(es, k, g)
    ensures forall p :: Received(es, k, p) <==> p in g.payloads
    ensures forall j :: 0 <= j < |es| && es[j].key == k ==> 1 <= es[j].part <= es[j].partCount == g.partCount
  {
    forall p | Received(es, k, p) ensures p in g.payloads {
      var j :| 0 <= j < |es| && es[j].key == k && es[j].part == p;
      assert es[j].part in g.payloads;
    }
  }

  lemma PiecesJoin(es: seq<LogPart>, x: Export, g: Group, pieces: seq<seq<unit>>)
    requires Gathers(es, x.key, g) && |pieces| == g.partCount == x.partCount && x.base64 == Some(Join(pieces))
    requires forall i :: 0 <= i < |pieces| ==> i + 1 in g.payloads && pieces[i] == g.payloads[i + 1]
    ensures JoinsTo(es, x, pieces)
  {
    hide Join;
  }

  method BuildExport(ghost es: seq<LogPart>, k: Key, g: Group) returns (x: Export)
    requires Gathers(es, k, g)
    ensures Describes(es, x) && x.key == k
    ensures forall i, j :: 0 <= i < j < |x.received| ==> x.received[i] < x.received[j]
    ensures forall i, j :: 0 <= i < j < |x.missing| ==> x.missing[i] < x.missing[j]
  {
    hide Sort, Join, Agrees, Backed, Ends, Received, NoRepeats;
    ReceivedParts(es, k, g);
    var received := Sort(g.received, AtMost);
    SortedNumbers(g.received);
    var missing: seq<nat> := [];
    for part := 1 to g.partCount + 1
      invariant Ascending(missing) && forall j :: 0 <= j < |missing| ==> missing[j] < part
      invariant forall p :: p in missing <==> 1 <= p < part && p !in g.payloads
    {
      if part !in g.payloads {
        missing := missing + [part];
      }
    }
    if missing == [] {
      forall p | 1 <= p <= g.partCount ensures p in g.payloads { assert p !in missing; }
      var pieces := seq(g.partCount, i requires 0 <= i < g.partCount => g.payloads[i + 1]);
      x := Export(k, g.partCount, received, missing, Some(Join(pieces)), g.lastOffset);
      PiecesJoin(es, x, g, pieces);
    } else {
      x := Export(k, g.partCount, received, missing, None, g.lastOffset);
    }
  }

  predicate Sooner(a: Export, b: Export) { a.lastOffset <= b.lastOffset }

  lemma SoonerRanks()
    ensures Ranks(Sooner)
  {
  }

  /** One export for every session that occurs, the most recent last. */
  ghost predicate Collected(es: seq<LogPart>, xs: seq<Export>) {
    && (forall x :: x in xs ==> Describes(es, x))
    && (forall k :: Occurs(es, k) <==> exists x :: x in xs && x.key == k)
    && (forall i, j :: 0 <= i < j < |xs| ==> xs[i].key != xs[j].key)
    && Ordered(xs, Sooner)
  }

  method CollectTraceExports(records: seq<LogPart>) returns (r: Result<seq<Export>>)
    ensures r.Failure? <==> Conflict(Parts(records))
    ensures r.Success? ==> Collected(Parts(records), r.value)
    ensures r.Success? ==> forall i, j :: 0 <= i < j < |r.value| ==>
      r.value[i].lastOffset <= r.value[j].lastOffset && r.value[i].key != r.value[j].key
  {
    hide Sort, Describes, Gathers, Conflict, Occurs, Parts;
    var es := ExtractTraceLogParts(records);
    var gathered := GatherGroups(es);
    if gathered.Failure? { return Failure; }
    var (groups, order) := gathered.value;
    var xs: seq<Export> := [];
    for i := 0 to |order|
      invariant |xs| == i
      invariant forall j :: 0 <= j < i ==> Describes(es, xs[j]) && xs[j].key == order[j]
    {
      var x := BuildExport(es, order[i], groups[order[i]]);
      xs := xs + [x];
    }
    var sorted := Sort(xs, Sooner);
    SoonerRanks();
    SortOrders(xs, Sooner);
    forall x ensures x in sorted <==> x in xs { SortKeeps(xs, Sooner, x); }
    SortNoRepeats(xs, Sooner);
    assert forall i, j :: 0 <= i < |xs| && 0 <= j < |xs| && xs[i].key == xs[j].key ==> i == j;
    forall i, j | 0 <= i < j < |sorted| ensures sorted[i].key != sorted[j].key {
      assert sorted[i] in xs && sorted[j] in xs;
    }
    forall k ensures Occurs(es, k) <==> exists x :: x in sorted && x.key == k {
      if Occurs(es, k) {
        var i :| 0 <= i < |order| && order[i] == k;
        assert xs[i] in sorted;
      }
    }
    return Success(sorted);
  }

  // ---------- extraction ----------

  /** An id that is absent or empty asks for any session. */
  predicate Asked(sessionId: Option<seq<unit>>, x: Export) {
    x.base64.Some? && (sessionId.Some? && sessionId.value != [] ==> x.key.sessionId == sessionId.value)
  }

  /** `x` comes first when a session is asked for, last when none is. */
  predicate Preferred(sessionId: Option<seq<unit>>, x: Export, y: Export) {
    if sessionId.Some? && sessionId.value != [] then Sooner(x, y) else Sooner(y, x)
  }

  /** The export that is asked for: complete, and the first of its session or the most recent of all. */
  ghost predicate Wanted(es: seq<LogPart>, sessionId: Option<seq<unit>>, x: Export) {
    && Describes(es, x) && Asked(sessionId, x)
    && forall y :: Describes(es, y) && Asked(sessionId, y) ==> Preferred(sessionId, x, y)
  }

  method Select(exports: seq<Export>, sessionId: Option<seq<unit>>) returns (selected: Option<Export>)
    requires Ordered(exports, Sooner)
    ensures selected.Some? ==> selected.value in exports && Asked(sessionId, selected.value)
    ensures forall y :: y in exports && Asked(sessionId, y) ==> selected.Some? && Preferred(sessionId, selected.value, y)
    ensures sessionId.Some? && sessionId.value != [] ==>
      && (selected.Some? ==> selected.value.base64.Some? && selected.value.key.sessionId == sessionId.value)
      && forall y :: y in exports && y.base64.Some? && y.key.sessionId == sessionId.value ==>
           selected.Some? && selected.value.lastOffset <= y.lastOffset
    ensures sessionId.None? || sessionId.value == [] ==>
      && (selected.Some? ==> selected.value.base64.Some?)
      && forall y :: y in exports && y.base64.Some? ==> selected.Some? && selected.value.lastOffset >= y.lastOffset
  {
    if sessionId.Some? && sessionId.value != [] {
      for i := 0 to |exports|
        invariant forall j :: 0 <= j < i ==> !Asked(sessionId, exports[j])
      {
        if Asked(sessionId, exports[i]) { return Some(exports[i]); }
      }
    } else {
      for i := |exports| downto 0
        invariant forall j :: i <= j < |exports| ==> !Asked(sessionId, exports[j])
      {
        if Asked(sessionId, exports[i]) { return Some(exports[i]); }
      }
    }
    return None;
  }

  /** Two complete exports of a session have the same text. */
  lemma SameText(es: seq<LogPart>, x: Export, y: Export)
    requires Describes(es, x) && Describes(es, y) && x.key == y.key && x.base64.Some? && y.base64.Some?
    ensures x.base64 == y.base64 && x.partCount == y.partCount
  {
    var j :| 0 <= j < |es| && es[j].key == x.key;
    var ps :| JoinsTo(es, x, ps);
    var qs :| JoinsTo(es, y, qs);
    forall i | 0 <= i < |ps| ensures ps[i] == qs[i] {
      assert i + 1 !in x.missing;
      assert Received(es, x.key, i + 1);
    }
    assert ps == qs;
  }

  predicate OffsetsRise(records: seq<LogPart>) {
    forall i, j :: 0 <= i < j < |records| ==> records[i].offset < records[j].offset
  }

  lemma OneOffset(records: seq<LogPart>, a: LogPart, b: LogPart)
    requires OffsetsRise(records) && a in records && b in records && a.offset == b.offset
    ensures a == b
  {
    var i :| 0 <= i < |records| && records[i] == a;
    var j :| 0 <= j < |records| && records[j] == b;
    assert !(i < j) && !(j < i);
  }

  /** The export that is asked for has one text. */
  lemma WantedText(records: seq<LogPart>, es: seq<LogPart>, sessionId: Option<seq<unit>>, x: Export, y: Export)
    requires OffsetsRise(records) && (forall e :: e in es ==> e in records)
    requires Wanted(es, sessionId, x) && Wanted(es, sessionId, y)
    ensures x.base64 == y.base64
  {
    assert x.lastOffset == y.lastOffset;
    var i :| 0 <= i < |es| && es[i].key == x.key && es[i].offset == x.lastOffset;
    var j :| 0 <= j < |es| && es[j].key == y.key && es[j].offset == y.lastOffset;
    OneOffset(records, es[i], es[j]);
    SameText(es, x, y);
  }

  /** The bytes of the export that is asked for, or a failure if there is none or a conflict. */
  ghost predicate Extracted(es: seq<LogPart>, sessionId: Option<seq<unit>>, r: Result<bytes>) {
    if Conflict(es) then r.Failure?
    else if exists x :: Wanted(es, sessionId, x) then
      forall x :: Wanted(es, sessionId, x) ==> r == Decoded(Stripped(x.base64.value))
    else r.Failure?
  }

  method ExtractBegTraceBytes(records: seq<LogPart>, sessionId: Option<seq<unit>>) returns (r: Result<bytes>)
    requires OffsetsRise(records)
    ensures Extracted(Parts(records), sessionId, r)
  {
    hide Decoded, Stripped, Describes, Conflict, Occurs, Asked, Preferred, Usable, Parts;
    ghost var es := Parts(records);
    var collected := CollectTraceExports(records);
    if collected.Failure? { return Failure; }
    var exports := collected.value;
    var selected := Select(exports, sessionId);
    Listed(es, exports, sessionId, selected);
    if selected.None? { return Failure; }
    AskedHasText(sessionId, selected.value);
    if selected.value.base64.value == [] { return Failure; }
    r := DecodeBase64(selected.value.base64.value);
    forall x | Wanted(es, sessionId, x) ensures x.base64 == selected.value.base64 {
      WantedText(records, es, sessionId, x, selected.value);
    }
  }

  lemma AskedHasText(sessionId: Option<seq<unit>>, x: Export)
    requires Asked(sessionId, x)
    ensures x.base64.Some?
  {
  }

  /** What is selected among the listed exports is wanted among all. */
  lemma Listed(es: seq<LogPart>, xs: seq<Export>, sessionId: Option<seq<unit>>, selected: Option<Export>)
    requires Collected(es, xs)
    requires selected.Some? ==> selected.value in xs && Asked(sessionId, selected.value)
    requires forall y :: y in xs && Asked(sessionId, y) ==> selected.Some? && Preferred(sessionId, selected.value, y)
    ensures selected.Some? ==> Wanted(es, sessionId, selected.value) && selected.value.base64.value != []
    ensures selected.None? ==> forall x :: !Wanted(es, sessionId, x)
  {
    hide Conflict, Usable, Join;
    forall y | Describes(es, y) && Asked(sessionId, y)
      ensures selected.Some? && Preferred(sessionId, selected.value, y)
    {
      assert Occurs(es, y.key);
      var x :| x in xs && x.key == y.key;
      SameCompleteness(es, x, y);
    }
    if selected.Some? {
      TextNotEmpty(es, selected.value);
    }
  }

  lemma SameCompleteness(es: seq<LogPart>, x: Export, y: Export)
    requires Describes(es, x) && Describes(es, y) && x.key == y.key
    ensures x.base64.Some? <==> y.base64.Some?
    ensures x.lastOffset == y.lastOffset
  {
    var j :| 0 <= j < |es| && es[j].key == x.key;
    assert forall p :: p in x.missing <==> p in y.missing;
    if x.missing != [] { assert x.missing[0] in y.missing; }
    if y.missing != [] { assert y.missing[0] in x.missing; }
  }

  lemma TextNotEmpty(es: seq<LogPart>, x: Export)
    requires Describes(es, x) && x.base64.Some?
    ensures x.base64.value != []
  {
    var ps :| JoinsTo(es, x, ps);
    var j :| 0 <= j < |es| && es[j].key == x.key;
    assert ps[0] != [];
  }

  // ---------- the law ----------

  /** The record is one of the lines that export these bytes. */
  predicate IsLine(e: LogPart, b: bytes, size: nat)
    requires size >= 1
  {
    var pieces := Cut(Encoded(b), size);
    e.partCount == |pieces| && 1 <= e.part <= |pieces| && e.payload == pieces[e.part - 1]
  }

  /**
   * With identical repeats, in any order and among other records: the parts that are missing
   * are reported exactly, and when none is the text decodes to the bytes.
   */
  lemma RecoversExport(es: seq<LogPart>, x: Export, b: bytes, size: nat)
    requires size >= 1 && Describes(es, x)
    requires forall j :: 0 <= j < |es| && es[j].key == x.key ==> IsLine(es[j], b, size)
    ensures x.partCount == |Cut(Encoded(b), size)|
    ensures forall p :: p in x.missing <==> 1 <= p <= |Cut(Encoded(b), size)| && !Received(es, x.key, p)
    ensures x.base64.Some? ==> Decoded(Stripped(x.base64.value)) == Success(b)
  {
    hide Encoded, Decoded, Stripped, Cut, Join;
    var pieces := Cut(Encoded(b), size);
    var j :| 0 <= j < |es| && es[j].key == x.key;
    if x.base64.Some? {
      var ps :| JoinsTo(es, x, ps);
      forall i | 0 <= i < |ps| ensures ps[i] == pieces[i] {
        assert i + 1 !in x.missing;
        assert Received(es, x.key, i + 1);
      }
      assert ps == pieces;
      CutJoins(Encoded(b), size);
      NoSpaceEncoded(b);
      NothingToStrip(Encoded(b));
      EncodedDecodes(b);
    }
  }

  /** The numbers up to `n` that were received and those that were not. */
  lemma Numbers(es: seq<LogPart>, k: Key, n: nat) returns (received: seq<nat>, missing: seq<nat>)
    ensures Ascending(received) && forall p :: p in received <==> 1 <= p <= n && Received(es, k, p)
    ensures Ascending(missing) && forall p :: p in missing <==> 1 <= p <= n && !Received(es, k, p)
  {
    hide Received;
    received, missing := [], [];
    for p := 1 to n + 1
      invariant Ascending(received) && forall q :: q in received <==> 1 <= q < p && Received(es, k, q)
      invariant Ascending(missing) && forall q :: q in missing <==> 1 <= q < p && !Received(es, k, q)
    {
      if Received(es, k, p) {
        assert forall i :: 0 <= i < |received| ==> received[i] in received;
        received := received + [p];
      } else {
        assert forall i :: 0 <= i < |missing| ==> missing[i] in missing;
        missing := missing + [p];
      }
    }
  }

  lemma {:induction false} SomeEnd(es: seq<LogPart>, k: Key) returns (offset: nat)
    requires Occurs(es, k)
    ensures Ends(es, k, offset)
    decreases |es|
  {
    var last := |es| - 1;
    var front, e := es[..last], es[last];
    assert es == front + [e];
    if Occurs(front, k) {
      offset := SomeEnd(front, k);
      var j :| 0 <= j < |front| && front[j].key == k && front[j].offset == offset;
      assert es[j] == front[j];
      assert forall i :: 0 <= i < last ==> front[i] == es[i];
      if e.key == k && offset < e.offset {
        offset := e.offset;
      }
    } else {
      assert forall i :: 0 <= i < last ==> front[i] == es[i];
      offset := e.offset;
    }
  }

  /** A session whose records are lines of one export is described by an export. */
  lemma LinesDescribed(es: seq<LogPart>, k: Key, b: bytes, size: nat) returns (x: Export)
    requires size >= 1 && Occurs(es, k) && forall e :: e in es ==> Usable(e)
    requires forall j :: 0 <= j < |es| && es[j].key == k ==> IsLine(es[j], b, size)
    ensures Describes(es, x) && x.key == k
  {
    hide Encoded, Cut, Join, Occurs;
    var pieces := Cut(Encoded(b), size);
    var received, missing := Numbers(es, k, |pieces|);
    var offset := SomeEnd(es, k);
    x := Export(k, |pieces|, received, missing, if missing == [] then Some(Join(pieces)) else None, offset);
    forall p | Received(es, k, p) ensures p in received {
      var j :| 0 <= j < |es| && es[j].key == k && es[j].part == p;
      assert IsLine(es[j], b, size);
    }
    if missing == [] {
      forall i | 0 <= i < |pieces| ensures pieces[i] != [] {
        assert i + 1 !in missing;
        var j :| 0 <= j < |es| && es[j].key == k && es[j].part == i + 1;
        assert es[j] in es && IsLine(es[j], b, size);
      }
      assert JoinsTo(es, x, pieces);
    }
  }

  /**
   * Asked for a session whose records are all lines of one export, extraction answers with the
   * exported bytes if every line is there and no two records of the log contradict each other,
   * and fails otherwise.
   */
  lemma ExtractsExport(records: seq<LogPart>, k: Key, b: bytes, size: nat, r: Result<bytes>)
    requires size >= 1 && k.sessionId != [] && Extracted(Parts(records), Some(k.sessionId), r)
    requires forall e :: e in records && Usable(e) && e.key.sessionId == k.sessionId ==> e.key == k && IsLine(e, b, size)
    ensures var es := Parts(records);
      r == if !Conflict(es) && forall p :: 1 <= p <= |Cut(Encoded(b), size)| ==> Received(es, k, p) then Success(b) else Failure
  {
    hide Encoded, Decoded, Stripped, Cut, Join, IsLine, Conflict, Describes, Parts, Usable;
    var es, id := Parts(records), Some(k.sessionId);
    forall j | 0 <= j < |es| && es[j].key.sessionId == k.sessionId ensures es[j].key == k && IsLine(es[j], b, size) {
      assert es[j] in es;
    }
    if !Conflict(es) {
      forall y | Describes(es, y) && Asked(id, y) ensures y.key == k { DescribedOccurs(es, y); }
      if Occurs(es, k) {
        var x := LinesDescribed(es, k, b, size);
        RecoversExport(es, x, b, size);
        forall y | Describes(es, y) && Asked(id, y) ensures Preferred(id, x, y) { SameCompleteness(es, x, y); }
        forall y | Wanted(es, id, y) ensures Asked(id, x) { SameCompleteness(es, x, y); }
        if Asked(id, x) {
          assert Wanted(es, id, x);
        }
        NoneMissing(es, x);
      } else {
        forall y ensures !Wanted(es, id, y) {
          if Wanted(es, id, y) { DescribedOccurs(es, y); }
        }
        assert !Received(es, k, 1);
      }
    }
  }

  lemma DescribedOccurs(es: seq<LogPart>, x: Export)
    requires Describes(es, x)
    ensures Occurs(es, x.key)
  {
  }

  lemma NoneMissing(es: seq<LogPart>, x: Export)
    requires Describes(es, x)
    ensures x.base64.Some? <==> forall p :: 1 <= p <= x.partCount ==> Received(es, x.key, p)
  {
    if x.missing != [] {
      assert x.missing[0] in x.missing;
    }
  }
}
