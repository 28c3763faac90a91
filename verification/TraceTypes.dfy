/** The value vocabulary of packages/trace-spec/src/types.ts. */
module TraceTypes {
  import opened Bytes
  import opened Wrappers
  import opened Binary

  /** Host engines cap a string below 2^30 units. */
  type HostString = s: seq<unit> | |s| < 0x4000_0000

  datatype Entry = Entry(key: seq<unit>, value: TraceValue)

  /** A structured value. An object is its list of own entries, in order. */
  datatype TraceValue =
    | Null
    | Bool(b: bool)
    | Num(n: Number)
    | Text(s: seq<unit>)
    | Arr(items: seq<TraceValue>)
    | Obj(entries: seq<Entry>)

  predicate HasKey(es: seq<Entry>, key: seq<unit>) {
    exists i :: 0 <= i < |es| && es[i].key == key
  }

  predicate DistinctKeys(es: seq<Entry>) {
    forall i, j :: 0 <= i < j < |es| ==> es[i].key != es[j].key
  }

  /** Assigning a property: an existing one keeps its place, a new one goes last. */
  function Put(es: seq<Entry>, key: seq<unit>, value: TraceValue): seq<Entry> {
    if es == [] then [Entry(key, value)]
    else if es[0].key == key then [Entry(key, value)] + es[1..]
    else [es[0]] + Put(es[1..], key, value)
  }

  lemma {:induction false} PutNew(es: seq<Entry>, key: seq<unit>, value: TraceValue)
    requires !HasKey(es, key)
    ensures Put(es, key, value) == es + [Entry(key, value)]
  {
    if es != [] {
      assert forall i :: 0 <= i < |es[1..]| ==> es[1..][i] == es[i + 1];
      PutNew(es[1..], key, value);
    }
  }

  /** No object inside the value repeats a key, as is true of every host object. */
  predicate WellFormed(v: TraceValue)
    decreases v
  {
    match v
    case Arr(items) => WellFormedItems(items)
    case Obj(es) => WellFormedEntries(es)
    case _ => true
  }

  predicate WellFormedItems(items: seq<TraceValue>)
    decreases items
  {
    forall i :: 0 <= i < |items| ==> WellFormed(items[i])
  }

  predicate WellFormedEntries(es: seq<Entry>)
    decreases es
  {
    DistinctKeys(es) && forall i :: 0 <= i < |es| ==> WellFormed(es[i].value)
  }

  datatype SourceKind = Game | State | Component | Runner | Timer | Participation | Connection | System

  datatype TraceSource = TraceSource(kind: SourceKind, ref: Option<int>, name: Option<seq<unit>>)

  /** One decoded event. `eventName` is none for an id without a known name. */
  datatype TraceEvent = TraceEvent(
    sequence: nat, tick: nat, typeId: nat, schemaName: Option<seq<unit>>,
    source: TraceSource, payload: TraceValue)

  datatype Status = Completed | Aborted | Crashed | Interrupted | Reloaded

  datatype SessionHeader = SessionHeader(
    sessionId: seq<unit>, gameType: seq<unit>, gameKey: seq<unit>, gameInstanceId: seq<unit>,
    begameVersion: Option<seq<unit>>, packVersion: Option<seq<unit>>,
    startTick: int, startWallTime: int, initialConfig: Option<TraceValue>)

  datatype SessionEnd = SessionEnd(
    sessionId: seq<unit>, status: Status, endTick: int, endWallTime: int,
    endReason: Option<seq<unit>>, eventCount: nat, chunkCount: nat)

  /** A sealed chunk as handed to a sink. */
  datatype TraceChunk = TraceChunk(
    sessionId: seq<unit>, index: nat, firstSequence: nat, lastSequence: nat,
    startTick: nat, endTick: nat, eventCount: nat, content: bytes)
}
