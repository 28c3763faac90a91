/**
 * `traceError` of packages/trace/src/runtime/session.ts: any thrown value, with its causes
 * and aggregated errors, becomes a value of limited depth, text and number of entries.
 * Mentions of an error that is being told already use no entries; how many there can be
 * depends on the widest list of aggregated errors. Error objects form a graph, which may
 * have cycles; properties that throw when read have their stand-ins in it.
 */
module TraceErrors {
  import opened Wrappers
  import opened Bytes
  import opened Utf8

  const MAX_ENTRIES := 16
  const MAX_DEPTH := 6
  const MAX_TEXT_BYTES := 8192
  const MAX_NAME_BYTES := 128

  function MessageLimit(depth: nat): nat { if depth == 0 then 512 else 256 }

  function StackLimit(depth: nat): nat { if depth == 0 then 4096 else 256 }

  /** Something thrown: an error object, or anything else by its text. */
  datatype Thrown = AnError(id: nat) | Other(text: seq<unit>)

  /** An empty list of errors is like none; the stack is none when it is empty or no text. */
  datatype ErrorNode = ErrorNode(
    name: seq<unit>, message: Option<seq<unit>>, cause: Option<Thrown>, errors: seq<Thrown>, stack: Option<seq<unit>>)

  type Graph = map<nat, ErrorNode>

  predicate Refers(g: Graph, t: Thrown) { t.AnError? ==> t.id in g }

  predicate Closed(g: Graph) {
    forall id :: id in g ==>
      (g[id].cause.Some? ==> Refers(g, g[id].cause.value)) && forall i :: 0 <= i < |g[id].errors| ==> Refers(g, g[id].errors[i])
  }

  /**
   * A text is none when there was no budget left for it; a name then reads "Error", and the
   * message of something that is no error is empty.
   */
  datatype ErrorValue =
    | Plain(message: Option<seq<unit>>, truncated: bool)
    | Circular(name: Option<seq<unit>>)
    | Entry(
        name: Option<seq<unit>>, message: Option<seq<unit>>, cause: Option<ErrorValue>,
        errors: seq<ErrorValue>, omitted: nat, stack: Option<seq<unit>>, truncated: bool)

  // ---------- measures ----------

  function TextBytes(t: Option<seq<unit>>): nat { if t.Some? then |Encode(t.value)| else 0 }

  /** The bytes of all texts that were taken from the errors. */
  function Taken(v: ErrorValue): nat {
    match v
    case Plain(message, _) => TextBytes(message)
    case Circular(name) => TextBytes(name)
    case Entry(name, message, cause, errors, _, stack, _) =>
      TextBytes(name) + TextBytes(message) + (if cause.Some? then Taken(cause.value) else 0) + TakenAll(errors) + TextBytes(stack)
  }

  function TakenAll(vs: seq<ErrorValue>): nat {
    if vs == [] then 0 else TakenAll(vs[..|vs| - 1]) + Taken(vs[|vs| - 1])
  }

  /** The values other than mentions of an error that is already being told. */
  function Nodes(v: ErrorValue): nat {
    match v
    case Plain(_, _) => 1
    case Circular(_) => 0
    case Entry(_, _, cause, errors, _, _, _) => 1 + (if cause.Some? then Nodes(cause.value) else 0) + NodesAll(errors)
  }

  function NodesAll(vs: seq<ErrorValue>): nat {
    if vs == [] then 0 else NodesAll(vs[..|vs| - 1]) + Nodes(vs[|vs| - 1])
  }

  /** The mentions of an error that is already being told. */
  function Circles(v: ErrorValue): nat {
    match v
    case Plain(_, _) => 0
    case Circular(_) => 1
    case Entry(_, _, cause, errors, _, _, _) => (if cause.Some? then Circles(cause.value) else 0) + CirclesAll(errors)
  }

  function CirclesAll(vs: seq<ErrorValue>): nat {
    if vs == [] then 0 else CirclesAll(vs[..|vs| - 1]) + Circles(vs[|vs| - 1])
  }

  /** The value nests at most `levels` deep. */
  predicate Shallow(v: ErrorValue, levels: int)
    decreases v
  {
    v.Entry? ==>
      && ((v.cause.Some? || v.errors != []) ==> levels >= 1)
      && (v.cause.Some? ==> Shallow(v.cause.value, levels - 1))
      && ShallowAll(v.errors, levels - 1)
  }

  predicate ShallowAll(vs: seq<ErrorValue>, levels: int)
    decreases vs
  {
    vs == [] || (ShallowAll(vs[..|vs| - 1], levels) && Shallow(vs[|vs| - 1], levels))
  }

  /** Every text stays under its own limit. */
  predicate Capped(v: ErrorValue, depth: nat)
    decreases v
  {
    match v
    case Plain(message, _) => TextBytes(message) <= (if depth == 0 then 512 else 256)
    case Circular(name) => TextBytes(name) <= 128
    case Entry(name, message, cause, errors, _, stack, _) =>
      && TextBytes(name) <= 128 && TextBytes(message) <= (if depth == 0 then 512 else 256)
      && TextBytes(stack) <= (if depth == 0 then 4096 else 256)
      && (cause.Some? ==> Capped(cause.value, depth + 1))
      && CappedAll(errors, depth + 1)
  }

  predicate CappedAll(vs: seq<ErrorValue>, depth: nat)
    decreases vs
  {
    vs == [] || (CappedAll(vs[..|vs| - 1], depth) && Capped(vs[|vs| - 1], depth))
  }

  // ---------- what the value says about the error ----------

  /** What is left for the rest of the telling. */
  datatype Budget = Budget(entries: int, bytes: int) {
    function Less(text: Option<seq<unit>>): Budget { Budget(entries, bytes - TextBytes(text)) }
    function Without(v: ErrorValue): Budget { Budget(entries - Nodes(v), bytes - Taken(v)) }
    function WithoutAll(vs: seq<ErrorValue>): Budget { Budget(entries - NodesAll(vs), bytes - TakenAll(vs)) }
    predicate Holds(depth: nat) { depth < 6 && entries > 0 }
  }

  const WHOLE := Budget(16, 8192)

  function Min(a: int, b: int): int { if a <= b then a else b }

  /** No longer prefix that splits no character fits. */
  predicate Longest(text: seq<unit>, kept: seq<unit>, allowed: int) {
    kept <= text && Keepable(text, |kept|, allowed) && forall i: nat :: |kept| < i <= |text| ==> !Keepable(text, i, allowed)
  }

  /** Of a text the longest prefix is kept that its limit and the budget allow, none without budget. */
  predicate Kept(text: seq<unit>, limit: nat, bytes: int, kept: Option<seq<unit>>) {
    && (kept.Some? <==> bytes > 0)
    && (kept.Some? ==> Longest(text, kept.value, Min(limit, bytes)))
  }

  predicate KeptIfAny(text: Option<seq<unit>>, limit: nat, bytes: int, kept: Option<seq<unit>>) {
    if text.None? then kept.None? else Kept(text.value, limit, bytes, kept)
  }

  /**
   * The value tells of the error what the budget allows, in the order in which it is spent:
   * name, message, cause, aggregated errors, stack. A cause is missing, or some of the
   * errors, exactly when depth or entries are used up there. The mark says exactly whether
   * something is missing here. `path` are the errors being told.
   */
  predicate Tells(g: Graph, error: Thrown, path: set<nat>, depth: nat, budget: Budget, v: ErrorValue)
    decreases v
  {
    match v
    case Plain(message, truncated) =>
      error.Other? && Kept(error.text, if depth == 0 then 512 else 256, budget.bytes, message) && (truncated <==> message != Some(error.text))
    case Circular(name) =>
      error.AnError? && error.id in path && error.id in g && Kept(g[error.id].name, 128, budget.bytes, name)
    case Entry(name, message, cause, errors, omitted, stack, truncated) =>
      && error.AnError? && error.id !in path && error.id in g
      && var e := g[error.id];
      && var named := Budget(budget.entries - 1, budget.bytes).Less(name);
      && var begun := named.Less(message);
      && var caused := if cause.Some? then begun.Without(cause.value) else begun;
      && var told := caused.WithoutAll(errors);
      && Kept(e.name, 128, budget.bytes, name)
      && KeptIfAny(e.message, if depth == 0 then 512 else 256, named.bytes, message)
      && (cause.Some? <==> e.cause.Some? && begun.Holds(depth))
      && (cause.Some? ==> Tells(g, e.cause.value, path + {error.id}, depth + 1, begun, cause.value))
      && TellsAll(g, e.errors, path + {error.id}, depth, caused, errors)
      && |errors| + omitted == |e.errors| && (omitted > 0 ==> !told.Holds(depth))
      && KeptIfAny(e.stack, if depth == 0 then 4096 else 256, told.bytes, stack)
      && (truncated <==>
            name != Some(e.name) || message != e.message || stack != e.stack || (cause.None? && e.cause.Some?) || omitted > 0)
  }

  /** The first of the errors below an error at this depth, one after the other. */
  predicate TellsAll(g: Graph, errors: seq<Thrown>, path: set<nat>, depth: nat, budget: Budget, vs: seq<ErrorValue>)
    decreases vs
  {
    vs != [] ==>
      var before, last := vs[..|vs| - 1], |vs| - 1;
      && |vs| <= |errors|
      && TellsAll(g, errors, path, depth, budget, before)
      && budget.WithoutAll(before).Holds(depth)
      && Tells(g, errors[last], path, depth + 1, budget.WithoutAll(before), vs[last])
  }

  // ---------- the serializer ----------

  class ErrorSerializer {
    const graph: Graph

    var entries: int
    var textBytes: int
    var seen: set<nat>

    function Left(): Budget reads this { Budget(entries, textBytes) }

    predicate Valid() reads this { entries >= 0 && textBytes >= 0 }

    constructor (graph: Graph)
      ensures this.graph == graph && Left() == WHOLE && seen == {}
    {
      this.graph := graph;
      entries, textBytes, seen := MAX_ENTRIES, MAX_TEXT_BYTES, {};
    }

    /** As much of the text as its limit and the shared budget allow, never half a character. */
    method TakeErrorText(value: seq<unit>, limit: nat) returns (text: Option<seq<unit>>, truncated: bool)
      requires Valid()
      modifies `textBytes
      ensures Valid() && Left() == old(Left()).Less(text)
      ensures Kept(value, limit, old(textBytes), text) && (text.Some? <==> old(textBytes) > 0)
      ensures truncated <==> text != Some(value)
    {
      if textBytes <= 0 { return None, true; }
      var allowed := if limit <= textBytes then limit else textBytes;
      var bytes := Utf8ByteLength(value);
      if bytes <= allowed {
        textBytes := textBytes - bytes;
        assert value[..|value|] == value;
        return Some(value), false;
      }
      var prefix := TruncateUtf8(value, allowed);
      WholeText(value, prefix, allowed);
      var length := Utf8ByteLength(prefix);
      textBytes := textBytes - length;
      return Some(prefix), true;
    }

    method TraceErrorEntry(error: Thrown, depth: nat) returns (v: ErrorValue)
      requires Closed(graph) && Refers(graph, error) && Valid() && entries >= 1 && depth <= MAX_DEPTH
      modifies this
      ensures Valid() && Left() == old(Left()).Without(v) && seen == old(seen)
      ensures Tells(graph, error, old(seen), depth, old(Left()), v)
      decreases MAX_DEPTH - depth, 2
    {
      hide Kept, Closed;
      if error.Other? {
        entries := entries - 1;
        var text, cut := TakeErrorText(error.text, MessageLimit(depth));
        return Plain(text, cut);
      }
      var e := graph[error.id];
      if error.id in seen {
        var name, _ := TakeErrorText(e.name, MAX_NAME_BYTES);
        return Circular(name);
      }
      v := TraceErrorObject(error.id, depth);
    }

    /** An error that is not being told already. */
    method TraceErrorObject(id: nat, depth: nat) returns (v: ErrorValue)
      requires Closed(graph) && id in graph && id !in seen && Valid() && entries >= 1 && depth <= MAX_DEPTH
      modifies this
      ensures Valid() && Left() == old(Left()).Without(v) && seen == old(seen)
      ensures Tells(graph, AnError(id), old(seen), depth, old(Left()), v)
      decreases MAX_DEPTH - depth, 1
    {
      hide Kept, KeptIfAny, Closed, Refers, TellsAll, TakenAll, NodesAll, TextBytes;
      ClosedAt(graph, id);
      var e := graph[id];
      entries := entries - 1;
      seen := seen + {id};
      var name, truncated := TakeErrorText(e.name, MAX_NAME_BYTES);
      var message, messageCut := TakeOptionalText(e.message, MessageLimit(depth));
      var cause := TraceCause(e.cause, depth);
      var values := TraceErrors(e.errors, depth);
      var omitted := |e.errors| - |values|;
      var stack, stackCut := TakeOptionalText(e.stack, StackLimit(depth));
      truncated := truncated || messageCut || (cause.None? && e.cause.Some?) || omitted > 0 || stackCut;
      seen := seen - {id};
      v := Entry(name, message, cause, values, omitted, stack, truncated);
    }

    /** Nothing is taken for an absent text. */
    method TakeOptionalText(value: Option<seq<unit>>, limit: nat) returns (text: Option<seq<unit>>, truncated: bool)
      requires Valid()
      modifies `textBytes
      ensures Valid() && Left() == old(Left()).Less(text)
      ensures KeptIfAny(value, limit, old(textBytes), text)
      ensures truncated <==> text != value
    {
      if value.None? { return None, false; }
      text, truncated := TakeErrorText(value.value, limit);
    }

    method TraceCause(cause: Option<Thrown>, depth: nat) returns (v: Option<ErrorValue>)
      requires Closed(graph) && (cause.Some? ==> Refers(graph, cause.value)) && Valid() && depth <= MAX_DEPTH
      modifies this
      ensures Valid() && seen == old(seen)
      ensures Left() == if v.Some? then old(Left()).Without(v.value) else old(Left())
      ensures v.Some? <==> cause.Some? && old(Left()).Holds(depth)
      ensures v.Some? ==> Tells(graph, cause.value, old(seen), depth + 1, old(Left()), v.value)
      decreases MAX_DEPTH - depth, 0
    {
      if cause.None? || depth >= MAX_DEPTH || entries <= 0 { return None; }
      var told := TraceErrorEntry(cause.value, depth + 1);
      return Some(told);
    }

    /** The first of the aggregated errors, while there are entries left. */
    method TraceErrors(errors: seq<Thrown>, depth: nat) returns (values: seq<ErrorValue>)
      requires Closed(graph) && (forall i :: 0 <= i < |errors| ==> Refers(graph, errors[i])) && Valid() && depth <= MAX_DEPTH
      modifies this
      ensures Valid() && Left() == old(Left()).WithoutAll(values) && seen == old(seen)
      ensures TellsAll(graph, errors, old(seen), depth, old(Left()), values)
      ensures |values| <= |errors| && (|values| < |errors| ==> !Left().Holds(depth))
      decreases MAX_DEPTH - depth, 0
    {
      hide Tells, Taken, Nodes, Closed, Refers;
      values := [];
      if depth == MAX_DEPTH { return; }
      var index := 0;
      while index < |errors|
        invariant 0 <= index == |values| <= |errors|
        invariant Valid() && Left() == old(Left()).WithoutAll(values) && seen == old(seen)
        invariant TellsAll(graph, errors, seen, depth, old(Left()), values)
      {
        if entries <= 0 { break; }
        var one := TraceErrorEntry(errors[index], depth + 1);
        assert (values + [one])[..index] == values;
        values := values + [one];
        index := index + 1;
      }
    }
  }

  lemma ClosedAt(g: Graph, id: nat)
    requires Closed(g) && id in g
    ensures g[id].cause.Some? ==> Refers(g, g[id].cause.value)
    ensures forall i :: 0 <= i < |g[id].errors| ==> Refers(g, g[id].errors[i])
  {
  }

  lemma WholeText(value: seq<unit>, prefix: seq<unit>, allowed: nat)
    requires prefix <= value && |Encode(value)| > allowed && Keepable(value, |prefix|, allowed)
    ensures |Encode(prefix)| <= allowed && prefix != value
  {
    assert value[..|prefix|] == prefix;
  }

  // ---------- what is told is bounded ----------

  lemma KeptBound(text: seq<unit>, limit: nat, bytes: nat, kept: Option<seq<unit>>)
    requires Kept(text, limit, bytes, kept)
    ensures TextBytes(kept) <= limit && TextBytes(kept) <= bytes
  {
    if kept.Some? {
      assert text[..|kept.value|] == kept.value;
    }
  }

  lemma KeptIfAnyBound(text: Option<seq<unit>>, limit: nat, bytes: nat, kept: Option<seq<unit>>)
    requires KeptIfAny(text, limit, bytes, kept)
    ensures TextBytes(kept) <= limit && TextBytes(kept) <= bytes
  {
    if text.Some? {
      KeptBound(text.value, limit, bytes, kept);
    }
  }

  /** What is told stays within the budget, within the depth, and every text within its limit. */
  lemma {:induction false} WithinBudget(g: Graph, error: Thrown, path: set<nat>, depth: nat, budget: Budget, v: ErrorValue)
    requires Tells(g, error, path, depth, budget, v) && budget.entries >= 1 && budget.bytes >= 0
    ensures Nodes(v) <= budget.entries && Taken(v) <= budget.bytes
    ensures Shallow(v, MAX_DEPTH - depth) && Capped(v, depth)
    decreases v
  {
    hide Kept, KeptIfAny, TellsAll, ShallowAll, CappedAll, TakenAll, NodesAll, TextBytes;
    match v
    case Plain(message, _) => KeptBound(error.text, MessageLimit(depth), budget.bytes, message);
    case Circular(name) => KeptBound(g[error.id].name, MAX_NAME_BYTES, budget.bytes, name);
    case Entry(name, message, cause, errors, _, stack, _) =>
      var e, inside := g[error.id], path + {error.id};
      KeptBound(e.name, MAX_NAME_BYTES, budget.bytes, name);
      var named := Budget(budget.entries - 1, budget.bytes).Less(name);
      KeptIfAnyBound(e.message, MessageLimit(depth), named.bytes, message);
      var begun := named.Less(message);
      if cause.Some? { WithinBudget(g, e.cause.value, inside, depth + 1, begun, cause.value); }
      var caused := if cause.Some? then begun.Without(cause.value) else begun;
      AllWithinBudget(g, e.errors, inside, depth, caused, errors);
      KeptIfAnyBound(e.stack, StackLimit(depth), caused.WithoutAll(errors).bytes, stack);
  }

  lemma {:induction false} AllWithinBudget(
    g: Graph, errors: seq<Thrown>, path: set<nat>, depth: nat, budget: Budget, vs: seq<ErrorValue>)
    requires TellsAll(g, errors, path, depth, budget, vs) && budget.entries >= 0 && budget.bytes >= 0
    ensures NodesAll(vs) <= budget.entries && TakenAll(vs) <= budget.bytes
    ensures vs != [] ==> depth < MAX_DEPTH
    ensures ShallowAll(vs, MAX_DEPTH - depth - 1) && CappedAll(vs, depth + 1)
    decreases vs
  {
    hide Tells, Shallow, Capped, Taken, Nodes;
    if vs != [] {
      var before, last := vs[..|vs| - 1], |vs| - 1;
      AllWithinBudget(g, errors, path, depth, budget, before);
      WithinBudget(g, errors[last], path, depth + 1, budget.WithoutAll(before), vs[last]);
    }
  }

  /** At most 16 nodes, nested at most 6 deep, with at most 8192 bytes of text. */
  lemma ToldIsBounded(g: Graph, error: Thrown, v: ErrorValue)
    requires Tells(g, error, {}, 0, WHOLE, v)
    ensures Nodes(v) <= 16 && Taken(v) <= 8192 && Shallow(v, 6) && Capped(v, 0)
  {
    hide Tells, Nodes, Taken, Shallow, Capped;
    WithinBudget(g, error, {}, 0, WHOLE, v);
  }

  // ---------- nothing else could be told ----------

  lemma KeptUnique(text: seq<unit>, limit: nat, bytes: int, kept: Option<seq<unit>>, other: Option<seq<unit>>)
    requires Kept(text, limit, bytes, kept) && Kept(text, limit, bytes, other)
    ensures kept == other
  {
    if kept.Some? {
      var a, b := kept.value, other.value;
      assert |a| == |b|;
      assert a == text[..|a|] && b == text[..|b|];
    }
  }

  lemma KeptIfAnyUnique(text: Option<seq<unit>>, limit: nat, bytes: int, kept: Option<seq<unit>>, other: Option<seq<unit>>)
    requires KeptIfAny(text, limit, bytes, kept) && KeptIfAny(text, limit, bytes, other)
    ensures kept == other
  {
    if text.Some? {
      KeptUnique(text.value, limit, bytes, kept, other);
    }
  }

  /** The error and the budget determine the value: no text can be shorter, no cause or child be dropped. */
  lemma {:induction false} ToldUnique(
    g: Graph, error: Thrown, path: set<nat>, depth: nat, budget: Budget, v: ErrorValue, w: ErrorValue)
    requires Tells(g, error, path, depth, budget, v) && Tells(g, error, path, depth, budget, w)
    ensures v == w
    decreases v
  {
    hide Kept, KeptIfAny, TellsAll, TakenAll, NodesAll, TextBytes;
    match v
    case Plain(message, _) => KeptUnique(error.text, MessageLimit(depth), budget.bytes, message, w.message);
    case Circular(name) => KeptUnique(g[error.id].name, MAX_NAME_BYTES, budget.bytes, name, w.name);
    case Entry(name, message, cause, errors, _, stack, _) =>
      var e, inside := g[error.id], path + {error.id};
      KeptUnique(e.name, MAX_NAME_BYTES, budget.bytes, name, w.name);
      var named := Budget(budget.entries - 1, budget.bytes).Less(name);
      KeptIfAnyUnique(e.message, MessageLimit(depth), named.bytes, message, w.message);
      var begun := named.Less(message);
      if cause.Some? { ToldUnique(g, e.cause.value, inside, depth + 1, begun, cause.value, w.cause.value); }
      var caused := if cause.Some? then begun.Without(cause.value) else begun;
      AllToldUnique(g, e.errors, inside, depth, caused, errors, w.errors);
      KeptIfAnyUnique(e.stack, StackLimit(depth), caused.WithoutAll(errors).bytes, stack, w.stack);
  }

  lemma {:induction false} AllToldUnique(
    g: Graph, errors: seq<Thrown>, path: set<nat>, depth: nat, budget: Budget, vs: seq<ErrorValue>, ws: seq<ErrorValue>)
    requires TellsAll(g, errors, path, depth, budget, vs) && |vs| <= |errors|
    requires TellsAll(g, errors, path, depth, budget, ws) && |ws| <= |errors|
    requires |vs| < |errors| ==> !budget.WithoutAll(vs).Holds(depth)
    requires |ws| < |errors| ==> !budget.WithoutAll(ws).Holds(depth)
    ensures vs == ws
    decreases vs, 1
  {
    hide Tells, TellsAll, NodesAll, TakenAll;
    var n := if |vs| <= |ws| then |vs| else |ws|;
    SameUpTo(g, errors, path, depth, budget, vs, ws, n);
    assert vs[..|vs|] == vs && ws[..|ws|] == ws;
    if n < |ws| {
      StartTold(g, errors, path, depth, budget, ws, n);
    } else if n < |vs| {
      StartTold(g, errors, path, depth, budget, vs, n);
    }
  }

  /** Before each of the errors there was room for it. */
  lemma {:induction false} StartTold(
    g: Graph, errors: seq<Thrown>, path: set<nat>, depth: nat, budget: Budget, vs: seq<ErrorValue>, n: nat)
    requires TellsAll(g, errors, path, depth, budget, vs) && n < |vs| <= |errors|
    ensures budget.WithoutAll(vs[..n]).Holds(depth)
    ensures Tells(g, errors[n], path, depth + 1, budget.WithoutAll(vs[..n]), vs[n])
    decreases |vs|
  {
    hide Tells, NodesAll, TakenAll;
    if n < |vs| - 1 {
      var before := vs[..|vs| - 1];
      StartTold(g, errors, path, depth, budget, before, n);
      assert before[..n] == vs[..n] && before[n] == vs[n];
    }
  }

  lemma {:induction false} SameUpTo(
    g: Graph, errors: seq<Thrown>, path: set<nat>, depth: nat, budget: Budget, vs: seq<ErrorValue>, ws: seq<ErrorValue>, n: nat)
    requires TellsAll(g, errors, path, depth, budget, vs) && |vs| <= |errors|
    requires TellsAll(g, errors, path, depth, budget, ws) && |ws| <= |errors|
    requires n <= |vs| && n <= |ws|
    ensures vs[..n] == ws[..n]
    decreases vs, 0, n
  {
    hide Tells, TellsAll, NodesAll, TakenAll;
    if n > 0 {
      var m := n - 1;
      SameUpTo(g, errors, path, depth, budget, vs, ws, m);
      StartTold(g, errors, path, depth, budget, vs, m);
      StartTold(g, errors, path, depth, budget, ws, m);
      ToldUnique(g, errors[m], path, depth + 1, budget.WithoutAll(vs[..m]), vs[m], ws[m]);
      assert vs[..n] == vs[..m] + [vs[m]] && ws[..n] == ws[..m] + [ws[m]];
    }
  }

  // ---------- what fits is told completely ----------

  /** The value is all of the error, which does not contain itself. */
  predicate Whole(g: Graph, error: Thrown, path: set<nat>, w: ErrorValue)
    decreases w
  {
    match w
    case Plain(message, truncated) => error.Other? && message == Some(error.text) && !truncated
    case Circular(_) => false
    case Entry(name, message, cause, errors, omitted, stack, truncated) =>
      && error.AnError? && error.id in g && error.id !in path
      && var e, inside := g[error.id], path + {error.id};
      && name == Some(e.name) && message == e.message && stack == e.stack && omitted == 0 && !truncated
      && (cause.Some? <==> e.cause.Some?) && (cause.Some? ==> Whole(g, e.cause.value, inside, cause.value))
      && |errors| == |e.errors| && WholeAll(g, e.errors, inside, errors)
  }

  predicate WholeAll(g: Graph, errors: seq<Thrown>, path: set<nat>, ws: seq<ErrorValue>)
    decreases ws
  {
    ws != [] ==>
      var last := |ws| - 1;
      |ws| <= |errors| && WholeAll(g, errors, path, ws[..last]) && Whole(g, errors[last], path, ws[last])
  }

  lemma KeptWhole(text: seq<unit>, limit: nat, bytes: int)
    requires |Encode(text)| <= limit && |Encode(text)| < bytes
    ensures Kept(text, limit, bytes, Some(text))
  {
    assert text[..|text|] == text;
  }

  lemma KeptIfAnyWhole(text: Option<seq<unit>>, limit: nat, bytes: int)
    requires TextBytes(text) <= limit && TextBytes(text) < bytes
    ensures KeptIfAny(text, limit, bytes, text)
  {
    if text.Some? {
      KeptWhole(text.value, limit, bytes);
    }
  }

  /** An error without cycles that stays below all limits is told completely. */
  lemma {:induction false} WholeIsTold(g: Graph, error: Thrown, path: set<nat>, depth: nat, budget: Budget, w: ErrorValue)
    requires Whole(g, error, path, w) && Nodes(w) <= budget.entries && Taken(w) < budget.bytes
    requires Shallow(w, 6 - depth) && Capped(w, depth)
    ensures Tells(g, error, path, depth, budget, w)
    decreases w
  {
    hide Kept, KeptIfAny, TellsAll, WholeAll, ShallowAll, CappedAll, TakenAll, NodesAll, TextBytes;
    match w
    case Plain(_, _) =>
      TextIs(Some(error.text));
      KeptWhole(error.text, if depth == 0 then 512 else 256, budget.bytes);
    case Circular(_) =>
    case Entry(name, message, cause, errors, _, stack, _) =>
      var e, inside := g[error.id], path + {error.id};
      TextIs(name);
      KeptWhole(e.name, 128, budget.bytes);
      var named := Budget(budget.entries - 1, budget.bytes).Less(name);
      KeptIfAnyWhole(e.message, if depth == 0 then 512 else 256, named.bytes);
      var begun := named.Less(message);
      if cause.Some? {
        SomeNode(g, e.cause.value, inside, cause.value);
        WholeIsTold(g, e.cause.value, inside, depth + 1, begun, cause.value);
      }
      var caused := if cause.Some? then begun.Without(cause.value) else begun;
      WholeAllTold(g, e.errors, inside, depth, caused, errors);
      KeptIfAnyWhole(e.stack, if depth == 0 then 4096 else 256, caused.WithoutAll(errors).bytes);
  }

  lemma TextIs(text: Option<seq<unit>>)
    ensures TextBytes(text) == if text.Some? then |Encode(text.value)| else 0
  {
  }

  lemma SomeNode(g: Graph, error: Thrown, path: set<nat>, w: ErrorValue)
    requires Whole(g, error, path, w)
    ensures Nodes(w) >= 1
  {
  }

  lemma {:induction false} WholeAllTold(
    g: Graph, errors: seq<Thrown>, path: set<nat>, depth: nat, budget: Budget, ws: seq<ErrorValue>)
    requires WholeAll(g, errors, path, ws) && NodesAll(ws) <= budget.entries && TakenAll(ws) < budget.bytes
    requires (ws != [] ==> depth < 6) && ShallowAll(ws, 6 - depth - 1) && CappedAll(ws, depth + 1)
    ensures TellsAll(g, errors, path, depth, budget, ws)
    decreases ws
  {
    hide Tells, Whole, Shallow, Capped, Taken, Nodes;
    if ws != [] {
      var before, last := ws[..|ws| - 1], |ws| - 1;
      WholeAllTold(g, errors, path, depth, budget, before);
      SomeNode(g, errors[last], path, ws[last]);
      WholeIsTold(g, errors[last], path, depth + 1, budget.WithoutAll(before), ws[last]);
    }
  }

  /** So nothing is missing from what is told of it. */
  lemma FittingIsWhole(g: Graph, error: Thrown, v: ErrorValue, w: ErrorValue)
    requires Tells(g, error, {}, 0, Budget(16, 8192), v)
    requires Whole(g, error, {}, w) && Nodes(w) <= 16 && Taken(w) < 8192 && Shallow(w, 6) && Capped(w, 0)
    ensures v == w
  {
    hide Tells, Whole, Nodes, Taken, Shallow, Capped;
    WholeIsTold(g, error, {}, 0, Budget(16, 8192), w);
    ToldUnique(g, error, {}, 0, Budget(16, 8192), v, w);
  }

  // ---------- mentions of errors that are being told already ----------

  /** No error has more than so many aggregated errors. */
  predicate Wide(g: Graph, width: nat) {
    forall id :: id in g ==> |g[id].errors| <= width
  }

  lemma Times(a: int, b: int, width: nat)
    ensures (a + b) * width == a * width + b * width
  {
  }

  /**
   * Every value but the first is a child, and an error has at most one cause and `width`
   * aggregated errors. The error that uses the last entry has no children.
   */
  lemma {:induction false} CirclesBounded(
    g: Graph, width: nat, error: Thrown, path: set<nat>, depth: nat, budget: Budget, v: ErrorValue)
    requires Wide(g, width) && Tells(g, error, path, depth, budget, v) && budget.entries >= 1
    ensures Nodes(v) <= budget.entries
    ensures Circles(v) <= if Nodes(v) == budget.entries then (Nodes(v) - 1) * width else Nodes(v) * width + 1
    decreases v
  {
    hide Kept, KeptIfAny, TellsAll, TakenAll, NodesAll, CirclesAll, TextBytes;
    if v.Entry? {
      var e, inside, cause, errors := g[error.id], path + {error.id}, v.cause, v.errors;
      var begun := Budget(budget.entries - 1, budget.bytes).Less(v.name).Less(v.message);
      var n := if cause.Some? then Nodes(cause.value) else 0;
      if cause.Some? { CirclesBounded(g, width, e.cause.value, inside, depth + 1, begun, cause.value); }
      var caused := if cause.Some? then begun.Without(cause.value) else begun;
      AllCirclesBounded(g, width, e.errors, inside, depth, caused, errors);
      Times(n, NodesAll(errors), width);
      Times(n + NodesAll(errors), 1, width);
      Times(n, -1, width);
    }
  }

  lemma {:induction false} AllCirclesBounded(
    g: Graph, width: nat, errors: seq<Thrown>, path: set<nat>, depth: nat, budget: Budget, vs: seq<ErrorValue>)
    requires Wide(g, width) && TellsAll(g, errors, path, depth, budget, vs) && budget.entries >= 0
    ensures NodesAll(vs) <= budget.entries
    ensures vs == [] ==> CirclesAll(vs) == NodesAll(vs) == 0
    ensures CirclesAll(vs) <=
      if vs != [] && NodesAll(vs) == budget.entries then NodesAll(vs) * width + |vs| - 1 - width else NodesAll(vs) * width + |vs|
    decreases vs
  {
    hide Tells, Taken, Nodes, Circles;
    if vs != [] {
      var before, last := vs[..|vs| - 1], |vs| - 1;
      AllCirclesBounded(g, width, errors, path, depth, budget, before);
      CirclesBounded(g, width, errors[last], path, depth + 1, budget.WithoutAll(before), vs[last]);
      Times(NodesAll(before), Nodes(vs[last]), width);
      Times(Nodes(vs[last]), -1, width);
    }
  }

  /** At most fifteen times the width and one. */
  lemma FewCircles(g: Graph, width: nat, error: Thrown, v: ErrorValue)
    requires Wide(g, width) && Tells(g, error, {}, 0, WHOLE, v)
    ensures Circles(v) <= 15 * width + 1
  {
    hide Tells, Nodes, Circles, Wide;
    CirclesBounded(g, width, error, {}, 0, WHOLE, v);
    if Nodes(v) == MAX_ENTRIES {
    } else {
      Times(Nodes(v), 15 - Nodes(v), width);
    }
  }

  /** An error with a cause and `width` aggregated errors; each is one of two others or the error itself. */
  function Crowd(width: nat, id: nat): ErrorNode {
    var inner := width > 0 && id < 7;
    var others := if width == 0 then [] else [AnError(if inner then 2 * id + 2 else id)] + seq(width - 1, i => AnError(id));
    ErrorNode([], None, Some(AnError(if inner then 2 * id + 1 else id)), others, None)
  }

  /** Fifteen errors in a tree. */
  function Crowded(width: nat): Graph {
    map id: nat | id in FIFTEEN :: Crowd(width, id)
  }

  const FIFTEEN: set<nat> := set id: nat | id < 15

  /** How many of the errors are told below and with this one. */
  function Size(width: nat, id: nat): nat {
    if width == 0 || id >= 7 then 1 else if id >= 3 then 3 else if id >= 1 then 7 else 15
  }

  function Level(id: nat): nat {
    if id >= 7 then 3 else if id >= 3 then 2 else if id >= 1 then 1 else 0
  }

  /** All but the first of these are mentions of an error that is being told. */
  lemma {:induction false} Mentions(
    g: Graph, errors: seq<Thrown>, id: nat, path: set<nat>, depth: nat, budget: Budget, vs: seq<ErrorValue>)
    requires TellsAll(g, errors, path, depth, budget, vs) && 0 < |vs| <= |errors|
    requires id in path && forall i :: 1 <= i < |errors| ==> errors[i] == AnError(id)
    ensures NodesAll(vs) == Nodes(vs[0]) && CirclesAll(vs) == Circles(vs[0]) + |vs| - 1
    decreases |vs|
  {
    var before, last := vs[..|vs| - 1], |vs| - 1;
    if last > 0 {
      Mentions(g, errors, id, path, depth, budget, before);
      assert vs[last].Circular?;
    } else {
      assert before == [];
    }
  }

  /** With an entry to spare the first child is told. */
  lemma ChildrenTold(g: Graph, errors: seq<Thrown>, path: set<nat>, depth: nat, budget: Budget, vs: seq<ErrorValue>)
    requires TellsAll(g, errors, path, depth, budget, vs) && |vs| <= |errors| && errors != [] && budget.Holds(depth)
    requires |vs| < |errors| ==> !budget.WithoutAll(vs).Holds(depth)
    ensures vs != [] && Tells(g, errors[0], path, depth + 1, budget, vs[0])
  {
    hide Tells;
    if vs != [] {
      StartTold(g, errors, path, depth, budget, vs, 0);
      assert vs[..0] == [];
    }
  }

  /** An error that is not being told is told with its cause, and its children if there is any room. */
  lemma Begun(g: Graph, id: nat, path: set<nat>, depth: nat, budget: Budget, v: ErrorValue) returns (begun: Budget)
    requires id in g && id !in path && Tells(g, AnError(id), path, depth, budget, v) && budget.entries > 1 && depth < MAX_DEPTH
    ensures v.Entry? && begun.entries == budget.entries - 1 && (v.cause.Some? <==> g[id].cause.Some?)
    ensures v.cause.Some? ==> Tells(g, g[id].cause.value, path + {id}, depth + 1, begun, v.cause.value)
    ensures var caused := if v.cause.Some? then begun.Without(v.cause.value) else begun;
      && TellsAll(g, g[id].errors, path + {id}, depth, caused, v.errors) && |v.errors| <= |g[id].errors|
      && (|v.errors| < |g[id].errors| ==> !caused.WithoutAll(v.errors).Holds(depth))
  {
    hide Kept, KeptIfAny, TellsAll, TakenAll, NodesAll, TextBytes;
    begun := Budget(budget.entries - 1, budget.bytes).Less(v.name).Less(v.message);
  }

  lemma {:induction false} CrowdTold(width: nat, id: nat, path: set<nat>, depth: nat, budget: Budget, v: ErrorValue)
    requires id < 15 && (width == 0 ==> id == 0) && (forall p :: p in path ==> p < id)
    requires Tells(Crowded(width), AnError(id), path, depth, budget, v)
    requires budget.entries > Size(width, id) && depth <= Level(id)
    ensures Nodes(v) == Size(width, id) && Circles(v) == Size(width, id) * width + 1
    decreases 15 - id
  {
    hide Tells, TellsAll, TakenAll, NodesAll, CirclesAll, TextBytes, Taken;
    var g, e, inside := Crowded(width), Crowd(width, id), path + {id};
    var begun := Begun(g, id, path, depth, budget, v);
    var cause, caused := v.cause.value, begun.Without(v.cause.value);
    if width == 0 {
      MentionTold(g, id, inside, depth + 1, begun, cause);
      NoneTold();
    } else if id >= 7 {
      MentionTold(g, id, inside, depth + 1, begun, cause);
      ChildrenTold(g, e.errors, inside, depth, caused, v.errors);
      MentionTold(g, id, inside, depth + 1, caused, v.errors[0]);
      Mentions(g, e.errors, id, inside, depth, caused, v.errors);
    } else {
      CrowdTold(width, 2 * id + 1, inside, depth + 1, begun, cause);
      ChildrenTold(g, e.errors, inside, depth, caused, v.errors);
      CrowdTold(width, 2 * id + 2, inside, depth + 1, caused, v.errors[0]);
      Mentions(g, e.errors, id, inside, depth, caused, v.errors);
      Times(Size(width, 2 * id + 1), Size(width, 2 * id + 1) + 1, width);
      Times(Size(width, 2 * id + 1), 1, width);
    }
  }

  lemma MentionTold(g: Graph, id: nat, path: set<nat>, depth: nat, budget: Budget, v: ErrorValue)
    requires id in path && Tells(g, AnError(id), path, depth, budget, v)
    ensures Nodes(v) == 0 && Circles(v) == 1
  {
    hide Kept, KeptIfAny, TellsAll, TextBytes;
  }

  lemma NoneTold()
    ensures CirclesAll([]) == NodesAll([]) == 0
  {
  }

  /** The bound is reached, whatever the width. */
  lemma ManyCircles(width: nat, v: ErrorValue)
    requires Tells(Crowded(width), AnError(0), {}, 0, WHOLE, v)
    ensures Wide(Crowded(width), width) && Circles(v) == 15 * width + 1
  {
    hide Tells, Circles, Nodes;
    CrowdTold(width, 0, {}, 0, WHOLE, v);
  }

  /**
   * For every error graph, cycles and all, the call ends and tells exactly what the whole
   * budget allows: at most 16 nodes, nested at most 6 deep, with at most 8192 bytes of text
   * and every text under its own limit.
   */
  method TraceError(graph: Graph, error: Thrown) returns (v: ErrorValue)
    requires Closed(graph) && Refers(graph, error)
    ensures Tells(graph, error, {}, 0, WHOLE, v)
    ensures Nodes(v) <= 16 && Taken(v) <= 8192 && Shallow(v, 6) && Capped(v, 0)
    ensures forall width: nat :: Wide(graph, width) ==> Circles(v) <= 15 * width + 1
  {
    hide Tells, Closed, Nodes, Taken, Shallow, Capped, Wide, Circles;
    var serializer := new ErrorSerializer(graph);
    v := serializer.TraceErrorEntry(error, 0);
    ToldIsBounded(graph, error, v);
    forall width: nat | Wide(graph, width) ensures Circles(v) <= 15 * width + 1 {
      FewCircles(graph, width, error, v);
    }
  }
}
