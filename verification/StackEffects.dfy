/**
 * What the operations of packages/core/src/gameEngine.ts and gameState/gameState.ts do to a
 * sound machine, said of the stack, of the tables of the states and of what is live.
 */
module StackEffects {
  import opened StateStack
  import opened StackSafety

  // ---------- components ----------

  function RunnersOf(gains: seq<Gain>): seq<Gain> {
    if gains == [] then [] else (if gains[0].GainRunner? then [gains[0]] else []) + RunnersOf(gains[1..])
  }

  /** A disposed event manager ignores subscriptions. */
  function Effective(d: StateData, gains: seq<Gain>): seq<Gain> { if d.listening then gains else RunnersOf(gains) }

  /** What a component acquires is numbered from `first`. */
  predicate Launches(gains: seq<Gain>, first: nat, id: nat) { first <= id < first + |gains| && gains[id - first].GainRunner? }

  predicate Subscribes(gains: seq<Gain>, first: nat, id: nat) { first <= id < first + |gains| && gains[id - first].GainSubscription? }

  function NewSubscriptions(component: nat, gains: seq<Gain>, first: nat): map<nat, Subscription> {
    map u: nat | first <= u < first + |gains| && Subscribes(gains, first, u) :: Subscription(component, gains[u - first].fails)
  }

  function NewRunners(gains: seq<Gain>, first: nat): set<nat> {
    set u: nat | first <= u < first + |gains| && Launches(gains, first, u)
  }

  function NewResources(gains: seq<Gain>, first: nat): set<Resource> {
    (set u | u in NewRunners(gains, first) :: OfRunner(u)) + (set u | u in NewSubscriptions(0, gains, first) :: OfSubscription(u))
  }

  /** The state with these things more. */
  function Richer(d: StateData, component: nat, gains: seq<Gain>, first: nat): StateData {
    d.(subscriptions := d.subscriptions + NewSubscriptions(component, gains, first), runners := d.runners + NewRunners(gains, first))
  }

  lemma OneMore(component: nat, g: Gain, gains: seq<Gain>, first: nat)
    ensures NewRunners([g] + gains, first) == (if g.GainRunner? then {first} else {}) + NewRunners(gains, first + 1)
    ensures NewSubscriptions(component, [g] + gains, first)
      == (if g.GainSubscription? then map[first := Subscription(component, g.fails)] else map[]) + NewSubscriptions(component, gains, first + 1)
    ensures NewResources([g] + gains, first)
      == {if g.GainRunner? then OfRunner(first) else OfSubscription(first)} + NewResources(gains, first + 1)
  {
    var all := [g] + gains;
    forall u: nat | u != first
      ensures (Launches(all, first, u) <==> Launches(gains, first + 1, u)) && (Subscribes(all, first, u) <==> Subscribes(gains, first + 1, u))
    {
      if first < u < first + |all| {
        assert all[u - first] == gains[u - (first + 1)];
      }
    }
    assert Launches(all, first, first) <==> g.GainRunner?;
    assert Subscribes(all, first, first) <==> g.GainSubscription?;
  }

  /** The machine with these things more. */
  function Grown(m: Machine, self: nat, component: nat, gains: seq<Gain>): Machine
    requires self in m.states
  {
    Update(m, self, Richer(m.states[self], component, gains, m.nextId))
      .(live := m.live + NewResources(gains, m.nextId), nextId := m.nextId + |gains|)
  }

  /** Everything a component acquires is owned by its state and live, and nothing else changes. */
  lemma {:induction false} GainedIs(m: Machine, self: nat, component: nat, gains: seq<Gain>)
    requires self in m.states
    ensures Gained(m, self, component, gains) == Grown(m, self, component, Effective(m.states[self], gains))
    decreases gains
  {
    hide Grown, Subscribed, Launched;
    var d := m.states[self];
    if gains == [] {
      GrownNothing(m, self, component);
    } else {
      var g, rest := gains[0], gains[1..];
      var later := Effective(d, rest);
      assert gains == [g] + rest;
      match g {
        case GainSubscription(fails) =>
          var next := Subscribed(m, self, component, fails);
          SubscribedGrown(m, self, component, fails, later);
          GainedIs(next, self, component, rest);
          EffectiveFirst(d, g, rest);
        case GainRunner =>
          var next := Launched(m, self);
          LaunchedGrown(m, self, component, later);
          GainedIs(next, self, component, rest);
          EffectiveFirst(d, g, rest);
      }
    }
  }

  lemma EffectiveFirst(d: StateData, g: Gain, rest: seq<Gain>)
    ensures Effective(d, [g] + rest) == if d.listening || g.GainRunner? then [g] + Effective(d, rest) else Effective(d, rest)
  {
    assert ([g] + rest)[1..] == rest;
    assert [] + RunnersOf(rest) == RunnersOf(rest);
  }

  lemma GrownNothing(m: Machine, self: nat, component: nat)
    requires self in m.states
    ensures Grown(m, self, component, []) == m
  {
    var d := m.states[self];
    Nothing(component, m.nextId);
    assert d.subscriptions + map[] == d.subscriptions && d.runners + {} == d.runners && m.live + {} == m.live;
  }

  lemma SubscribedGrown(m: Machine, self: nat, component: nat, fails: bool, later: seq<Gain>)
    requires self in m.states
    ensures var d, next := m.states[self], Subscribed(m, self, component, fails);
      && self in next.states && next.states[self].listening == d.listening
      && (d.listening ==> Grown(next, self, component, later) == Grown(m, self, component, [GainSubscription(fails)] + later))
      && (!d.listening ==> next == m)
  {
    hide Richer, NewResources;
    SubscribedFirst(m.states[self], component, fails, later, m.nextId, m.live);
  }

  lemma LaunchedGrown(m: Machine, self: nat, component: nat, later: seq<Gain>)
    requires self in m.states
    ensures var d, next := m.states[self], Launched(m, self);
      && self in next.states && next.states[self].listening == d.listening
      && Grown(next, self, component, later) == Grown(m, self, component, [GainRunner] + later)
  {
    hide Richer, NewResources;
    LaunchedFirst(m.states[self], component, later, m.nextId, m.live);
  }

  lemma SubscribedFirst(d: StateData, component: nat, fails: bool, later: seq<Gain>, first: nat, live: set<Resource>)
    ensures var all := [GainSubscription(fails)] + later;
      && Richer(d, component, all, first)
         == Richer(d.(subscriptions := d.subscriptions[first := Subscription(component, fails)]), component, later, first + 1)
      && live + NewResources(all, first) == live + {OfSubscription(first)} + NewResources(later, first + 1)
  {
    hide NewSubscriptions, NewRunners, NewResources;
    OneMore(component, GainSubscription(fails), later, first);
    assert {} + NewRunners(later, first + 1) == NewRunners(later, first + 1);
    assert d.subscriptions + (map[first := Subscription(component, fails)] + NewSubscriptions(component, later, first + 1))
      == d.subscriptions[first := Subscription(component, fails)] + NewSubscriptions(component, later, first + 1);
  }

  lemma LaunchedFirst(d: StateData, component: nat, later: seq<Gain>, first: nat, live: set<Resource>)
    ensures var all := [GainRunner] + later;
      && Richer(d, component, all, first) == Richer(d.(runners := d.runners + {first}), component, later, first + 1)
      && live + NewResources(all, first) == live + {OfRunner(first)} + NewResources(later, first + 1)
  {
    hide NewSubscriptions, NewRunners, NewResources;
    OneMore(component, GainRunner, later, first);
    assert map[] + NewSubscriptions(component, later, first + 1) == NewSubscriptions(component, later, first + 1);
  }

  lemma Nothing(component: nat, first: nat)
    ensures NewSubscriptions(component, [], first) == map[] && NewRunners([], first) == {} && NewResources([], first) == {}
  {
  }

  predicate NoneNamed(d: StateData, kind: nat, tag: nat) {
    forall c :: c in d.components ==> d.components[c].kind != kind || d.components[c].tag != tag
  }

  /** One component more in the table, under its kind and tag; it and all it acquired are owned by the state and live. */
  predicate Joined(m: Machine, m': Machine, self: nat, kind: nat, tag: nat, gains: seq<Gain>, detachFails: bool)
    requires self in m.states
  {
    var d, id := m.states[self], m.nextId;
    var all := Effective(d, gains);
    && self in m'.states
    && m'.states[self] == d.(
         components := d.components[id := Component(kind, tag, detachFails)],
         subscriptions := d.subscriptions + NewSubscriptions(id, all, id + 1),
         runners := d.runners + NewRunners(all, id + 1))
    && m'.live == m.live + {OfComponent(id)} + NewResources(all, id + 1)
    && m' == m.(states := m.states[self := m'.states[self]], live := m'.live, nextId := id + 1 + |all|)
  }

  /** A component that attaches stays, and a second one of its kind and tag is refused. */
  lemma AttachedStays(m: Machine, self: nat, kind: nat, tag: nat, gains: seq<Gain>, detachFails: bool)
    requires self in m.states && m.running && NoneNamed(m.states[self], kind, tag)
    ensures var (m', ok) := Attached(m, self, kind, tag, gains, false, detachFails);
      && ok && Joined(m, m', self, kind, tag, gains, detachFails)
      && forall more, attachFails, fails :: Attached(m', self, kind, tag, more, attachFails, fails) == (m', false)
  {
    hide Gained, NewSubscriptions, NewRunners, NewResources, Effective;
    assert m.states[self].Named(kind, tag) == {};
    var id := m.nextId;
    GainedIs(m.(live := m.live + {OfComponent(id)}, nextId := id + 1), self, id, gains);
    var m' := Attached(m, self, kind, tag, gains, false, detachFails).0;
    assert id in m'.states[self].Named(kind, tag);
  }

  lemma AttachRefused(m: Machine, self: nat, kind: nat, tag: nat, gains: seq<Gain>, attachFails: bool, detachFails: bool)
    requires self in m.states && m.running && !NoneNamed(m.states[self], kind, tag)
    ensures Attached(m, self, kind, tag, gains, attachFails, detachFails) == (m, false)
  {
    var c :| c in m.states[self].components && m.states[self].components[c].kind == kind && m.states[self].components[c].tag == tag;
    assert c in m.states[self].Named(kind, tag);
  }

  /** A component that fails to attach keeps no subscription; what it launched stays its state's. */
  lemma AttachUndone(m: Machine, self: nat, kind: nat, tag: nat, gains: seq<Gain>, detachFails: bool)
    requires self in m.states && m.running && NoneNamed(m.states[self], kind, tag)
    ensures var (m', ok) := Attached(m, self, kind, tag, gains, true, detachFails);
      var d, id := m.states[self], m.nextId;
      var all := Effective(d, gains);
      && !ok && self in m'.states
      && m'.states[self].components == d.components && m'.states[self].runners == d.runners + NewRunners(all, id + 1)
      && (forall u :: u in m'.states[self].subscriptions ==>
            u in d.subscriptions && m'.states[self].subscriptions[u] == d.subscriptions[u] && d.subscriptions[u].subscriber != id)
      && OfComponent(id) !in m'.live && m'.live <= m.live + NewResources(all, id + 1)
      && (forall u :: u in NewSubscriptions(id, all, id + 1) ==> OfSubscription(u) !in m'.live)
  {
    hide Gained, Effective;
    assert m.states[self].Named(kind, tag) == {};
    var id := m.nextId;
    var begun := m.(live := m.live + {OfComponent(id)}, nextId := id + 1);
    GainedIs(begun, self, id, gains);
    var d, all := m.states[self], Effective(m.states[self], gains);
    var d1 := Richer(d, id, all, id + 1);
    assert Gained(begun, self, id, gains).states[self] == d1;
    forall u | u in NewSubscriptions(id, all, id + 1) ensures u in d1.Of(id) {
      assert d1.subscriptions[u] == Subscription(id, all[u - (id + 1)].fails);
    }
  }

  /** Exactly the first component of that kind and tag goes, with all subscriptions it made. */
  lemma DetachedGoes(m: Machine, self: nat, kind: nat, tag: nat, c: nat)
    requires Ready(m) && self in m.states && c in m.states[self].components && c < m.nextId
    requires m.states[self].components[c].kind == kind && m.states[self].components[c].tag == tag
    requires forall x :: x in m.states[self].components && x < c ==>
      m.states[self].components[x].kind != kind || m.states[self].components[x].tag != tag
    ensures var r, d := Perform(m, self, Detach(kind, tag)), m.states[self];
      && self in r.m.states
      && r.m.states[self].components == d.components - {c} && r.m.states[self].runners == d.runners
      && r.m.states[self].subscriptions == (map u | u in d.subscriptions && d.subscriptions[u].subscriber != c :: d.subscriptions[u])
      && r.m.live == m.live - {OfComponent(c)} - (set u | u in d.subscriptions && d.subscriptions[u].subscriber == c :: OfSubscription(u))
      && r.m == m.(states := m.states[self := r.m.states[self]], live := r.m.live)
      && (r.ok <==> !d.components[c].detachFails
                    && forall u :: u in d.subscriptions && d.subscriptions[u].subscriber == c ==> !d.subscriptions[u].fails)
  {
    var d := m.states[self];
    FindsFirst(d, kind, tag, 0, m.nextId, c);
    assert d.(components := d.components - {c}).Of(c) == d.Of(c);
    assert (set u | u in d.Of(c) :: OfSubscription(u)) == (set u | u in d.subscriptions && d.subscriptions[u].subscriber == c :: OfSubscription(u));
    assert d.subscriptions - d.Of(c) == (map u | u in d.subscriptions && d.subscriptions[u].subscriber != c :: d.subscriptions[u]);
  }

  lemma {:induction false} FindsFirst(d: StateData, kind: nat, tag: nat, from: nat, limit: nat, c: nat)
    requires from <= c < limit && c in d.Named(kind, tag) && forall x :: from <= x < c ==> x !in d.Named(kind, tag)
    ensures Find(d, kind, tag, from, limit) == c
    decreases limit - from
  {
    if from < c {
      FindsFirst(d, kind, tag, from + 1, limit, c);
    }
  }

  // ---------- states ----------

  /** These states are off the stack and own nothing any more, all they owned is given back, and nothing else changed. */
  ghost predicate Gone(m: Machine, m': Machine, stack: seq<nat>, gone: set<nat>) {
    && m'.stack == stack && m'.states.Keys == m.states.Keys && m'.nextId == m.nextId && m'.running == m.running
    && (forall s :: s in m.states && s !in gone ==> m'.states[s] == m.states[s])
    && (forall s :: s in m.states && s in gone ==>
          m'.states[s].Owned() == {} && !m'.states[s].listening && m'.states[s].kind == m.states[s].kind)
    && m'.live == m.live - OwnedBy(m, gone)
  }

  /** Neither `onExit` nor a component nor a subscription of these states throws. */
  predicate NoneThrow(m: Machine, gone: set<nat>) {
    forall s :: s in gone && s in m.states ==>
      && !m.states[s].exitFails
      && (forall c :: c in m.states[s].components ==> !m.states[s].components[c].detachFails)
      && (forall u :: u in m.states[s].subscriptions ==> !m.states[s].subscriptions[u].fails)
  }

  lemma CleanedGone(m: Machine, stack: seq<nat>, gone: set<nat>)
    requires Sound(m)
    ensures Gone(m, CleanedAll(m.(stack := stack), gone), stack, gone)
  {
    hide StateData.Owned, GivenBack;
    CleanedOwners(m, stack, gone);
    forall s | s in m.states ensures GivenBack(m.states[s]) == m.states[s].Owned() {
      EmptiedOwnsNothing(m.states[s]);
    }
    assert ReturnedBy(m, gone) == OwnedBy(m, gone);
  }

  lemma ThrowsIff(m: Machine, some: seq<nat>)
    requires Sound(m) && forall s :: s in some ==> s in m.stack
    ensures AllCleanWell(m, some) <==> NoneThrow(m, Elements(some))
  {
    hide StateData.Owned, OwnedBy, Apart, Known;
    forall s | s in some
      ensures m.states[s].Revoked() == m.states[s].subscriptions.Keys
    {
      assert m.states[s].listening;
    }
  }

  lemma CutGone(m: Machine, index: nat)
    requires Sound(m) && index <= |m.stack|
    ensures Gone(m, Cut(m, index), m.stack[..index], Elements(m.stack[index..]))
    ensures AllCleanWell(m, From(m, index)) <==> NoneThrow(m, Elements(m.stack[index..]))
  {
    hide Sound, Gone, NoneThrow, AllCleanWell, CleanedAll;
    CleanedGone(m, m.stack[..index], Elements(m.stack[index..]));
    ThrowsIff(m, m.stack[index..]);
  }

  /** The top goes, and nothing else. */
  lemma PopTakesTop(m: Machine, self: nat)
    requires Sound(m) && self in m.states
    ensures var r := Perform(m, self, Pop);
      if m.stack == [] then r.m == m && r.ok
      else
        var top := m.stack[|m.stack| - 1];
        Gone(m, r.m, m.stack[..|m.stack| - 1], {top}) && (r.ok <==> NoneThrow(m, {top}))
  {
    hide Sound, Gone, NoneThrow, AllCleanWell, Cut;
    SoundReady(m);
    if m.stack == [] {
      CutNothing(m);
    } else {
      CutGone(m, |m.stack| - 1);
      assert Elements(m.stack[|m.stack| - 1..]) == {m.stack[|m.stack| - 1]};
    }
  }

  lemma SoundReady(m: Machine)
    requires Sound(m)
    ensures Ready(m) && forall running :: Sound(m.(running := running))
  {
    forall running ensures Sound(m.(running := running)) {
      SameOwners(m, m.(running := running));
    }
  }

  lemma CutNothing(m: Machine)
    requires m.stack == []
    ensures Cut(m, 0) == m && AllCleanWell(m, From(m, 0))
  {
    assert m.stack[..0] == m.stack && Elements([]) == {};
    assert m.live - ReturnedBy(m, {}) == m.live;
  }

  /** The lowest state of the kind goes from wherever it is, and nothing else. */
  lemma DeleteTakesFirst(m: Machine, self: nat, kind: nat, i: nat)
    requires Sound(m) && self in m.states && i < |m.stack|
    requires m.states[m.stack[i]].kind == kind && forall j :: 0 <= j < i ==> m.states[m.stack[j]].kind != kind
    ensures var r, s := Perform(m, self, Delete(kind)), m.stack[i];
      Gone(m, r.m, m.stack[..i] + m.stack[i + 1..], {s}) && (r.ok <==> NoneThrow(m, {s}))
  {
    hide Sound, Gone, NoneThrow, StateData.CleansWell, CleanedAll, Cleaned;
    SoundReady(m);
    FirstOfKind(m, kind, 0, i);
    var s, rest := m.stack[i], m.stack[..i] + m.stack[i + 1..];
    CleanedGone(m, rest, {s});
    OneCleaned(m.(stack := rest), s);
    ThrowsIff(m, [s]);
    assert Elements([s]) == {s};
  }

  lemma {:induction false} FirstOfKind(m: Machine, kind: nat, from: nat, i: nat)
    requires OnStack(m) && from <= i < |m.stack| && m.states[m.stack[i]].kind == kind
    requires forall j :: from <= j < i ==> m.states[m.stack[j]].kind != kind
    ensures IndexOfKind(m, kind, from) == i
    decreases i - from
  {
    if from < i {
      FirstOfKind(m, kind, from + 1, i);
    }
  }

  lemma {:induction false} NoneOfKind(m: Machine, kind: nat, from: nat)
    requires OnStack(m) && from <= |m.stack| && forall j :: from <= j < |m.stack| ==> m.states[m.stack[j]].kind != kind
    ensures IndexOfKind(m, kind, from) == |m.stack|
    decreases |m.stack| - from
  {
    if from < |m.stack| {
      NoneOfKind(m, kind, from + 1);
    }
  }

  lemma DeleteMisses(m: Machine, self: nat, kind: nat)
    requires Ready(m) && self in m.states && forall j :: 0 <= j < |m.stack| ==> m.states[m.stack[j]].kind != kind
    ensures Perform(m, self, Delete(kind)).m == m && Perform(m, self, Delete(kind)).ok
  {
    NoneOfKind(m, kind, 0);
  }

  /** A running game: the state and all above it go, and then the new one is pushed, unless something threw. */
  lemma ReplaceTakesBranch(m: Machine, self: nat, child: Script, i: nat) returns (cut: Machine)
    requires Sound(m) && self in m.states && m.running && i < |m.stack| && m.stack[i] == self
    ensures Gone(m, cut, m.stack[..i], Elements(m.stack[i..])) && Ready(cut)
    ensures var r := Perform(m, self, Replace(child));
      if NoneThrow(m, Elements(m.stack[i..])) then r.m == PushState(cut, child).m && r.ok == PushState(cut, child).ok
      else r.m == cut && !r.ok
  {
    hide Sound, Gone, NoneThrow, AllCleanWell, Cut, PushState;
    SoundReady(m);
    SoundShape(m);
    assert IndexOf(m.stack, self) == i;
    cut := Cut(m, i);
    CutGone(m, i);
    CutSound(m, i);
    SoundReady(cut);
  }

  lemma ReplaceRefused(m: Machine, self: nat, child: Script)
    requires Ready(m) && self in m.states && m.running && self !in m.stack
    ensures Perform(m, self, Replace(child)).m == m && !Perform(m, self, Replace(child)).ok
  {
  }

  /** A running game: everything goes, and then the new root is pushed, unless something threw. */
  lemma ResetTakesAll(m: Machine, self: nat, child: Script) returns (cut: Machine)
    requires Sound(m) && self in m.states && m.running
    ensures Gone(m, cut, [], Elements(m.stack)) && Ready(cut)
    ensures var r := Perform(m, self, Reset(child));
      if NoneThrow(m, Elements(m.stack)) then r.m == PushState(cut, child).m && r.ok == PushState(cut, child).ok
      else r.m == cut && !r.ok
  {
    hide Sound, Gone, NoneThrow, AllCleanWell, Cut, PushState;
    SoundReady(m);
    assert m.stack[0..] == m.stack;
    cut := Cut(m, 0);
    CutGone(m, 0);
    CutSound(m, 0);
    SoundReady(cut);
  }

  /** A game stops once, with everything given back; it fails if and only if something threw. */
  lemma StopTakesAll(m: Machine, self: nat, onStopFails: bool, playersFail: bool)
    requires Sound(m) && self in m.states
    ensures var r := Perform(m, self, Stop(onStopFails, playersFail));
      if !m.running then r.m == m && r.ok
      else
        && Gone(m.(running := false), r.m, [], Elements(m.stack))
        && (r.ok <==> !onStopFails && !playersFail && NoneThrow(m, Elements(m.stack)))
  {
    hide Sound, Gone, NoneThrow, AllCleanWell, Cut;
    SoundReady(m);
    var stopped := m.(running := false);
    assert m.stack[0..] == m.stack;
    CutGone(stopped, 0);
    ThrowsIff(m, m.stack);
  }

  /** After the end nothing is pushed, attached, replaced or reset. */
  lemma OverIsOver(m: Machine, self: nat, child: Script, kind: nat, tag: nat, gains: seq<Gain>, attachFails: bool, detachFails: bool)
    requires Ready(m) && self in m.states && !m.running
    ensures PushState(m, child).m == m && Perform(m, self, Replace(child)).m == m && Perform(m, self, Reset(child)).m == m
    ensures Perform(m, self, Attach(kind, tag, gains, attachFails, detachFails)).m == m
  {
  }

  /** A state whose `onEnter` does nothing is on top, listens and owns nothing. */
  lemma PushPuts(m: Machine, kind: nat, exitFails: bool)
    requires Ready(m) && m.running
    ensures PushState(m, Script(kind, [], exitFails)).ok
    ensures PushState(m, Script(kind, [], exitFails)).m ==
      m.(stack := m.stack + [m.nextId], nextId := m.nextId + 1,
         states := m.states[m.nextId := StateData(kind, exitFails, true, map[], map[], {})])
  {
  }

  // ---------- callbacks ----------

  /** Actions run in turn, and none after one that throws. */
  lemma {:induction false} ExecJoins(m: Machine, self: nat, a: seq<Action>, b: seq<Action>)
    requires Ready(m) && self in m.states
    ensures var r := Exec(m, self, a);
      if r.ok then Exec(m, self, a + b).m == Exec(r.m, self, b).m && Exec(m, self, a + b).ok == Exec(r.m, self, b).ok
      else Exec(m, self, a + b).m == r.m && !Exec(m, self, a + b).ok
    decreases |a|
  {
    hide Perform;
    if a == [] {
      assert a + b == b;
    } else {
      assert (a + b)[0] == a[0] && (a + b)[1..] == a[1..] + b;
      var first := Perform(m, self, a[0]);
      if first.ok {
        ExecJoins(first.m, self, a[1..], b);
      }
    }
  }

  /** What throws can be caught, and what was done before stays done. */
  lemma AttemptCatches(m: Machine, self: nat, body: seq<Action>)
    requires Ready(m) && self in m.states
    ensures !Perform(m, self, Throw).ok && Perform(m, self, Throw).m == m
    ensures Perform(m, self, Attempt(body)).ok && Perform(m, self, Attempt(body + [Throw])).m == Perform(m, self, Attempt(body)).m
  {
    hide Exec, Perform;
    Tried(m, self, body);
    Tried(m, self, body + [Throw]);
    ExecJoins(m, self, body, [Throw]);
    if Exec(m, self, body).ok {
      OnlyThrow(Exec(m, self, body).m, self);
    }
  }

  lemma Tried(m: Machine, self: nat, body: seq<Action>)
    requires Ready(m) && self in m.states
    ensures !Perform(m, self, Throw).ok && Perform(m, self, Throw).m == m
    ensures Perform(m, self, Attempt(body)).ok && Perform(m, self, Attempt(body)).m == Exec(m, self, body).m
  {
    hide Exec;
  }

  lemma OnlyThrow(m: Machine, self: nat)
    requires Ready(m) && self in m.states
    ensures Exec(m, self, [Throw]).m == m && !Exec(m, self, [Throw]).ok
  {
    hide Perform;
    Tried(m, self, []);
    assert [Throw][0] == Throw;
  }

  /** What a state subscribes and launches itself. */
  lemma OwnThings(m: Machine, self: nat, fails: bool)
    requires Ready(m) && self in m.states && m.states[self].listening
    ensures var d, r := m.states[self], Perform(m, self, Subscribe(fails));
      r.ok && r.m == m.(states := m.states[self := d.(subscriptions := d.subscriptions[m.nextId := Subscription(self, fails)])],
                        live := m.live + {OfSubscription(m.nextId)}, nextId := m.nextId + 1)
    ensures var d, r := m.states[self], Perform(m, self, Launch);
      r.ok && r.m == m.(states := m.states[self := d.(runners := d.runners + {m.nextId})],
                        live := m.live + {OfRunner(m.nextId)}, nextId := m.nextId + 1)
  {
  }
}
