/**
 * The state stack of packages/core/src/gameEngine.ts with what its states own: components
 * (gameState.ts, gameComponent.ts), subscriptions (eventManager.ts) and runners
 * (RunnerManager.ts). Callbacks are scripts of actions, any of which may throw. A state is a
 * record that the engine keeps under the state's identity.
 */
module StateStack {
  import opened Wrappers

  // ---------- scripts ----------

  /** What a component acquires while it attaches. */
  datatype Gain = GainSubscription(fails: bool) | GainRunner

  /**
   * What the `onEnter` of a state may do. A subscription may throw when it is taken back, and
   * stopping the game may fail in its own `onStop` or in the player manager.
   */
  datatype Action =
    | Subscribe(fails: bool)
    | Launch
    | Attach(kind: nat, tag: nat, gains: seq<Gain>, attachFails: bool, detachFails: bool)
    | Detach(kind: nat, tag: nat)
    | Push(child: Script)
    | Pop
    | Delete(kind: nat)
    | Replace(child: Script)
    | Reset(child: Script)
    | Stop(onStopFails: bool, playersFail: bool)
    | Attempt(body: seq<Action>)
    | Throw

  /** A state type: its `onEnter`, and whether its `onExit` throws. */
  datatype Script = Script(kind: nat, enter: seq<Action>, exitFails: bool)

  function Size(body: seq<Action>): nat {
    if body == [] then 0 else ActionSize(body[0]) + Size(body[1..])
  }

  function ActionSize(a: Action): nat {
    match a
    case Push(child) => 2 + Size(child.enter)
    case Replace(child) => 2 + Size(child.enter)
    case Reset(child) => 2 + Size(child.enter)
    case Attempt(body) => 1 + Size(body)
    case _ => 1
  }

  // ---------- the machine ----------

  datatype Resource = OfComponent(id: nat) | OfSubscription(id: nat) | OfRunner(id: nat)

  datatype Component = Component(kind: nat, tag: nat, detachFails: bool)

  /** `subscriber` is the state or the component that subscribed. */
  datatype Subscription = Subscription(subscriber: nat, fails: bool)

  /** A state. It listens until its event manager is disposed. */
  datatype StateData = StateData(
    kind: nat, exitFails: bool, listening: bool,
    components: map<nat, Component>, subscriptions: map<nat, Subscription>, runners: set<nat>)
  {
    function Owned(): set<Resource> {
      (set c | c in components :: OfComponent(c)) + (set u | u in subscriptions :: OfSubscription(u)) + (set r | r in runners :: OfRunner(r))
    }

    function Of(subscriber: nat): set<nat> { set u | u in subscriptions && subscriptions[u].subscriber == subscriber }

    function Named(kind: nat, tag: nat): set<nat> {
      set c | c in components && components[c].kind == kind && components[c].tag == tag
    }

    /** The subscriptions that a cleanup takes back: an event manager is disposed once. */
    function Revoked(): set<nat> { set u | u in subscriptions && (listening || subscriptions[u].subscriber in components) }

    /** Nothing in the cleanup of the state throws. */
    predicate CleansWell(callOnExit: bool) {
      && !(callOnExit && exitFails)
      && (forall c :: c in components ==> !components[c].detachFails)
      && (forall u :: u in Revoked() ==> u in subscriptions && !subscriptions[u].fails)
    }

    function Emptied(): StateData {
      this.(listening := false, components := map[], subscriptions := subscriptions - Revoked(), runners := {})
    }
  }

  /** `live` is what the world holds on behalf of the game. */
  datatype Machine = Machine(running: bool, stack: seq<nat>, states: map<nat, StateData>, live: set<Resource>, nextId: nat)

  /** The machine after a callback, whether it returned, and whether it kept to the rules of `Tame`. */
  datatype Outcome = Outcome(m: Machine, ok: bool, tame: bool)

  // ---------- resources ----------

  function Update(m: Machine, self: nat, d: StateData): Machine { m.(states := m.states[self := d]) }

  /** Ignored once the event manager is disposed. */
  function Subscribed(m: Machine, self: nat, subscriber: nat, fails: bool): Machine
    requires self in m.states
  {
    var d := m.states[self];
    if !d.listening then m
    else
      Update(m, self, d.(subscriptions := d.subscriptions[m.nextId := Subscription(subscriber, fails)]))
        .(live := m.live + {OfSubscription(m.nextId)}, nextId := m.nextId + 1)
  }

  function Launched(m: Machine, self: nat): Machine
    requires self in m.states
  {
    var d := m.states[self];
    Update(m, self, d.(runners := d.runners + {m.nextId})).(live := m.live + {OfRunner(m.nextId)}, nextId := m.nextId + 1)
  }

  function Gained(m: Machine, self: nat, component: nat, gains: seq<Gain>): (r: Machine)
    requires self in m.states
    ensures r.stack == m.stack && r.states.Keys == m.states.Keys && r.nextId >= m.nextId && r.running == m.running
    decreases gains
  {
    if gains == [] then m
    else
      var next := match gains[0] case GainSubscription(fails) => Subscribed(m, self, component, fails) case GainRunner => Launched(m, self);
      Gained(next, self, component, gains[1..])
  }

  /** `_onDetach`: every subscription of the component goes, and the component itself. */
  function Withdrawn(m: Machine, self: nat, component: nat): Machine
    requires self in m.states
  {
    var d := m.states[self];
    var subscriptions := d.Of(component);
    Update(m, self, d.(subscriptions := d.subscriptions - subscriptions))
      .(live := m.live - {OfComponent(component)} - (set u | u in subscriptions :: OfSubscription(u)))
  }

  /** The component leaves the table first. */
  function Detached(m: Machine, self: nat, component: nat): Machine
    requires self in m.states
  {
    var d := m.states[self];
    Withdrawn(Update(m, self, d.(components := d.components - {component})), self, component)
  }

  predicate DetachesWell(d: StateData, component: nat) {
    && (component in d.components ==> !d.components[component].detachFails)
    && (forall u :: u in d.Of(component) ==> u in d.subscriptions && !d.subscriptions[u].fails)
  }

  /** The component of that type and tag, or `limit` if there is none. */
  function Find(d: StateData, kind: nat, tag: nat, from: nat, limit: nat): (c: nat)
    requires from <= limit
    ensures from <= c <= limit && (c < limit ==> c in d.Named(kind, tag))
    ensures forall x :: from <= x < c ==> x !in d.Named(kind, tag)
    decreases limit - from
  {
    if from == limit || from in d.Named(kind, tag) then from else Find(d, kind, tag, from + 1, limit)
  }

  /** A component that fails to attach is detached again. */
  function Attached(m: Machine, self: nat, kind: nat, tag: nat, gains: seq<Gain>, attachFails: bool, detachFails: bool): (r: (Machine, bool))
    requires self in m.states
    ensures r.0.stack == m.stack && r.0.states.Keys == m.states.Keys && r.0.nextId >= m.nextId
  {
    if !m.running then (m, true)
    else if m.states[self].Named(kind, tag) != {} then (m, false)
    else
      var component := m.nextId;
      var gained := Gained(m.(live := m.live + {OfComponent(component)}, nextId := m.nextId + 1), self, component, gains);
      if attachFails then (Withdrawn(gained, self, component), false)
      else
        var d := gained.states[self];
        (Update(gained, self, d.(components := d.components[component := Component(kind, tag, detachFails)])), true)
  }

  /** Off the stack nothing may stay attached and no runner may be launched. */
  predicate KeepsAttached(m: Machine, self: nat, kind: nat, tag: nat, gains: seq<Gain>, attachFails: bool)
    requires self in m.states
  {
    self in m.stack || !m.running || m.states[self].Named(kind, tag) != {} || (attachFails && GainRunner !in gains)
  }

  // ---------- states ----------

  function GivenBack(d: StateData): set<Resource> { d.Owned() - d.Emptied().Owned() }

  /** What the state owns is given back, whatever throws on the way. */
  function Cleaned(m: Machine, s: nat): Machine
    requires s in m.states
  {
    Update(m, s, m.states[s].Emptied()).(live := m.live - GivenBack(m.states[s]))
  }

  function OwnedBy(m: Machine, some: set<nat>): set<Resource> {
    set s, x | s in some && s in m.states && x in m.states[s].Owned() :: x
  }

  function ReturnedBy(m: Machine, some: set<nat>): set<Resource> {
    set s, x | s in some && s in m.states && x in GivenBack(m.states[s]) :: x
  }

  function CleanedAll(m: Machine, gone: set<nat>): Machine {
    m.(states := map s | s in m.states :: if s in gone then m.states[s].Emptied() else m.states[s], live := m.live - ReturnedBy(m, gone))
  }

  function Elements(s: seq<nat>): set<nat> { set x | x in s }

  predicate AllCleanWell(m: Machine, gone: seq<nat>) {
    forall s :: s in gone && s in m.states ==> m.states[s].CleansWell(true)
  }

  predicate OnStack(m: Machine) { forall s :: s in m.stack ==> s in m.states }

  function From(m: Machine, index: nat): seq<nat> { if index <= |m.stack| then m.stack[index..] else [] }

  function Kept(m: Machine, index: nat): seq<nat> { if index <= |m.stack| then m.stack[..index] else m.stack }

  /** The states from `index` on are removed. */
  function Cut(m: Machine, index: nat): Machine { CleanedAll(m.(stack := Kept(m, index)), Elements(From(m, index))) }

  function IndexOf(stack: seq<nat>, s: nat): (i: nat)
    ensures i <= |stack| && (i < |stack| ==> stack[i] == s) && (s in stack ==> i < |stack|)
  {
    if stack == [] then 0 else if stack[0] == s then 0 else 1 + IndexOf(stack[1..], s)
  }

  function IndexOfKind(m: Machine, kind: nat, from: nat): (i: nat)
    requires OnStack(m) && from <= |m.stack|
    ensures from <= i <= |m.stack| && (i < |m.stack| ==> m.states[m.stack[i]].kind == kind)
    decreases |m.stack| - from
  {
    if from == |m.stack| || m.states[m.stack[from]].kind == kind then from else IndexOfKind(m, kind, from + 1)
  }

  function Deleted(m: Machine, index: nat): Machine
    requires OnStack(m) && index < |m.stack|
  {
    Cleaned(m.(stack := m.stack[..index] + m.stack[index + 1..]), m.stack[index])
  }

  /** What `pushState` does when `onEnter` throws: the first state it takes off is thought to be the entering one. */
  function RolledBack(m: Machine, startIndex: nat, entering: nat): Machine {
    CleanedAll(m.(stack := Kept(m, startIndex)), Elements(From(m, startIndex + 1)) + {entering})
  }

  /** The entering state is where it was pushed, or it is gone and so is everything above its place. */
  predicate Anchored(stack: seq<nat>, startIndex: nat, entering: nat) {
    if startIndex < |stack| then stack[startIndex] == entering else entering !in stack
  }

  // ---------- running scripts ----------

  predicate Ready(m: Machine) { OnStack(m) && forall s :: s in m.states ==> s < m.nextId }

  function PushState(m: Machine, script: Script): (r: Outcome)
    requires Ready(m)
    ensures Ready(r.m) && m.states.Keys <= r.m.states.Keys
    decreases Size(script.enter), 2
  {
    if !m.running then Outcome(m, true, true)
    else
      var startIndex, id := |m.stack|, m.nextId;
      var pushed := Update(m, id, StateData(script.kind, script.exitFails, true, map[], map[], {})).(stack := m.stack + [id], nextId := id + 1);
      var r := Exec(pushed, id, script.enter);
      if r.ok then r
      else Outcome(RolledBack(r.m, startIndex, id), false, r.tame && Anchored(r.m.stack, startIndex, id))
  }

  function Exec(m: Machine, self: nat, body: seq<Action>): (r: Outcome)
    requires Ready(m) && self in m.states
    ensures Ready(r.m) && m.states.Keys <= r.m.states.Keys
    decreases Size(body), 1
  {
    if body == [] then Outcome(m, true, true)
    else
      var first := Perform(m, self, body[0]);
      if !first.ok then first
      else
        var rest := Exec(first.m, self, body[1..]);
        Outcome(rest.m, rest.ok, first.tame && rest.tame)
  }

  function Perform(m: Machine, self: nat, a: Action): (r: Outcome)
    requires Ready(m) && self in m.states
    ensures Ready(r.m) && m.states.Keys <= r.m.states.Keys
    decreases ActionSize(a), 0
  {
    match a
    case Subscribe(fails) => Outcome(Subscribed(m, self, self, fails), true, true)
    case Launch => Outcome(Launched(m, self), true, self in m.stack)
    case Attach(kind, tag, gains, attachFails, detachFails) =>
      var (m', ok) := Attached(m, self, kind, tag, gains, attachFails, detachFails);
      Outcome(m', ok, KeepsAttached(m, self, kind, tag, gains, attachFails))
    case Detach(kind, tag) =>
      var c := Find(m.states[self], kind, tag, 0, m.nextId);
      if c == m.nextId then Outcome(m, true, true)
      else Outcome(Detached(m, self, c), DetachesWell(m.states[self], c), true)
    case Push(child) => PushState(m, child)
    case Pop =>
      var index := if m.stack == [] then 0 else |m.stack| - 1;
      Outcome(Cut(m, index), AllCleanWell(m, From(m, index)), true)
    case Delete(kind) =>
      var index := IndexOfKind(m, kind, 0);
      if index == |m.stack| then Outcome(m, true, true)
      else Outcome(Deleted(m, index), m.states[m.stack[index]].CleansWell(true), true)
    case Replace(child) =>
      var index := IndexOf(m.stack, self);
      if !m.running then Outcome(m, true, true)
      else if index == |m.stack| then Outcome(m, false, true)
      else if !AllCleanWell(m, From(m, index)) then Outcome(Cut(m, index), false, true)
      else PushState(Cut(m, index), child)
    case Reset(child) =>
      if !m.running then Outcome(m, true, true)
      else if !AllCleanWell(m, m.stack) then Outcome(Cut(m, 0), false, true)
      else PushState(Cut(m, 0), child)
    case Stop(onStopFails, playersFail) =>
      if !m.running then Outcome(m, true, true)
      else Outcome(Cut(m.(running := false), 0), !onStopFails && AllCleanWell(m, m.stack) && !playersFail, true)
    case Attempt(body) =>
      var r := Exec(m, self, body);
      Outcome(r.m, true, r.tame)
    case Throw => Outcome(m, false, true)
  }
}
