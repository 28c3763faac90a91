/**
 * The imperative side of the state stack: `GameEngine`, and the parts of `GameState`,
 * `GameComponent`, `EventManager` and `RunnerManager` that acquire and give back, as methods
 * that work step by step. Each is proved to do what StateStack.dfy says.
 */
module GameEngines {
  import opened Wrappers
  import opened StateStack
  import opened StackSafety
  import opened StackRuns
  import opened StackEffects

  class GameEngine {
    var running: bool
    var stateStack: seq<nat>
    var states: map<nat, StateData>
    var live: set<Resource>
    var nextId: nat

    function State(): Machine
      reads this
    {
      Machine(running, stateStack, states, live, nextId)
    }

    constructor ()
      ensures State() == NEW_GAME
    {
      running, stateStack, states, live, nextId := true, [], map[], {}, 0;
    }

    // ---------- subscriptions and runners ----------

    method Subscribe(self: nat, subscriber: nat, fails: bool)
      requires self in states
      modifies `states, `live, `nextId
      ensures State() == Subscribed(old(State()), self, subscriber, fails)
    {
      var d := states[self];
      if !d.listening { return; }
      live := live + {OfSubscription(nextId)};
      states := states[self := d.(subscriptions := d.subscriptions[nextId := Subscription(subscriber, fails)])];
      nextId := nextId + 1;
    }

    method LaunchRunner(self: nat)
      requires self in states
      modifies `states, `live, `nextId
      ensures State() == Launched(old(State()), self)
    {
      var d := states[self];
      live := live + {OfRunner(nextId)};
      states := states[self := d.(runners := d.runners + {nextId})];
      nextId := nextId + 1;
    }

    /** Takes back a list of subscriptions that are no longer in the table; a failure does not stop it. */
    method Unsubscribe(list: map<nat, Subscription>) returns (ok: bool)
      modifies `live
      ensures live == old(live) - Subscriptions(list.Keys)
      ensures ok <==> forall u :: u in list ==> !list[u].fails
    {
      ok := true;
      var left := list.Keys;
      while left != {}
        invariant left <= list.Keys
        invariant live == old(live) - Subscriptions(list.Keys - left)
        invariant ok <==> forall u :: u in list && u !in left ==> !list[u].fails
        decreases |left|
      {
        var u :| u in left;
        live := live - {OfSubscription(u)};
        if list[u].fails {
          ok := false;
        }
        left := left - {u};
      }
    }

    method UnsubscribeBySubscriber(self: nat, subscriber: nat) returns (ok: bool)
      requires self in states
      modifies `states, `live
      ensures var d, gone := old(states)[self], old(states)[self].Of(subscriber);
        && states == old(states)[self := d.(subscriptions := d.subscriptions - gone)]
        && live == old(live) - Subscriptions(gone)
        && (ok <==> forall u :: u in gone ==> u in d.subscriptions && !d.subscriptions[u].fails)
    {
      var d := states[self];
      var gone := d.Of(subscriber);
      var list := map u | u in d.subscriptions && u in gone :: d.subscriptions[u];
      states := states[self := d.(subscriptions := d.subscriptions - gone)];
      assert list.Keys == gone;
      ok := Unsubscribe(list);
    }

    /** `dispose` of an event manager: once. */
    method DisposeEvents(self: nat) returns (ok: bool)
      requires self in states
      modifies `states, `live
      ensures var d := old(states)[self];
        if d.listening then
          && states == old(states)[self := d.(listening := false, subscriptions := map[])]
          && live == old(live) - Subscriptions(d.subscriptions.Keys)
          && (ok <==> forall u :: u in d.subscriptions ==> !d.subscriptions[u].fails)
        else states == old(states) && live == old(live) && ok
    {
      var d := states[self];
      if !d.listening { return true; }
      states := states[self := d.(listening := false, subscriptions := map[])];
      ok := Unsubscribe(d.subscriptions);
    }

    method DisposeRunners(self: nat)
      requires self in states
      modifies `states, `live
      ensures states == old(states)[self := old(states)[self].(runners := {})]
      ensures live == old(live) - Runners(old(states)[self].runners)
    {
      var d := states[self];
      var left := d.runners;
      while left != {}
        invariant left <= d.runners && live == old(live) - Runners(d.runners - left) && states == old(states)
        decreases |left|
      {
        var r :| r in left;
        live := live - {OfRunner(r)};
        left := left - {r};
      }
      states := states[self := d.(runners := {})];
    }

    // ---------- components ----------

    /** `_onDetach`: the subscriptions go first, and both halves run whatever throws. */
    method OnDetach(self: nat, component: nat, detachFails: bool) returns (ok: bool)
      requires self in states
      modifies `states, `live
      ensures var d, gone := old(states)[self], old(states)[self].Of(component);
        && states == old(states)[self := d.(subscriptions := d.subscriptions - gone)]
        && live == old(live) - Subscriptions(gone) - {OfComponent(component)}
        && (ok <==> !detachFails && forall u :: u in gone ==> u in d.subscriptions && !d.subscriptions[u].fails)
    {
      ok := UnsubscribeBySubscriber(self, component);
      if detachFails {
        ok := false;
      }
      live := live - {OfComponent(component)};
    }

    /** Only a component that attached completely enters the table. */
    method AddComponent(self: nat, kind: nat, tag: nat, gains: seq<Gain>, attachFails: bool, detachFails: bool) returns (ok: bool)
      requires self in states
      modifies `states, `live, `nextId
      ensures (State(), ok) == Attached(old(State()), self, kind, tag, gains, attachFails, detachFails)
      ensures old(running) && NoneNamed(old(states)[self], kind, tag) && !attachFails ==>
        ok && Joined(old(State()), State(), self, kind, tag, gains, detachFails)
      ensures old(running) && !NoneNamed(old(states)[self], kind, tag) ==> !ok && State() == old(State())
    {
      hide StateData.Of, StateData.Owned, Joined, NoneNamed;
      if running {
        if !NoneNamed(states[self], kind, tag) {
          AttachRefused(State(), self, kind, tag, gains, attachFails, detachFails);
        } else if !attachFails {
          AttachedStays(State(), self, kind, tag, gains, detachFails);
        }
      }
      if !running { return true; }
      if states[self].Named(kind, tag) != {} { return false; }
      var component := nextId;
      nextId := nextId + 1;
      live := live + {OfComponent(component)};
      ghost var attaching := State();
      assert gains[0..] == gains;
      for i := 0 to |gains|
        invariant running && self in states
        invariant Gained(State(), self, component, gains[i..]) == Gained(attaching, self, component, gains)
      {
        assert gains[i..][0] == gains[i] && gains[i..][1..] == gains[i + 1..];
        match gains[i] {
          case GainSubscription(fails) => Subscribe(self, component, fails);
          case GainRunner => LaunchRunner(self);
        }
      }
      assert State() == Gained(attaching, self, component, gains);
      if attachFails {
        ghost var gained := State();
        var _ := OnDetach(self, component, detachFails);
        WithdrawnIs(gained, self, component, State());
        return false;
      }
      states := states[self := states[self].(components := states[self].components[component := Component(kind, tag, detachFails)])];
      return true;
    }

    method DeleteComponent(self: nat, kind: nat, tag: nat) returns (ok: bool)
      requires self in states
      modifies `states, `live
      ensures var c := Find(old(states)[self], kind, tag, 0, nextId);
        if c == nextId then State() == old(State()) && ok
        else State() == Detached(old(State()), self, c) && ok == DetachesWell(old(states)[self], c)
    {
      hide StateData.Of, StateData.Named;
      var c := Find(states[self], kind, tag, 0, nextId);
      if c == nextId { return true; }
      FoundListed(states[self], kind, tag, c);
      var d := states[self];
      states := states[self := d.(components := d.components - {c})];
      ghost var listed := State();
      SameOf(d, c);
      ok := OnDetach(self, c, d.components[c].detachFails);
      WithdrawnIs(listed, self, c, State());
    }

    /** One failing component does not keep the others. */
    method DeleteAllComponents(self: nat) returns (ok: bool)
      requires self in states
      modifies `states, `live
      ensures var d := old(states)[self];
        && states == old(states)[self := d.(components := map[], subscriptions := d.subscriptions - OfAny(d, d.components.Keys))]
        && live == old(live) - Subscriptions(OfAny(d, d.components.Keys)) - Components(d.components.Keys)
        && (ok <==> AllDetachWell(d, d.components.Keys))
    {
      hide Subscriptions, Components, OfAny, AllDetachWell, StateData.Of;
      var d := states[self];
      var entries := d.components;
      states := states[self := d.(components := map[])];
      ok := true;
      ghost var done := {};
      NothingGivenBack(d, live);
      var left := entries.Keys;
      while left != {}
        invariant left <= entries.Keys && done == entries.Keys - left
        invariant states == old(states)[self := d.(components := map[], subscriptions := d.subscriptions - OfAny(d, done))]
        invariant live == old(live) - Subscriptions(OfAny(d, done)) - Components(done)
        invariant ok <==> AllDetachWell(d, done)
        decreases |left|
      {
        var c :| c in left;
        NextDetached(d, done, c, old(live));
        var one := OnDetach(self, c, entries[c].detachFails);
        ok := ok && one;
        done := done + {c};
        left := left - {c};
      }
      assert done == entries.Keys;
    }

    // ---------- states ----------

    /** Components, subscriptions and runners are given back, whatever throws on the way. */
    method Cleanup(self: nat, callOnExit: bool) returns (ok: bool)
      requires self in states
      modifies `states, `live
      ensures State() == Cleaned(old(State()), self) && ok == old(states)[self].CleansWell(callOnExit)
    {
      hide StateData.Owned, OfAny, AllDetachWell, Subscriptions, Components, Runners, StateData.CleansWell, StateData.Emptied, GivenBack;
      ghost var m, d := State(), states[self];
      ok := !(callOnExit && states[self].exitFails);
      var components := DeleteAllComponents(self);
      var events := DisposeEvents(self);
      DisposeRunners(self);
      ok := ok && components && events;
      CleanupAdds(d, callOnExit);
      AllGivenBack(d, m.live);
      assert states == m.states[self := d.Emptied()];
    }

    method RemoveState(s: nat) returns (ok: bool)
      requires s in states
      modifies `states, `live
      ensures State() == Cleaned(old(State()), s) && ok == old(states)[s].CleansWell(true)
    {
      ok := Cleanup(s, true);
    }

    /** Pops and removes states until `index` are left; errors are collected. */
    method RemoveFrom(index: nat) returns (ok: bool)
      requires Shaped(State())
      modifies `stateStack, `states, `live
      ensures State() == Cut(old(State()), index) && ok == AllCleanWell(old(State()), From(old(State()), index))
    {
      hide Cleaned, CleanedAll, StateData.CleansWell;
      ok := true;
      ghost var m := State();
      NothingCleaned(m);
      while |stateStack| > index
        invariant |stateStack| <= |m.stack| && stateStack == m.stack[..|stateStack|]
        invariant |stateStack| < |m.stack| ==> index <= |stateStack|
        invariant State() == CleanedAll(m.(stack := stateStack), Elements(m.stack[|stateStack|..]))
        invariant ok <==> AllCleanWell(m, m.stack[|stateStack|..])
        decreases |stateStack|
      {
        var k := |stateStack|;
        var removed := stateStack[k - 1];
        OneMoreOff(m, k);
        stateStack := stateStack[..k - 1];
        var one := RemoveState(removed);
        ok := ok && one;
        assert stateStack == m.stack[..k - 1];
      }
      LeftOver(m, index, |stateStack|);
    }

    method PopState() returns (ok: bool)
      requires Shaped(State())
      modifies `stateStack, `states, `live
      ensures var index := if old(stateStack) == [] then 0 else |old(stateStack)| - 1;
        State() == Cut(old(State()), index) && ok == AllCleanWell(old(State()), From(old(State()), index))
    {
      ok := RemoveFrom(if stateStack == [] then 0 else |stateStack| - 1);
    }

    method DeleteState(kind: nat) returns (ok: bool)
      requires Shaped(State())
      modifies `stateStack, `states, `live
      ensures var index := IndexOfKind(old(State()), kind, 0);
        if index == |old(stateStack)| then State() == old(State()) && ok
        else State() == Deleted(old(State()), index) && ok == old(states)[old(stateStack)[index]].CleansWell(true)
    {
      hide Cleaned, StateData.CleansWell;
      var index := IndexOfKind(State(), kind, 0);
      if index == |stateStack| { return true; }
      var removed := stateStack[index];
      stateStack := stateStack[..index] + stateStack[index + 1..];
      ok := RemoveState(removed);
    }

    /**
     * `stopGameByKey`: whatever `onStop` and the player manager throw, the whole stack goes,
     * and the caller is told of every failure.
     */
    method StopGame(onStopFails: bool, playersFail: bool) returns (ok: bool)
      requires Shaped(State())
      modifies `running, `stateStack, `states, `live
      ensures State() == if old(running) then Cut(old(State()).(running := false), 0) else old(State())
      ensures ok <==> old(running) ==> !onStopFails && AllCleanWell(old(State()), old(stateStack)) && !playersFail
    {
      hide CleanedAll, StateData.CleansWell;
      if !running { return true; }
      running := false;
      assert From(State(), 0) == stateStack;
      var errors := if onStopFails then 1 else 0;
      var cleared := RemoveFrom(0);
      if !cleared { errors := errors + 1; }
      if playersFail { errors := errors + 1; }
      ok := errors == 0;
    }

    /**
     * Pushes a state and runs its `onEnter`. If that throws, the states above the place of the
     * new one are removed from the top down, and the new one is cleaned up without `onExit`.
     */
    method PushState(script: Script) returns (ok: bool)
      requires Shaped(State())
      modifies this
      ensures State() == StateStack.PushState(old(State()), script).m && ok == StateStack.PushState(old(State()), script).ok
      ensures Shaped(State())
      decreases Size(script.enter), 2
    {
      hide Exec, CleanedAll, Cleaned, Since, Size;
      PushSince(State(), script);
      SinceShaped(State(), StateStack.PushState(State(), script).m, None);
      if !running { return true; }
      var startIndex, id := |stateStack|, nextId;
      PushedShape(State(), StateData(script.kind, script.exitFails, true, map[], map[], {}));
      nextId := nextId + 1;
      states := states[id := StateData(script.kind, script.exitFails, true, map[], map[], {})];
      stateStack := stateStack + [id];
      ok := RunCallback(id, script.enter);
      if !ok {
        Rollback(startIndex, id);
      }
    }

    method Rollback(startIndex: nat, entering: nat)
      requires Shaped(State()) && entering in states
      modifies `stateStack, `states, `live
      ensures State() == RolledBack(old(State()), startIndex, entering)
    {
      hide Cleaned, CleanedAll, StateData.CleansWell;
      var m := State();
      var rollbackStates := From(m, startIndex);
      stateStack := Kept(m, startIndex);
      ghost var kept := State();
      var errors := 0;
      var i := |rollbackStates| - 1;
      RollbackStart(m, startIndex);
      while i >= 1
        invariant -1 <= i < |rollbackStates| && (i < 0 ==> rollbackStates == [])
        invariant State() == CleanedAll(kept, Elements(if i < 0 then [] else rollbackStates[i + 1..]))
      {
        RollbackNext(m, kept, startIndex, i);
        var one := RemoveState(rollbackStates[i]);
        if !one {
          errors := errors + 1;
        }
        i := i - 1;
      }
      RollbackLast(m, kept, startIndex, entering);
      var cleaned := Cleanup(entering, false);
    }

    /** An event handler or `onEnter`: the actions in turn, until one throws. */
    method RunCallback(self: nat, body: seq<Action>) returns (ok: bool)
      requires Shaped(State()) && self in states
      modifies this
      ensures State() == Exec(old(State()), self, body).m && ok == Exec(old(State()), self, body).ok
      ensures Shaped(State())
      decreases Size(body), 1
    {
      hide StateStack.Perform, Since;
      ExecSince(State(), self, body);
      SinceShaped(State(), Exec(State(), self, body).m, Some(self));
      if body == [] { return true; }
      ok := Act(self, body[0]);
      if ok {
        ok := RunCallback(self, body[1..]);
      }
    }

    method Act(self: nat, a: Action) returns (ok: bool)
      requires Shaped(State()) && self in states
      modifies this
      ensures State() == StateStack.Perform(old(State()), self, a).m && ok == StateStack.Perform(old(State()), self, a).ok
      ensures Shaped(State())
      decreases ActionSize(a), 0
    {
      hide Exec, StateStack.PushState, Attached, Detached, Cut, Deleted, AllCleanWell, StateData.Named, Find, Since, Size,
           Subscribed, Launched, DetachesWell, Ready, Ascending;
      PerformSince(State(), self, a);
      SinceShaped(State(), StateStack.Perform(State(), self, a).m, Some(self));
      ok := true;
      match a {
        case Subscribe(fails) => Subscribe(self, self, fails);
        case Launch => LaunchRunner(self);
        case Attach(kind, tag, gains, attachFails, detachFails) => ok := AddComponent(self, kind, tag, gains, attachFails, detachFails);
        case Detach(kind, tag) => ok := DeleteComponent(self, kind, tag);
        case Push(child) => ok := PushState(child);
        case Pop => ok := PopState();
        case Delete(kind) => ok := DeleteState(kind);
        case Replace(child) => ok := ReplaceFrom(self, child);
        case Reset(child) => ok := ResetState(child);
        case Stop(onStopFails, playersFail) => ok := StopGame(onStopFails, playersFail);
        case Attempt(body) => var caught := RunCallback(self, body);
        case Throw => ok := false;
      }
    }

    /** Fails when the state is not on the stack, or when removing the branch fails. */
    method ReplaceFrom(self: nat, child: Script) returns (ok: bool)
      requires Shaped(State()) && self in states
      modifies this
      ensures State() == StateStack.Perform(old(State()), self, Replace(child)).m
      ensures ok == StateStack.Perform(old(State()), self, Replace(child)).ok
      decreases Size(child.enter), 3
    {
      hide Exec, StateStack.PushState, Cut, AllCleanWell, Since;
      if !running { return true; }
      var index := IndexOf(stateStack, self);
      if index == |stateStack| { return false; }
      CutSince(State(), index, true);
      SinceShaped(State(), Cut(State(), index), None);
      assert State().(running := true) == State();
      ok := RemoveFrom(index);
      if ok {
        ok := PushState(child);
      }
    }

    /** Nothing is pushed when clearing the stack fails. */
    method ResetState(child: Script) returns (ok: bool)
      requires Shaped(State())
      modifies this
      ensures Ready(Cut(old(State()), 0))
      ensures if !old(running) then State() == old(State()) && ok
        else if !AllCleanWell(old(State()), old(stateStack)) then State() == Cut(old(State()), 0) && !ok
        else
          var pushed := StateStack.PushState(Cut(old(State()), 0), child);
          State() == pushed.m && ok == pushed.ok
      decreases Size(child.enter), 3
    {
      hide Exec, StateStack.PushState, Cut, AllCleanWell, Since;
      CutSince(State(), 0, running);
      SinceShaped(State(), Cut(State(), 0), None);
      assert State().(running := running) == State();
      if !running { return true; }
      assert From(State(), 0) == stateStack;
      ok := RemoveFrom(0);
      if ok {
        ok := PushState(child);
      }
    }
  }

  lemma SinceShaped(m: Machine, m': Machine, self: Option<nat>)
    requires Since(m, m', self)
    ensures Shaped(m')
  {
  }

  lemma RollbackStart(m: Machine, startIndex: nat)
    ensures var kept := m.(stack := Kept(m, startIndex));
      && CleanedAll(kept, Elements([])) == kept
      && (From(m, startIndex) != [] ==> From(m, startIndex)[|From(m, startIndex)|..] == [])
  {
  }

  lemma RollbackNext(m: Machine, kept: Machine, startIndex: nat, i: nat)
    requires Shaped(m) && kept == m.(stack := Kept(m, startIndex)) && 1 <= i < |From(m, startIndex)|
    ensures var s := From(m, startIndex)[i];
      && s in CleanedAll(kept, Elements(From(m, startIndex)[i + 1..])).states
      && Cleaned(CleanedAll(kept, Elements(From(m, startIndex)[i + 1..])), s) == CleanedAll(kept, Elements(From(m, startIndex)[i..]))
  {
    hide Cleaned;
    var s := From(m, startIndex)[i];
    CleanOneMore(kept, Elements(From(m, startIndex)[i + 1..]), s);
    assert Elements(From(m, startIndex)[i + 1..]) + {s} == Elements(From(m, startIndex)[i..]);
  }

  lemma RollbackLast(m: Machine, kept: Machine, startIndex: nat, entering: nat)
    requires kept == m.(stack := Kept(m, startIndex)) && entering in m.states
    ensures var rest := if From(m, startIndex) == [] then [] else From(m, startIndex)[1..];
      && entering in CleanedAll(kept, Elements(rest)).states
      && Cleaned(CleanedAll(kept, Elements(rest)), entering) == RolledBack(m, startIndex, entering)
  {
    hide Cleaned;
    var rest := if From(m, startIndex) == [] then [] else From(m, startIndex)[1..];
    CleanOneMore(kept, Elements(rest), entering);
    assert rest == From(m, startIndex + 1);
  }

  function Components(some: set<nat>): set<Resource> { set c | c in some :: OfComponent(c) }

  function OfAny(d: StateData, components: set<nat>): set<nat> {
    set u | u in d.subscriptions && d.subscriptions[u].subscriber in components
  }

  predicate AllDetachWell(d: StateData, components: set<nat>) {
    && (forall c :: c in components && c in d.components ==> !d.components[c].detachFails)
    && (forall u :: u in OfAny(d, components) ==> u in d.subscriptions && !d.subscriptions[u].fails)
  }

  lemma FoundListed(d: StateData, kind: nat, tag: nat, c: nat)
    requires c in d.Named(kind, tag)
    ensures c in d.components
  {
  }

  lemma SameOf(d: StateData, c: nat)
    ensures d.(components := d.components - {c}).Of(c) == d.Of(c)
  {
  }

  lemma NothingGivenBack(d: StateData, live: set<Resource>)
    ensures OfAny(d, {}) == {} && Subscriptions({}) == {} && Components({}) == {} && AllDetachWell(d, {})
    ensures live - {} - {} == live && d.subscriptions - {} == d.subscriptions
  {
  }

  /** After the components of `done`, one more. */
  lemma NextDetached(d: StateData, done: set<nat>, c: nat, live: set<Resource>)
    requires c in d.components && c !in done
    ensures var now := d.(components := map[], subscriptions := d.subscriptions - OfAny(d, done));
      && now.subscriptions - now.Of(c) == d.subscriptions - OfAny(d, done + {c})
      && live - Subscriptions(OfAny(d, done)) - Components(done) - Subscriptions(now.Of(c)) - {OfComponent(c)}
         == live - Subscriptions(OfAny(d, done + {c})) - Components(done + {c})
      && (AllDetachWell(d, done + {c}) <==>
            AllDetachWell(d, done) && !d.components[c].detachFails
            && forall u :: u in now.Of(c) ==> u in now.subscriptions && !now.subscriptions[u].fails)
  {
    var now := d.(components := map[], subscriptions := d.subscriptions - OfAny(d, done));
    assert OfAny(d, done + {c}) == OfAny(d, done) + now.Of(c);
    assert Subscriptions(OfAny(d, done + {c})) == Subscriptions(OfAny(d, done)) + Subscriptions(now.Of(c));
    assert Components(done + {c}) == Components(done) + {OfComponent(c)};
  }

  /** The three parts of a cleanup make up `Emptied` and `CleansWell`. */
  lemma CleanupAdds(d: StateData, callOnExit: bool)
    ensures var gone := OfAny(d, d.components.Keys);
      && d.Emptied() == d.(listening := false, components := map[], runners := {},
                           subscriptions := if d.listening then map[] else d.subscriptions - gone)
      && (d.CleansWell(callOnExit) <==>
            && !(callOnExit && d.exitFails) && AllDetachWell(d, d.components.Keys)
            && (d.listening ==> forall u :: u in d.subscriptions - gone ==> !(d.subscriptions - gone)[u].fails))
  {
    var gone := OfAny(d, d.components.Keys);
    assert d.Revoked() == if d.listening then d.subscriptions.Keys else gone;
    assert forall u :: u in d.subscriptions - gone <==> u in d.subscriptions && u !in gone;
    assert forall u :: u in d.subscriptions - gone ==> (d.subscriptions - gone)[u] == d.subscriptions[u];
    assert d.subscriptions - d.subscriptions.Keys == map[];
  }

  lemma AllGivenBack(d: StateData, live: set<Resource>)
    ensures var gone := OfAny(d, d.components.Keys);
      live - GivenBack(d)
      == live - Subscriptions(gone) - Components(d.components.Keys)
         - (if d.listening then Subscriptions((d.subscriptions - gone).Keys) else {}) - Runners(d.runners)
  {
  }

  lemma NothingCleaned(m: Machine)
    ensures m.stack[..|m.stack|] == m.stack && m.stack[|m.stack|..] == []
    ensures CleanedAll(m, Elements([])) == m && AllCleanWell(m, [])
  {
  }

  /** Cleaning one more state, before or after, is the same. */
  lemma CleanOneMore(m: Machine, gone: set<nat>, s: nat)
    requires s in m.states
    ensures Cleaned(CleanedAll(m, gone), s) == CleanedAll(m, gone + {s})
  {
    hide StateData.Owned, StateData.Emptied;
    EmptiedTwice(m.states[s]);
    assert ReturnedBy(m, gone + {s}) == ReturnedBy(m, gone) + GivenBack(m.states[s]);
    if s in gone {
      assert GivenBack(m.states[s]) <= ReturnedBy(m, gone);
    }
  }

  lemma EmptiedTwice(d: StateData)
    ensures d.Emptied().Emptied() == d.Emptied() && GivenBack(d.Emptied()) == {}
  {
    assert d.Emptied().Revoked() == {};
    assert d.Emptied().subscriptions - {} == d.Emptied().subscriptions;
  }

  lemma OneMoreOff(m: Machine, k: nat)
    requires Shaped(m) && 0 < k <= |m.stack|
    ensures var s := m.stack[k - 1];
      && s in m.states && s in CleanedAll(m.(stack := m.stack[..k]), Elements(m.stack[k..])).states
      && CleanedAll(m.(stack := m.stack[..k]), Elements(m.stack[k..])).states[s] == m.states[s]
      && Cleaned(CleanedAll(m.(stack := m.stack[..k]), Elements(m.stack[k..])).(stack := m.stack[..k - 1]), s)
         == CleanedAll(m.(stack := m.stack[..k - 1]), Elements(m.stack[k - 1..]))
      && (AllCleanWell(m, m.stack[k - 1..]) <==> AllCleanWell(m, m.stack[k..]) && m.states[s].CleansWell(true))
  {
  }

  lemma LeftOver(m: Machine, index: nat, k: nat)
    requires k <= |m.stack| && k <= index && (k < |m.stack| ==> index <= k)
    ensures m.stack[..k] == Kept(m, index) && m.stack[k..] == From(m, index)
  {
  }

  function Subscriptions(some: set<nat>): set<Resource> { set u | u in some :: OfSubscription(u) }

  function Runners(some: set<nat>): set<Resource> { set r | r in some :: OfRunner(r) }

  lemma WithdrawnIs(m: Machine, self: nat, component: nat, m': Machine)
    requires self in m.states
    requires var d, gone := m.states[self], m.states[self].Of(component);
      m' == Update(m, self, d.(subscriptions := d.subscriptions - gone))
              .(live := m.live - Subscriptions(gone) - {OfComponent(component)})
    ensures m' == Withdrawn(m, self, component)
  {
    var gone := m.states[self].Of(component);
    assert m.live - Subscriptions(gone) - {OfComponent(component)} == m.live - {OfComponent(component)} - Subscriptions(gone);
  }
}
