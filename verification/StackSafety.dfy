/** What the state stack of packages/core/src/gameEngine.ts guarantees about ownership and rollback. */
module StackSafety {
  import opened Wrappers
  import opened StateStack

  predicate Ascending(stack: seq<nat>) { forall i, j :: 0 <= i < j < |stack| ==> stack[i] < stack[j] }

  /** Identities grow from the bottom of the stack to its top. */
  predicate Shaped(m: Machine) { Ready(m) && Ascending(m.stack) }

  /** A state listens exactly while it is on the stack, and owns nothing once it does not. */
  predicate Listening(m: Machine) {
    forall s :: s in m.states ==>
      (m.states[s].listening <==> s in m.stack) && (!m.states[s].listening ==> m.states[s].Owned() == {})
  }

  /** No two states own the same thing. */
  predicate Apart(m: Machine) {
    forall s, t :: s in m.states && t in m.states && s != t ==> m.states[s].Owned() !! m.states[t].Owned()
  }

  predicate Known(m: Machine) { forall x :: x in m.live ==> x.id < m.nextId }

  /** The world holds exactly what the states own, and states off the stack own nothing. */
  predicate Sound(m: Machine) {
    Shaped(m) && Listening(m) && Apart(m) && Known(m) && m.live == OwnedBy(m, m.states.Keys)
  }

  /** Live resources are those of the states on the stack. */
  lemma LiveOnStack(m: Machine)
    requires Sound(m)
    ensures m.live == OwnedBy(m, Elements(m.stack))
  {
  }

  lemma Owns(m: Machine, s: nat, x: Resource)
    requires Sound(m) && s in m.states && x in m.states[s].Owned()
    ensures x in m.live && x.id < m.nextId
  {
  }

  // ---------- one state changes ----------

  lemma StaysApart(m: Machine, s: nat, d: StateData, nextId: nat)
    requires Sound(m) && s in m.states
    requires forall x :: x in d.Owned() ==> x in m.states[s].Owned() || m.nextId <= x.id < nextId
    ensures Apart(Update(m, s, d))
  {
    hide OwnedBy, Listening, StateData.Owned;
    forall t, x | t in m.states && t != s && x in m.states[t].Owned() ensures x !in d.Owned() {
      Owns(m, t, x);
    }
  }

  lemma StaysCounted(m: Machine, s: nat, d: StateData)
    requires m.live == OwnedBy(m, m.states.Keys) && Apart(m) && s in m.states && Apart(Update(m, s, d))
    ensures OwnedBy(Update(m, s, d), m.states.Keys) == m.live - m.states[s].Owned() + d.Owned()
  {
    hide StateData.Owned;
    var m' := Update(m, s, d);
    forall x ensures x in OwnedBy(m', m.states.Keys) <==> x in m.live - m.states[s].Owned() + d.Owned() {
      if x in d.Owned() {
        assert x in m'.states[s].Owned();
      } else if x in m.live {
        var t :| t in m.states && x in m.states[t].Owned();
        assert t != s ==> x in m'.states[t].Owned();
      }
    }
  }

  /** One state gains something new or gives something back. */
  lemma ChangeOne(m: Machine, s: nat, d: StateData, live: set<Resource>, nextId: nat)
    requires Sound(m) && s in m.states && m.nextId <= nextId
    requires d.listening == m.states[s].listening && (!d.listening ==> d.Owned() == {})
    requires live == m.live - m.states[s].Owned() + d.Owned()
    requires forall x :: x in d.Owned() ==> x in m.states[s].Owned() || m.nextId <= x.id < nextId
    ensures Sound(Update(m, s, d).(live := live, nextId := nextId))
  {
    hide OwnedBy, StateData.Owned;
    var m' := Update(m, s, d).(live := live, nextId := nextId);
    StaysApart(m, s, d, nextId);
    StaysCounted(m, s, d);
    SameOwners(Update(m, s, d), m');
    assert m'.states.Keys == m.states.Keys;
    forall x | x in live ensures x.id < nextId {
      if x in d.Owned() && x in m.states[s].Owned() { Owns(m, s, x); }
    }
  }

  lemma SameOwners(m: Machine, m': Machine)
    requires m.states == m'.states
    ensures forall some :: OwnedBy(m, some) == OwnedBy(m', some)
  {
  }

  lemma SubscribedSound(m: Machine, self: nat, subscriber: nat, fails: bool)
    requires Sound(m) && self in m.states
    ensures Sound(Subscribed(m, self, subscriber, fails))
  {
    hide Sound;
    var d := m.states[self];
    if d.listening {
      var d' := d.(subscriptions := d.subscriptions[m.nextId := Subscription(subscriber, fails)]);
      assert d'.Owned() == d.Owned() + {OfSubscription(m.nextId)};
      LiveIncludes(m, self);
      ChangeOne(m, self, d', m.live + {OfSubscription(m.nextId)}, m.nextId + 1);
    }
  }

  lemma LiveIncludes(m: Machine, s: nat)
    requires Sound(m) && s in m.states
    ensures m.states[s].Owned() <= m.live
    ensures m.states[s].listening <==> s in m.stack
    ensures !m.states[s].listening ==> m.states[s].Owned() == {}
  {
  }

  /** A fresh resource that no state on the stack owns is out of its reach. */
  lemma Stray(m: Machine, m': Machine, self: nat, x: Resource)
    requires Sound(m) && self in m.states && self !in m.stack && m'.stack == m.stack && x in m'.live && x.id >= m.nextId
    requires forall s :: s in m.states && s != self ==> s in m'.states && m'.states[s] == m.states[s]
    ensures m'.live != OwnedBy(m', Elements(m'.stack))
  {
    forall s | s in m'.stack && s in m'.states
      ensures x !in m'.states[s].Owned()
    {
      assert s in m.states && m'.states[s] == m.states[s];
      if x in m.states[s].Owned() {
        Owns(m, s, x);
      }
    }
  }

  /** A runner is safe if and only if the state that launches it is on the stack; otherwise it leaks. */
  lemma LaunchLeaks(m: Machine, self: nat)
    requires Sound(m) && self in m.states
    ensures var m' := Launched(m, self);
      && (Sound(m') <==> self in m.stack)
      && (m'.live == OwnedBy(m', Elements(m'.stack)) <==> self in m.stack)
  {
    hide Sound;
    var m' := Launched(m, self);
    if self in m.stack {
      LaunchedSound(m, self);
      LiveOnStack(m');
    } else {
      Stray(m, m', self, OfRunner(m.nextId));
      if Sound(m') {
        LiveOnStack(m');
      }
    }
  }

  lemma LaunchedSound(m: Machine, self: nat)
    requires Sound(m) && self in m.states && self in m.stack
    ensures Sound(Launched(m, self)) && Launched(m, self).stack == m.stack
  {
    hide Sound;
    var d := m.states[self];
    var d' := d.(runners := d.runners + {m.nextId});
    assert d'.Owned() == d.Owned() + {OfRunner(m.nextId)};
    LiveIncludes(m, self);
    ChangeOne(m, self, d', m.live + {OfRunner(m.nextId)}, m.nextId + 1);
  }

  lemma DetachedSound(m: Machine, self: nat, component: nat)
    requires Sound(m) && self in m.states
    requires component in m.states[self].components || OfComponent(component) !in m.live
    ensures Sound(Detached(m, self, component))
  {
    hide Sound, StateData.Owned, Detached;
    var d := m.states[self];
    var back := (set u | u in d.Of(component) :: OfSubscription(u));
    var d' := d.(components := d.components - {component}, subscriptions := d.subscriptions - d.Of(component));
    DetachedOwns(d, component);
    DetachedUpdates(m, self, component);
    LiveIncludes(m, self);
    ChangeOne(m, self, d', m.live - {OfComponent(component)} - back, m.nextId);
  }

  lemma DetachedOwns(d: StateData, component: nat)
    ensures var d' := d.(components := d.components - {component}, subscriptions := d.subscriptions - d.Of(component));
      var back := (set u | u in d.Of(component) :: OfSubscription(u));
      d'.Owned() == d.Owned() - {OfComponent(component)} - back && back <= d.Owned()
    ensures component in d.components ==> OfComponent(component) in d.Owned()
  {
  }

  lemma DetachedUpdates(m: Machine, self: nat, component: nat)
    requires self in m.states
    ensures var d := m.states[self];
      var d' := d.(components := d.components - {component}, subscriptions := d.subscriptions - d.Of(component));
      var back := (set u | u in d.Of(component) :: OfSubscription(u));
      Detached(m, self, component) == Update(m, self, d').(live := m.live - {OfComponent(component)} - back)
  {
    var d := m.states[self];
    var e := d.(components := d.components - {component});
    assert e.Of(component) == d.Of(component);
  }

  lemma {:induction false} GainedSound(m: Machine, self: nat, component: nat, gains: seq<Gain>)
    requires Sound(m) && self in m.states && self in m.stack
    ensures Sound(Gained(m, self, component, gains))
    ensures OfComponent(component) !in m.live ==> OfComponent(component) !in Gained(m, self, component, gains).live
    ensures Gained(m, self, component, gains).states[self].components == m.states[self].components
    decreases gains
  {
    hide Sound;
    if gains != [] {
      LiveIncludes(m, self);
      match gains[0] {
        case GainSubscription(fails) =>
          SubscribedSound(m, self, component, fails);
          GainedSound(Subscribed(m, self, component, fails), self, component, gains[1..]);
        case GainRunner =>
          LaunchedSound(m, self);
          GainedSound(Launched(m, self), self, component, gains[1..]);
      }
    }
  }

  /** The component being attached does not disturb what it gains. */
  lemma {:induction false} GainedBeside(m: Machine, self: nat, component: nat, gains: seq<Gain>)
    requires self in m.states
    ensures var c := {OfComponent(component)};
      Gained(m.(live := m.live + c), self, component, gains)
      == Gained(m, self, component, gains).(live := Gained(m, self, component, gains).live + c)
    decreases gains
  {
    hide Subscribed, Launched;
    if gains != [] {
      var c := {OfComponent(component)};
      OneGainBeside(m, self, component, c);
      var next := match gains[0] case GainSubscription(fails) => Subscribed(m, self, component, fails) case GainRunner => Launched(m, self);
      GainedBeside(next, self, component, gains[1..]);
    }
  }

  lemma OneGainBeside(m: Machine, self: nat, subscriber: nat, c: set<Resource>)
    requires self in m.states
    ensures self in Launched(m, self).states && forall fails :: self in Subscribed(m, self, subscriber, fails).states
    ensures Launched(m.(live := m.live + c), self) == Launched(m, self).(live := Launched(m, self).live + c)
    ensures forall fails ::
      Subscribed(m.(live := m.live + c), self, subscriber, fails)
      == Subscribed(m, self, subscriber, fails).(live := Subscribed(m, self, subscriber, fails).live + c)
  {
    assert m.live + c + {OfRunner(m.nextId)} == m.live + {OfRunner(m.nextId)} + c;
    assert m.live + c + {OfSubscription(m.nextId)} == m.live + {OfSubscription(m.nextId)} + c;
  }

  /** A component that fails to attach leaves no subscription behind; what it launched is its state's. */
  lemma AttachedSound(m: Machine, self: nat, kind: nat, tag: nat, gains: seq<Gain>, attachFails: bool, detachFails: bool)
    requires Sound(m) && self in m.states && self in m.stack
    ensures Sound(Attached(m, self, kind, tag, gains, attachFails, detachFails).0)
  {
    hide Sound, Gained;
    var component := m.nextId;
    var next := m.(nextId := m.nextId + 1);
    NextIdSound(m);
    GainedSound(next, self, component, gains);
    GainedBeside(next, self, component, gains);
    var g := Gained(next, self, component, gains);
    var c := {OfComponent(component)};
    assert m.(live := m.live + c, nextId := m.nextId + 1) == next.(live := next.live + c);
    DetachedSound(g, self, component);
    UnlistedDetach(m, g, self, component);
    assert Withdrawn(g.(live := g.live + c), self, component) == Withdrawn(g, self, component) by {
      assert g.live + c - c == g.live - c;
    }
    var d := g.states[self];
    var d' := d.(components := d.components[component := Component(kind, tag, detachFails)]);
    assert d'.Owned() == d.Owned() + c;
    LiveIncludes(g, self);
    ChangeNewComponent(g, self, d', component);
  }

  /** What a deaf state gains is its runners. */
  lemma {:induction false} GainedDeaf(m: Machine, self: nat, component: nat, gains: seq<Gain>)
    requires self in m.states && !m.states[self].listening
    ensures var g := Gained(m, self, component, gains);
      && !g.states[self].listening && g.states[self].subscriptions == m.states[self].subscriptions
      && (forall s :: s in m.states && s != self ==> g.states[s] == m.states[s])
      && m.live <= g.live && m.states[self].runners <= g.states[self].runners
      && (GainRunner !in gains ==> g == m)
      && (GainRunner in gains ==> exists r: nat :: r >= m.nextId && OfRunner(r) in g.live)
    decreases gains
  {
    if gains != [] {
      assert GainRunner in gains <==> gains[0] == GainRunner || GainRunner in gains[1..];
      match gains[0] {
        case GainSubscription(fails) =>
          GainedDeaf(m, self, component, gains[1..]);
        case GainRunner =>
          var next := Launched(m, self);
          GainedDeaf(next, self, component, gains[1..]);
          assert OfRunner(m.nextId) in Gained(next, self, component, gains[1..]).live;
      }
    }
  }

  lemma OffStack(m: Machine, self: nat)
    requires Sound(m) && self in m.states && self !in m.stack
    ensures var d := m.states[self]; !d.listening && d.components == map[] && d.subscriptions == map[] && d.runners == {}
  {
    var d := m.states[self];
    assert d.Owned() == {};
    assert forall c :: c in d.components ==> OfComponent(c) in d.Owned();
    assert forall u :: u in d.subscriptions ==> OfSubscription(u) in d.Owned();
    assert forall r :: r in d.runners ==> OfRunner(r) in d.Owned();
  }

  lemma AttachedOffStack(m: Machine, self: nat, kind: nat, tag: nat, gains: seq<Gain>, attachFails: bool, detachFails: bool)
    requires Sound(m) && self in m.states && self !in m.stack
    ensures var m' := Attached(m, self, kind, tag, gains, attachFails, detachFails).0;
      if KeepsAttached(m, self, kind, tag, gains, attachFails) then Sound(m') else m'.live != OwnedBy(m', Elements(m'.stack))
  {
    hide Sound, Gained;
    OffStack(m, self);
    assert m.states[self].Named(kind, tag) == {};
    if m.running {
      var component := m.nextId;
      var c := {OfComponent(component)};
      var begun := m.(live := m.live + c, nextId := m.nextId + 1);
      GainedDeaf(begun, self, component, gains);
      var g := Gained(begun, self, component, gains);
      var m' := Attached(m, self, kind, tag, gains, attachFails, detachFails).0;
      if KeepsAttached(m, self, kind, tag, gains, attachFails) {
        NextIdSound(m);
        assert m.live + c - c == m.live;
        assert m' == m.(nextId := m.nextId + 1);
      } else if attachFails {
        var r: nat :| r >= begun.nextId && OfRunner(r) in g.live;
        assert OfRunner(r) in m'.live;
        Stray(m, m', self, OfRunner(r));
      } else {
        assert OfComponent(component) in m'.live;
        Stray(m, m', self, OfComponent(component));
      }
    }
  }

  /**
   * Attaching keeps the machine sound if and only if the state is on the stack or nothing of
   * the component stays: the game is over, the component is there already, or it fails
   * without having launched a runner. Otherwise something leaks.
   */
  lemma AttachLeaks(m: Machine, self: nat, kind: nat, tag: nat, gains: seq<Gain>, attachFails: bool, detachFails: bool)
    requires Sound(m) && self in m.states
    ensures var m', keeps := Attached(m, self, kind, tag, gains, attachFails, detachFails).0, KeepsAttached(m, self, kind, tag, gains, attachFails);
      && (Sound(m') <==> keeps)
      && (m'.live == OwnedBy(m', Elements(m'.stack)) <==> keeps)
  {
    hide Sound, Attached, KeepsAttached;
    var m' := Attached(m, self, kind, tag, gains, attachFails, detachFails).0;
    if self in m.stack {
      AttachedSound(m, self, kind, tag, gains, attachFails, detachFails);
      OnStackKeeps(m, self, kind, tag, gains, attachFails);
    } else {
      AttachedOffStack(m, self, kind, tag, gains, attachFails, detachFails);
    }
    if Sound(m') {
      LiveOnStack(m');
    }
  }

  lemma OnStackKeeps(m: Machine, self: nat, kind: nat, tag: nat, gains: seq<Gain>, attachFails: bool)
    requires self in m.states && self in m.stack
    ensures KeepsAttached(m, self, kind, tag, gains, attachFails)
  {
  }

  lemma UnlistedDetach(m: Machine, g: Machine, self: nat, component: nat)
    requires Sound(m) && self in m.states && self in g.states && component == m.nextId
    requires g.states[self].components == m.states[self].components
    ensures Detached(g, self, component) == Withdrawn(g, self, component)
  {
    if component in m.states[self].components {
      Owns(m, self, OfComponent(component));
    }
    assert g.states[self].components - {component} == g.states[self].components;
    assert Update(g, self, g.states[self]) == g;
  }

  lemma NextIdSound(m: Machine)
    requires Sound(m)
    ensures Sound(m.(nextId := m.nextId + 1)) && OfComponent(m.nextId) !in m.live
  {
  }

  lemma ChangeNewComponent(m: Machine, self: nat, d: StateData, component: nat)
    requires Sound(m) && self in m.states && self in m.stack && component < m.nextId && OfComponent(component) !in m.live
    requires d.listening == m.states[self].listening && d.Owned() == m.states[self].Owned() + {OfComponent(component)}
    ensures Sound(Update(m, self, d).(live := m.live + {OfComponent(component)}))
  {
    hide StateData.Owned;
    var m' := Update(m, self, d);
    forall t, x | t in m.states && t != self && x in m.states[t].Owned() ensures x !in d.Owned() {
      Owns(m, t, x);
    }
    StaysCounted(m, self, d);
    SameOwners(m', m'.(live := m.live + {OfComponent(component)}));
    LiveIncludes(m, self);
  }

  // ---------- states are removed ----------

  /** The states to be cleaned are those that leave the stack. */
  predicate Leaves(m: Machine, stack: seq<nat>, gone: set<nat>) {
    forall s :: s in m.states ==> (s in stack <==> s in m.stack && s !in gone)
  }

  lemma EmptiedIsDeaf(d: StateData)
    ensures !d.Emptied().listening
  {
  }

  lemma EmptiedOwnsNothing(d: StateData)
    requires !d.listening ==> d.Owned() == {}
    ensures d.Emptied().Owned() == {} && GivenBack(d) == d.Owned()
  {
    assert d.subscriptions - d.Revoked() == map[] by {
      if !d.listening {
        assert forall u :: u in d.subscriptions ==> OfSubscription(u) in d.Owned();
      }
    }
  }

  lemma CleanedOwners(m: Machine, stack: seq<nat>, gone: set<nat>)
    requires Sound(m)
    ensures var m' := CleanedAll(m.(stack := stack), gone);
      && (forall s :: s in m.states && s !in gone ==> m'.states[s] == m.states[s])
      && (forall s :: s in m.states && s in gone ==> m'.states[s].Owned() == {} && !m'.states[s].listening)
      && m'.live == OwnedBy(m', m'.states.Keys) && m'.live <= m.live
  {
    hide StateData.Owned, GivenBack, StateData.Emptied;
    var m' := CleanedAll(m.(stack := stack), gone);
    forall s | s in m.states && s in gone
      ensures m'.states[s].Owned() == {} && GivenBack(m.states[s]) == m.states[s].Owned() && !m'.states[s].listening
    {
      EmptiedOwnsNothing(m.states[s]);
      EmptiedIsDeaf(m.states[s]);
    }
    forall x ensures x in m'.live <==> x in OwnedBy(m', m'.states.Keys) {
      if x in m.live {
        var t :| t in m.states && x in m.states[t].Owned();
        if t !in gone {
          assert x in m'.states[t].Owned();
        }
      }
    }
  }

  /** Cleaning up what leaves the stack keeps everything sound, and nothing else does. */
  lemma CleanedSound(m: Machine, stack: seq<nat>, gone: set<nat>)
    requires Sound(m) && Ascending(stack) && forall s :: s in stack ==> s in m.states
    ensures Sound(CleanedAll(m.(stack := stack), gone)) <==> Leaves(m, stack, gone)
  {
    hide OwnedBy, CleanedAll, StateData.Owned;
    var m' := CleanedAll(m.(stack := stack), gone);
    CleanedOwners(m, stack, gone);
    CleanedShape(m, stack, gone);
    if Sound(m') {
      forall s | s in m.states ensures s in stack <==> s in m.stack && s !in gone {
        assert m'.states[s].listening <==> s in stack;
      }
    }
  }

  lemma CleanedShape(m: Machine, stack: seq<nat>, gone: set<nat>)
    ensures var m' := CleanedAll(m.(stack := stack), gone);
      m'.stack == stack && m'.states.Keys == m.states.Keys && m'.nextId == m.nextId && m'.running == m.running
  {
  }

  lemma PartsOfStack(m: Machine, index: nat)
    requires Ascending(m.stack)
    ensures Ascending(Kept(m, index))
    ensures forall s :: s in m.stack <==> s in Kept(m, index) || s in From(m, index)
    ensures forall s :: s in Kept(m, index) ==> s !in From(m, index)
  {
    if index <= |m.stack| {
      assert m.stack == m.stack[..index] + m.stack[index..];
    }
  }

  lemma CutSound(m: Machine, index: nat)
    requires Sound(m)
    ensures Sound(Cut(m, index)) && Cut(m, index).stack == Kept(m, index)
  {
    hide Sound;
    SoundShape(m);
    PartsOfStack(m, index);
    CleanedSound(m, Kept(m, index), Elements(From(m, index)));
  }

  lemma SoundShape(m: Machine)
    requires Sound(m)
    ensures Ready(m) && Ascending(m.stack)
  {
  }

  lemma DeletedSound(m: Machine, index: nat)
    requires Sound(m) && index < |m.stack|
    ensures Sound(Deleted(m, index))
  {
    hide Sound;
    SoundShape(m);
    var s := m.stack[index];
    var rest := m.stack[..index] + m.stack[index + 1..];
    assert m.stack == m.stack[..index] + [s] + m.stack[index + 1..];
    CleanedSound(m, rest, {s});
    OneCleaned(m.(stack := rest), s);
  }

  lemma OneCleaned(m: Machine, s: nat)
    requires s in m.states
    ensures CleanedAll(m, {s}) == Cleaned(m, s)
  {
    assert ReturnedBy(m, {s}) == GivenBack(m.states[s]);
  }

  /**
   * After the rollback of a failed `onEnter`, ownership is sound exactly when the entering
   * state is still where it was pushed, or both it and everything above its place are gone.
   */
  lemma RollbackSound(m: Machine, startIndex: nat, entering: nat)
    requires Sound(m) && entering in m.states
    ensures Sound(RolledBack(m, startIndex, entering)) <==> Anchored(m.stack, startIndex, entering)
  {
    hide Sound, CleanedAll, Leaves, Anchored;
    SoundShape(m);
    PartsOfStack(m, startIndex);
    CleanedSound(m, Kept(m, startIndex), Elements(From(m, startIndex + 1)) + {entering});
    AnchoredLeaves(m, startIndex, entering);
  }

  lemma AnchoredLeaves(m: Machine, startIndex: nat, entering: nat)
    requires Ready(m) && Ascending(m.stack) && entering in m.states
    ensures Leaves(m, Kept(m, startIndex), Elements(From(m, startIndex + 1)) + {entering}) <==> Anchored(m.stack, startIndex, entering)
  {
    var kept, above := Kept(m, startIndex), From(m, startIndex + 1);
    var gone := Elements(above) + {entering};
    if startIndex < |m.stack| {
      var first := m.stack[startIndex];
      assert m.stack == kept + [first] + above;
      assert first !in kept && first !in above;
      assert Leaves(m, kept, gone) ==> first in gone;
    } else {
      assert Leaves(m, kept, gone) ==> (entering in kept <==> entering in m.stack && entering !in gone);
    }
  }

  lemma PushedSound(m: Machine, d: StateData)
    requires Sound(m) && d.listening && d.Owned() == {}
    ensures Sound(Update(m, m.nextId, d).(stack := m.stack + [m.nextId], nextId := m.nextId + 1))
  {
    hide StateData.Owned;
    var m' := Update(m, m.nextId, d).(stack := m.stack + [m.nextId], nextId := m.nextId + 1);
    forall i, j | 0 <= i < j < |m'.stack| ensures m'.stack[i] < m'.stack[j] {
      assert m.stack[i] in m.states;
    }
    forall x | x in m.live ensures x in OwnedBy(m', m'.states.Keys) {
      var t :| t in m.states && x in m.states[t].Owned();
      assert x in m'.states[t].Owned();
    }
    forall x | x in OwnedBy(m', m'.states.Keys) ensures x in m.live {
      var t :| t in m'.states && x in m'.states[t].Owned();
      assert t != m.nextId && x in m.states[t].Owned();
    }
  }
}
