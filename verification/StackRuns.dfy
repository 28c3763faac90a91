/** Whole runs of the state stack: what nested `onEnter` callbacks and their failures leave behind. */
module StackRuns {
  import opened Wrappers
  import opened StateStack
  import opened StackSafety

  // ---------- soundness ----------

  /** Every push, at any depth and however it ends, keeps ownership sound as long as it is tame. */
  lemma {:induction false} PushSound(m: Machine, script: Script)
    requires Sound(m)
    ensures PushState(m, script).tame ==> Sound(PushState(m, script).m)
    decreases Size(script.enter), 2
  {
    hide Sound, Exec, RolledBack, Anchored, StateData.Owned;
    SoundShape(m);
    if m.running {
      var d := StateData(script.kind, script.exitFails, true, map[], map[], {});
      EmptyOwnsNothing(d);
      PushedSound(m, d);
      var pushed := Update(m, m.nextId, d).(stack := m.stack + [m.nextId], nextId := m.nextId + 1);
      ExecSound(pushed, m.nextId, script.enter);
      var r := Exec(pushed, m.nextId, script.enter);
      if r.tame {
        RollbackSound(r.m, |m.stack|, m.nextId);
      }
    }
  }

  lemma EmptyOwnsNothing(d: StateData)
    requires d.components == map[] && d.subscriptions == map[] && d.runners == {}
    ensures d.Owned() == {}
  {
  }

  lemma {:induction false} ExecSound(m: Machine, self: nat, body: seq<Action>)
    requires Sound(m) && self in m.states
    ensures Exec(m, self, body).tame ==> Sound(Exec(m, self, body).m)
    decreases Size(body), 1
  {
    hide Sound, Perform;
    SoundShape(m);
    if body != [] {
      PerformSound(m, self, body[0]);
      var first := Perform(m, self, body[0]);
      if first.tame {
        ExecSound(first.m, self, body[1..]);
      }
    }
  }

  lemma {:induction false} PerformSound(m: Machine, self: nat, a: Action)
    requires Sound(m) && self in m.states
    ensures Perform(m, self, a).tame ==> Sound(Perform(m, self, a).m)
    decreases ActionSize(a), 0
  {
    hide Sound, Exec, PushState, Subscribed, Launched, Attached, Detached, Cut, Deleted, From, AllCleanWell, StateData.Named, Find, KeepsAttached;
    SoundShape(m);
    match a {
      case Subscribe(fails) => SubscribedSound(m, self, self, fails);
      case Launch =>
        LaunchLeaks(m, self);
      case Attach(kind, tag, gains, attachFails, detachFails) =>
        AttachLeaks(m, self, kind, tag, gains, attachFails, detachFails);
      case Detach(kind, tag) => DetachSound(m, self, kind, tag);
      case Push(child) => PushSound(m, child);
      case Pop => CutSound(m, if m.stack == [] then 0 else |m.stack| - 1);
      case Delete(kind) =>
        if IndexOfKind(m, kind, 0) < |m.stack| {
          DeletedSound(m, IndexOfKind(m, kind, 0));
        }
      case Replace(child) => ReplaceSound(m, IndexOf(m.stack, self), child);
      case Reset(child) => ReplaceSound(m, 0, child);
      case Stop(_, _) => StopSound(m);
      case Attempt(body) => ExecSound(m, self, body);
      case Throw =>
    }
  }

  lemma DetachSound(m: Machine, self: nat, kind: nat, tag: nat)
    requires Sound(m) && self in m.states
    ensures var c := Find(m.states[self], kind, tag, 0, m.nextId);
      c < m.nextId ==> Sound(Detached(m, self, c))
  {
    hide Sound, Detached;
    var c := Find(m.states[self], kind, tag, 0, m.nextId);
    if c < m.nextId {
      DetachedSound(m, self, c);
    }
  }

  lemma {:induction false} ReplaceSound(m: Machine, index: nat, child: Script)
    requires Sound(m)
    ensures Sound(Cut(m, index)) && Ready(Cut(m, index))
    ensures PushState(Cut(m, index), child).tame ==> Sound(PushState(Cut(m, index), child).m)
    decreases Size(child.enter), 3
  {
    hide Sound, PushState, Cut;
    CutSound(m, index);
    SoundShape(Cut(m, index));
    PushSound(Cut(m, index), child);
  }

  lemma StopSound(m: Machine)
    requires Sound(m)
    ensures Sound(Cut(m.(running := false), 0))
  {
    hide Sound;
    assert Sound(m.(running := false)) by { NotRunning(m); }
    CutSound(m.(running := false), 0);
  }

  lemma NotRunning(m: Machine)
    requires Sound(m)
    ensures Sound(m.(running := false))
  {
    SameOwners(m, m.(running := false));
  }

  // ---------- what a callback cannot touch ----------

  /** From `m` to `m'` only new states were pushed, and of the old ones still there only `self` changed. */
  predicate Since(m: Machine, m': Machine, self: Option<nat>) {
    && m.nextId <= m'.nextId && m.states.Keys <= m'.states.Keys && Shaped(m')
    && (forall s :: s in m'.stack ==> s in m.stack || s >= m.nextId)
    && (forall s :: s in m.states && s in m'.stack && self != Some(s) ==> m'.states[s] == m.states[s])
  }

  lemma SinceTwice(a: Machine, b: Machine, c: Machine, self: Option<nat>)
    requires Since(a, b, self) && Since(b, c, self) && Ready(a)
    ensures Since(a, c, self)
  {
  }

  /** Some states were cleaned and the stack was thinned out. */
  lemma CleanedSince(m: Machine, stack: seq<nat>, gone: set<nat>, running: bool)
    requires Shaped(m) && Ascending(stack)
    requires forall s :: s in stack ==> s in m.stack && s !in gone
    ensures Since(m, CleanedAll(m.(stack := stack, running := running), gone), None)
  {
  }

  lemma CutSince(m: Machine, index: nat, running: bool)
    requires Shaped(m)
    ensures Since(m, Cut(m.(running := running), index), None)
  {
    hide CleanedAll, Since;
    PartsOfStack(m, index);
    assert m.(stack := Kept(m, index), running := running) == m.(running := running).(stack := Kept(m, index));
    CleanedSince(m, Kept(m, index), Elements(From(m, index)), running);
  }

  lemma DeletedSince(m: Machine, index: nat)
    requires Shaped(m) && index < |m.stack|
    ensures Since(m, Deleted(m, index), None)
  {
    hide CleanedAll, Since;
    var rest := m.stack[..index] + m.stack[index + 1..];
    OneCleaned(m.(stack := rest), m.stack[index]);
    assert m.(stack := rest, running := m.running) == m.(stack := rest);
    CleanedSince(m, rest, {m.stack[index]}, m.running);
  }

  /** A rollback takes the new states off, and cleans none that was there before and stays. */
  lemma RolledBackSince(m: Machine, t: Machine, startIndex: nat, entering: nat)
    requires Since(m, t, None) && Ready(m) && entering >= m.nextId && entering in t.states
    ensures Since(m, RolledBack(t, startIndex, entering), None)
  {
    var r := RolledBack(t, startIndex, entering);
    PartsOfStack(t, startIndex);
    forall s | s in m.states && s in r.stack ensures r.states[s] == m.states[s] {
      if startIndex < |t.stack| {
        assert t.stack == Kept(t, startIndex) + [t.stack[startIndex]] + From(t, startIndex + 1);
      }
      assert s !in From(t, startIndex + 1);
    }
  }

  lemma {:induction false} GainedSince(m: Machine, self: nat, component: nat, gains: seq<Gain>)
    requires self in m.states
    ensures forall s :: s in m.states && s != self ==> Gained(m, self, component, gains).states[s] == m.states[s]
    decreases gains
  {
    if gains != [] {
      var next := match gains[0] case GainSubscription(fails) => Subscribed(m, self, component, fails) case GainRunner => Launched(m, self);
      GainedSince(next, self, component, gains[1..]);
    }
  }

  lemma AttachedSince(m: Machine, self: nat, kind: nat, tag: nat, gains: seq<Gain>, attachFails: bool, detachFails: bool)
    requires Shaped(m) && self in m.states
    ensures Since(m, Attached(m, self, kind, tag, gains, attachFails, detachFails).0, Some(self))
  {
    hide Gained;
    var m1 := m.(live := m.live + {OfComponent(m.nextId)}, nextId := m.nextId + 1);
    GainedSince(m1, self, m.nextId, gains);
  }

  lemma {:induction false} PushSince(m: Machine, script: Script)
    requires Shaped(m)
    ensures Since(m, PushState(m, script).m, None)
    decreases Size(script.enter), 2
  {
    hide Exec, RolledBack, Anchored;
    if m.running {
      var d := StateData(script.kind, script.exitFails, true, map[], map[], {});
      var pushed := Update(m, m.nextId, d).(stack := m.stack + [m.nextId], nextId := m.nextId + 1);
      PushedShape(m, d);
      ExecSince(pushed, m.nextId, script.enter);
      var r := Exec(pushed, m.nextId, script.enter);
      assert Since(m, r.m, None);
      if !r.ok {
        RolledBackSince(m, r.m, |m.stack|, m.nextId);
      }
    }
  }

  lemma PushedShape(m: Machine, d: StateData)
    requires Shaped(m)
    ensures Shaped(Update(m, m.nextId, d).(stack := m.stack + [m.nextId], nextId := m.nextId + 1))
  {
    forall i | 0 <= i < |m.stack| ensures m.stack[i] < m.nextId {
      assert m.stack[i] in m.states;
    }
  }

  lemma {:induction false} ExecSince(m: Machine, self: nat, body: seq<Action>)
    requires Shaped(m) && self in m.states
    ensures Since(m, Exec(m, self, body).m, Some(self))
    decreases Size(body), 1
  {
    hide Perform;
    if body != [] {
      PerformSince(m, self, body[0]);
      var first := Perform(m, self, body[0]);
      if first.ok {
        ExecSince(first.m, self, body[1..]);
        SinceTwice(m, first.m, Exec(first.m, self, body[1..]).m, Some(self));
      }
    }
  }

  lemma SinceWider(m: Machine, m': Machine, self: nat)
    requires Since(m, m', None)
    ensures Since(m, m', Some(self))
  {
  }

  lemma ReflexiveSince(m: Machine, self: Option<nat>)
    requires Shaped(m)
    ensures Since(m, m, self)
  {
  }

  lemma {:induction false} PerformSince(m: Machine, self: nat, a: Action)
    requires Shaped(m) && self in m.states
    ensures Since(m, Perform(m, self, a).m, Some(self))
    decreases ActionSize(a), 0
  {
    hide Exec, PushState, Attached, Cut, Deleted, From, AllCleanWell, StateData.Named, Find, Since;
    ReflexiveSince(m, Some(self));
    match a {
      case Subscribe(fails) => OwnSince(m, self, fails);
      case Launch => OwnSince(m, self, false);
      case Attach(kind, tag, gains, attachFails, detachFails) =>
        AttachedSince(m, self, kind, tag, gains, attachFails, detachFails);
      case Detach(kind, tag) => DetachedSince(m, self, Find(m.states[self], kind, tag, 0, m.nextId));
      case Push(child) =>
        PushSince(m, child);
        SinceWider(m, PushState(m, child).m, self);
      case Pop => CutWider(m, self, if m.stack == [] then 0 else |m.stack| - 1, m.running);
      case Delete(kind) =>
        if IndexOfKind(m, kind, 0) < |m.stack| {
          DeletedSince(m, IndexOfKind(m, kind, 0));
          SinceWider(m, Deleted(m, IndexOfKind(m, kind, 0)), self);
        }
      case Replace(child) => ReplaceSince(m, self, IndexOf(m.stack, self), child);
      case Reset(child) => ReplaceSince(m, self, 0, child);
      case Stop(_, _) => CutWider(m, self, 0, false);
      case Attempt(body) => ExecSince(m, self, body);
      case Throw =>
    }
  }

  lemma CutWider(m: Machine, self: nat, index: nat, running: bool)
    requires Shaped(m)
    ensures Since(m, Cut(m.(running := running), index), Some(self))
    ensures m.(running := m.running) == m
  {
    CutSince(m, index, running);
    SinceWider(m, Cut(m.(running := running), index), self);
  }

  lemma OwnSince(m: Machine, self: nat, fails: bool)
    requires Shaped(m) && self in m.states
    ensures Since(m, Subscribed(m, self, self, fails), Some(self)) && Since(m, Launched(m, self), Some(self))
  {
  }

  lemma DetachedSince(m: Machine, self: nat, component: nat)
    requires Shaped(m) && self in m.states
    ensures Since(m, Detached(m, self, component), Some(self))
  {
  }

  lemma {:induction false} ReplaceSince(m: Machine, self: nat, index: nat, child: Script)
    requires Shaped(m)
    ensures Since(m, Cut(m, index), Some(self)) && Ready(Cut(m, index))
    ensures Since(m, PushState(Cut(m, index), child).m, Some(self))
    decreases Size(child.enter), 3
  {
    hide PushState, Cut;
    CutWider(m, self, index, m.running);
    CutSince(m, index, m.running);
    PushSince(Cut(m, index), child);
    SinceTwice(m, Cut(m, index), PushState(Cut(m, index), child).m, None);
    SinceWider(m, PushState(Cut(m, index), child).m, self);
  }

  // ---------- rollback ----------

  lemma {:induction false} SameAscending(a: seq<nat>, b: seq<nat>)
    requires Ascending(a) && Ascending(b) && |a| == |b| && forall x :: x in a ==> x in b
    ensures a == b
  {
    if a != [] {
      var x, y := a[|a| - 1], b[|b| - 1];
      var i, j := a[..|a| - 1], b[..|b| - 1];
      LastBound(a, b);
      forall z | z in i ensures z in j {
        assert z in a && z < x;
        var k :| 0 <= k < |b| && b[k] == z;
      }
      SameAscending(i, j);
    }
  }

  /** The last of as many elements is as large as it can be. */
  lemma {:induction false} LastBound(a: seq<nat>, b: seq<nat>)
    requires Ascending(a) && Ascending(b) && |a| == |b| > 0 && forall x :: x in a ==> x in b
    ensures a[|a| - 1] == b[|b| - 1]
  {
    AtIndex(a, b, |a| - 1);
  }

  /** An element of the smaller list is not further down in the larger one. */
  lemma {:induction false} AtIndex(a: seq<nat>, b: seq<nat>, n: nat)
    requires Ascending(a) && Ascending(b) && n < |a| && forall x :: x in a ==> x in b
    ensures exists k :: n <= k < |b| && b[k] == a[n]
  {
    assert a[n] in b;
    var k :| 0 <= k < |b| && b[k] == a[n];
    if n > 0 {
      AtIndex(a, b, n - 1);
      var l :| n - 1 <= l < |b| && b[l] == a[n - 1];
      assert l < k;
    }
  }

  /** The entering state where it was pushed: below it the stack is what it was. */
  lemma BelowEntering(m: Machine, t: Machine)
    requires Shaped(m) && Since(m, t, None) && |m.stack| < |t.stack| && t.stack[|m.stack|] == m.nextId
    ensures t.stack[..|m.stack|] == m.stack
  {
    var below := t.stack[..|m.stack|];
    forall s | s in below ensures s in m.stack {
      assert s in t.stack && s < m.nextId;
    }
    SameAscending(below, m.stack);
  }

  /** What happened inside the failing `onEnter`, up to the throw. */
  function UpToThrow(m: Machine, script: Script): Outcome
    requires Ready(m)
  {
    var d := StateData(script.kind, script.exitFails, true, map[], map[], {});
    Exec(Update(m, m.nextId, d).(stack := m.stack + [m.nextId], nextId := m.nextId + 1), m.nextId, script.enter)
  }

  /**
   * A push that throws, after whatever its `onEnter` pushed, launched, attached or caught, and
   * whatever throws during the rollback: the stack, the states on it and everything held are
   * as they were, provided that the entering state was in its place when it threw.
   */
  lemma RollbackRestores(m: Machine, script: Script)
    requires Sound(m) && m.running && !UpToThrow(m, script).ok && UpToThrow(m, script).tame
    requires var t := UpToThrow(m, script).m; |m.stack| < |t.stack| && t.stack[|m.stack|] == m.nextId
    ensures var r := PushState(m, script);
      && !r.ok && r.tame && Sound(r.m)
      && r.m.stack == m.stack && r.m.live == m.live
      && forall s :: s in m.stack ==> r.m.states[s] == m.states[s]
  {
    hide Sound, Exec, StateData.Owned;
    SoundShape(m);
    var d := StateData(script.kind, script.exitFails, true, map[], map[], {});
    var t := UpToThrow(m, script).m;
    var r := PushState(m, script);
    PushedShape(m, d);
    ExecSince(Update(m, m.nextId, d).(stack := m.stack + [m.nextId], nextId := m.nextId + 1), m.nextId, script.enter);
    assert Since(m, t, None);
    BelowEntering(m, t);
    PushSound(m, script);
    PushSince(m, script);
    LiveOnStack(m);
    LiveOnStack(r.m);
    SameHolders(m, r.m);
  }

  lemma SameHolders(m: Machine, m': Machine)
    requires m.stack == m'.stack && OnStack(m) && OnStack(m') && forall s :: s in m.stack ==> m'.states[s] == m.states[s]
    ensures OwnedBy(m', Elements(m'.stack)) == OwnedBy(m, Elements(m.stack))
  {
  }

  // ---------- any run ----------

  /** Something happens to a state: an event handler runs, or the game pushes its first state. */
  datatype Happening = Enter(script: Script) | React(self: nat, a: Action)

  function AfterAll(m: Machine, run: seq<Happening>): (r: (Machine, bool))
    requires Ready(m)
    ensures Ready(r.0)
    decreases run
  {
    if run == [] then (m, true)
    else
      var first := match run[0]
        case Enter(script) => PushState(m, script)
        case React(self, a) => if self in m.states then Perform(m, self, a) else Outcome(m, true, true);
      var rest := AfterAll(first.m, run[1..]);
      (rest.0, first.tame && rest.1)
  }

  const NEW_GAME := Machine(true, [], map[], {}, 0)

  /** In every tame run the world holds exactly what the states on the stack own. */
  lemma {:induction false} AlwaysSound(m: Machine, run: seq<Happening>)
    requires Sound(m) && AfterAll(m, run).1
    ensures Sound(AfterAll(m, run).0)
    ensures AfterAll(m, run).0.live == OwnedBy(AfterAll(m, run).0, Elements(AfterAll(m, run).0.stack))
    decreases run
  {
    hide Sound, PushState, Perform;
    SoundShape(m);
    if run == [] {
      LiveOnStack(m);
    } else {
      match run[0] {
        case Enter(script) =>
          PushSound(m, script);
          AlwaysSound(PushState(m, script).m, run[1..]);
        case React(self, a) =>
          if self in m.states {
            PerformSound(m, self, a);
            AlwaysSound(Perform(m, self, a).m, run[1..]);
          } else {
            AlwaysSound(m, run[1..]);
          }
      }
    }
  }

  // ---------- sound at every point ----------

  /** The machine is sound at every point of a push, before and after every action at any depth. */
  ghost predicate SoundPush(m: Machine, script: Script)
    requires Ready(m)
    decreases Size(script.enter), 3
  {
    && Sound(m) && Sound(PushState(m, script).m)
    && (m.running ==>
          var d := StateData(script.kind, script.exitFails, true, map[], map[], {});
          var pushed := Update(m, m.nextId, d).(stack := m.stack + [m.nextId], nextId := m.nextId + 1);
          SoundExec(pushed, m.nextId, script.enter))
  }

  ghost predicate SoundExec(m: Machine, self: nat, body: seq<Action>)
    requires Ready(m) && self in m.states
    decreases Size(body), 2
  {
    && Sound(m)
    && (body != [] ==>
          && SoundAction(m, self, body[0])
          && (Perform(m, self, body[0]).ok ==> SoundExec(Perform(m, self, body[0]).m, self, body[1..])))
  }

  /** The points within an action, and the one after it. */
  ghost predicate SoundAction(m: Machine, self: nat, a: Action)
    requires Ready(m) && self in m.states
    decreases ActionSize(a), 1
  {
    Sound(Perform(m, self, a).m) && SoundWithin(m, self, a)
  }

  ghost predicate SoundWithin(m: Machine, self: nat, a: Action)
    requires Ready(m) && self in m.states
    decreases ActionSize(a), 0
  {
    match a
    case Push(child) => SoundPush(m, child)
    case Attempt(body) => SoundExec(m, self, body)
    case Replace(child) =>
      var index := IndexOf(m.stack, self);
      m.running && index < |m.stack| && AllCleanWell(m, From(m, index)) ==> SoundReplace(m, index, child)
    case Reset(child) => m.running && AllCleanWell(m, m.stack) ==> SoundReplace(m, 0, child)
    case _ => true
  }

  ghost predicate SoundReplace(m: Machine, index: nat, child: Script)
    decreases Size(child.enter), 4
  {
    Ready(Cut(m, index)) && SoundPush(Cut(m, index), child)
  }

  lemma {:induction false} PushExactly(m: Machine, script: Script)
    requires Sound(m) && Ready(m)
    ensures SoundPush(m, script) <==> PushState(m, script).tame
    decreases Size(script.enter), 2
  {
    hide Sound, Exec, RolledBack, Anchored, StateData.Owned, SoundExec;
    SoundShape(m);
    PushSound(m, script);
    if m.running {
      var d := StateData(script.kind, script.exitFails, true, map[], map[], {});
      EmptyOwnsNothing(d);
      PushedSound(m, d);
      var pushed := Update(m, m.nextId, d).(stack := m.stack + [m.nextId], nextId := m.nextId + 1);
      ExecExactly(pushed, m.nextId, script.enter);
      ExecSound(pushed, m.nextId, script.enter);
      var r := Exec(pushed, m.nextId, script.enter);
      if r.tame {
        RollbackSound(r.m, |m.stack|, m.nextId);
      }
    }
  }

  lemma {:induction false} ExecExactly(m: Machine, self: nat, body: seq<Action>)
    requires Sound(m) && Ready(m) && self in m.states
    ensures SoundExec(m, self, body) <==> Exec(m, self, body).tame
    decreases Size(body), 1
  {
    hide Sound, Perform, SoundAction;
    SoundShape(m);
    if body != [] {
      PerformExactly(m, self, body[0]);
      PerformSound(m, self, body[0]);
      var first := Perform(m, self, body[0]);
      if first.tame && first.ok {
        ExecExactly(first.m, self, body[1..]);
      }
    }
  }

  lemma {:induction false} PerformExactly(m: Machine, self: nat, a: Action)
    requires Sound(m) && Ready(m) && self in m.states
    ensures SoundAction(m, self, a) <==> Perform(m, self, a).tame
    decreases ActionSize(a), 0
  {
    hide Sound, Exec, PushState, Subscribed, Launched, Attached, Detached, Cut, Deleted, From, AllCleanWell, StateData.Named, Find, KeepsAttached,
         SoundPush, SoundExec, SoundReplace, Ready;
    SoundShape(m);
    PerformSound(m, self, a);
    match a {
      case Launch => LaunchLeaks(m, self);
      case Attach(kind, tag, gains, attachFails, detachFails) => AttachLeaks(m, self, kind, tag, gains, attachFails, detachFails);
      case Push(child) => PushExactly(m, child);
      case Attempt(body) => ExecExactly(m, self, body);
      case Replace(child) => ReplaceExactly(m, IndexOf(m.stack, self), child);
      case Reset(child) => ReplaceExactly(m, 0, child);
      case _ =>
    }
  }

  lemma {:induction false} ReplaceExactly(m: Machine, index: nat, child: Script)
    requires Sound(m)
    ensures Ready(Cut(m, index)) && (SoundReplace(m, index, child) <==> PushState(Cut(m, index), child).tame)
    ensures PushState(Cut(m, index), child).tame ==> Sound(PushState(Cut(m, index), child).m)
    decreases Size(child.enter), 3
  {
    hide Sound, PushState, Cut, SoundPush;
    ReplaceSound(m, index, child);
    PushExactly(Cut(m, index), child);
  }

  /** The machine is sound at every point of a run, those within its callbacks included. */
  ghost predicate SoundAlong(m: Machine, run: seq<Happening>)
    requires Ready(m)
    decreases run
  {
    && Sound(m)
    && (run != [] ==>
          match run[0]
          case Enter(script) => SoundPush(m, script) && SoundAlong(PushState(m, script).m, run[1..])
          case React(self, a) =>
            if self in m.states then SoundAction(m, self, a) && SoundAlong(Perform(m, self, a).m, run[1..])
            else SoundAlong(m, run[1..]))
  }

  /** A run is sound at every point if and only if it is tame. */
  lemma {:induction false} SoundExactly(m: Machine, run: seq<Happening>)
    requires Sound(m) && Ready(m)
    ensures SoundAlong(m, run) <==> AfterAll(m, run).1
    decreases run
  {
    hide Sound, PushState, Perform, SoundPush, SoundAction, Ready;
    if run != [] {
      match run[0] {
        case Enter(script) =>
          PushExactly(m, script);
          PushSound(m, script);
          if PushState(m, script).tame {
            SoundExactly(PushState(m, script).m, run[1..]);
          }
        case React(self, a) =>
          if self in m.states {
            PerformExactly(m, self, a);
            PerformSound(m, self, a);
            if Perform(m, self, a).tame {
              SoundExactly(Perform(m, self, a).m, run[1..]);
            }
          } else {
            SoundExactly(m, run[1..]);
          }
      }
    }
  }

  lemma NewGameSound()
    ensures Sound(NEW_GAME)
  {
  }

  // ---------- when the proviso holds ----------

  /** Nothing in the script, at any depth, takes a state off the stack. */
  predicate Gentle(body: seq<Action>)
    decreases Size(body)
  {
    body == [] || (GentleAction(body[0]) && Gentle(body[1..]))
  }

  predicate GentleAction(a: Action)
    decreases ActionSize(a), 0
  {
    match a
    case Push(child) => Gentle(child.enter)
    case Attempt(body) => Gentle(body)
    case Pop => false
    case Delete(_) => false
    case Replace(_) => false
    case Reset(_) => false
    case Stop(_, _) => false
    case _ => true
  }

  lemma {:induction false} GentlePush(m: Machine, script: Script)
    requires Shaped(m) && Gentle(script.enter)
    ensures var r := PushState(m, script);
      && r.tame && m.stack <= r.m.stack && r.m.running == m.running && Shaped(r.m)
      && (m.running ==> UpToThrow(m, script).tame && m.stack + [m.nextId] <= UpToThrow(m, script).m.stack)
    decreases Size(script.enter), 2
  {
    hide Exec, Gentle;
    PushSince(m, script);
    if m.running {
      var d := StateData(script.kind, script.exitFails, true, map[], map[], {});
      PushedShape(m, d);
      var pushed := Update(m, m.nextId, d).(stack := m.stack + [m.nextId], nextId := m.nextId + 1);
      GentleExec(pushed, m.nextId, script.enter);
      var t := Exec(pushed, m.nextId, script.enter).m;
      assert t.stack[|m.stack|] == m.nextId;
    }
  }

  lemma {:induction false} GentleExec(m: Machine, self: nat, body: seq<Action>)
    requires Shaped(m) && self in m.states && self in m.stack && Gentle(body)
    ensures var r := Exec(m, self, body); r.tame && m.stack <= r.m.stack && r.m.running == m.running && Shaped(r.m)
    decreases Size(body), 1
  {
    hide Perform, GentleAction;
    if body != [] {
      GentlePerform(m, self, body[0]);
      var first := Perform(m, self, body[0]);
      if first.ok {
        GentleExec(first.m, self, body[1..]);
      }
    }
  }

  lemma {:induction false} GentlePerform(m: Machine, self: nat, a: Action)
    requires Shaped(m) && self in m.states && self in m.stack && GentleAction(a)
    ensures var r := Perform(m, self, a); r.tame && m.stack <= r.m.stack && r.m.running == m.running && Shaped(r.m)
    decreases ActionSize(a), 0
  {
    hide Exec, PushState, Cut, Deleted, From, AllCleanWell, StateData.Named, Find, Since, Gained;
    PerformSince(m, self, a);
    SinceShape(m, Perform(m, self, a).m, self);
    match a {
      case Push(child) => GentlePush(m, child);
      case Attempt(body) => GentleExec(m, self, body);
      case Attach(kind, tag, gains, attachFails, detachFails) =>
      case _ =>
    }
  }

  lemma SinceShape(m: Machine, m': Machine, self: nat)
    requires Since(m, m', Some(self))
    ensures Shaped(m')
  {
  }

  /**
   * A state whose `onEnter` takes no state off the stack can throw at any depth: the push
   * undoes everything it did.
   */
  lemma GentleRollback(m: Machine, script: Script)
    requires Sound(m) && m.running && Gentle(script.enter) && !PushState(m, script).ok
    ensures var r := PushState(m, script);
      Sound(r.m) && r.m.stack == m.stack && r.m.live == m.live && forall s :: s in m.stack ==> r.m.states[s] == m.states[s]
  {
    hide Sound, Exec;
    SoundShape(m);
    GentlePush(m, script);
    var t := UpToThrow(m, script).m;
    assert t.stack[|m.stack|] == (m.stack + [m.nextId])[|m.stack|];
    RollbackRestores(m, script);
  }

  // ---------- and when it does not ----------

  function Newborn(kind: nat): StateData { StateData(kind, false, true, map[], map[], {}) }

  lemma ExecCons(m: Machine, self: nat, a: Action, rest: seq<Action>)
    requires Ready(m) && self in m.states
    ensures var first := Perform(m, self, a);
      Exec(m, self, [a] + rest) ==
      if !first.ok then first
      else Outcome(Exec(first.m, self, rest).m, Exec(first.m, self, rest).ok, first.tame && Exec(first.m, self, rest).tame)
  {
    hide Perform;
    var body := [a] + rest;
    assert body[0] == a && body[1..] == rest;
  }

  lemma CutOff(id: nat, nextId: nat, d: StateData)
    requires d == Newborn(d.kind) && id < nextId
    ensures var m := Machine(true, [id], map[id := d], {}, nextId);
      Cut(m, 0) == Machine(true, [], map[id := d.Emptied()], {}, nextId) && AllCleanWell(m, From(m, 0))
  {
    hide Perform, Exec;
    var m := Machine(true, [id], map[id := d], {}, nextId);
    assert From(m, 0) == [id] && Kept(m, 0) == [];
    assert Cut(m, 0).states == map[id := d.Emptied()];
  }

  /** A root state that owns nothing pops itself. */
  lemma PopsItself(id: nat, nextId: nat, d: StateData)
    requires d == Newborn(d.kind) && id < nextId
    ensures Perform(Machine(true, [id], map[id := d], {}, nextId), id, Pop)
         == Outcome(Machine(true, [], map[id := d.Emptied()], {}, nextId), true, true)
  {
    hide Cut, From, AllCleanWell, Exec;
    CutOff(id, nextId, d);
  }

  lemma NoActions(m: Machine, self: nat)
    requires Ready(m) && self in m.states
    ensures Exec(m, self, []) == Outcome(m, true, true)
  {
  }

  /** At such a throw the entering state is gone and another state has taken its place. */
  lemma ThrowAfterSwapLeaks()
    ensures var d := Newborn(1).(subscriptions := map[2 := Subscription(1, false)]);
      var t := Machine(true, [1], map[0 := Newborn(0).Emptied(), 1 := d], {OfSubscription(2)}, 3);
      UpToThrow(NEW_GAME, Script(0, [Pop, Push(Script(1, [Subscribe(false)], false)), Throw], false)) == Outcome(t, false, true)
      && RolledBack(t, 0, 0).stack == [] && RolledBack(t, 0, 0).live == {OfSubscription(2)}
  {
    hide Perform, Exec;
    var child := Script(1, [Subscribe(false)], false);
    var pushed := Machine(true, [0], map[0 := Newborn(0)], {}, 1);
    var popped := Machine(true, [], map[0 := Newborn(0).Emptied()], {}, 1);
    var d := Newborn(1).(subscriptions := map[2 := Subscription(1, false)]);
    var t := Machine(true, [1], map[0 := Newborn(0).Emptied(), 1 := d], {OfSubscription(2)}, 3);
    assert [] + [0] == [0] && [Pop] + [Push(child), Throw] == [Pop, Push(child), Throw] && [Push(child)] + [Throw] == [Push(child), Throw];
    assert [Throw] + [] == [Throw];
    ExecCons(pushed, 0, Pop, [Push(child), Throw]);
    PopsItself(0, 1, Newborn(0));
    ExecCons(popped, 0, Push(child), [Throw]);
    SwapsIn(popped, child);
    ExecCons(t, 0, Throw, []);
    Throws(t, 0);
    assert From(t, 1) == [] && Kept(t, 0) == [];
    assert ReturnedBy(t.(stack := []), Elements([]) + {0}) == {};
  }

  lemma Throws(m: Machine, self: nat)
    requires Ready(m) && self in m.states
    ensures Perform(m, self, Throw) == Outcome(m, false, true)
  {
  }

  lemma SwapsIn(popped: Machine, child: Script)
    requires popped == Machine(true, [], map[0 := Newborn(0).Emptied()], {}, 1) && child == Script(1, [Subscribe(false)], false)
    ensures var d := Newborn(1).(subscriptions := map[2 := Subscription(1, false)]);
      Perform(popped, 0, Push(child))
      == Outcome(Machine(true, [1], map[0 := Newborn(0).Emptied(), 1 := d], {OfSubscription(2)}, 3), true, true)
  {
    hide Exec;
    var pushed := Machine(true, [1], map[0 := Newborn(0).Emptied(), 1 := Newborn(1)], {}, 2);
    assert [] + [1] == [1] && [Subscribe(false)] + [] == [Subscribe(false)];
    ExecCons(pushed, 1, Subscribe(false), []);
    NoActions(Subscribed(pushed, 1, 1, false), 1);
    assert {} + {OfSubscription(2)} == {OfSubscription(2)};
  }

  /** A state that deletes the state below it and throws stays on the stack, deaf. */
  lemma ThrowAfterDeleteStays()
    ensures var m := Machine(true, [0], map[0 := Newborn(0)], {}, 1);
      var t := Machine(true, [1], map[0 := Newborn(0).Emptied(), 1 := Newborn(1)], {}, 2);
      UpToThrow(m, Script(1, [Delete(0), Throw], false)) == Outcome(t, false, true)
      && RolledBack(t, 1, 1).stack == [1] && 1 in RolledBack(t, 1, 1).states && !RolledBack(t, 1, 1).states[1].listening
  {
    hide Perform, Exec;
    var pushed := Machine(true, [0, 1], map[0 := Newborn(0), 1 := Newborn(1)], {}, 2);
    var t := Machine(true, [1], map[0 := Newborn(0).Emptied(), 1 := Newborn(1)], {}, 2);
    assert [0] + [1] == [0, 1] && [Delete(0)] + [Throw] == [Delete(0), Throw] && [Throw] + [] == [Throw];
    ExecCons(pushed, 1, Delete(0), [Throw]);
    DeletesBelow(pushed, t);
    ExecCons(t, 1, Throw, []);
    Throws(t, 1);
    assert From(t, 2) == [] && Kept(t, 1) == [1];
  }

  lemma DeletesBelow(pushed: Machine, t: Machine)
    requires pushed == Machine(true, [0, 1], map[0 := Newborn(0), 1 := Newborn(1)], {}, 2)
    requires t == Machine(true, [1], map[0 := Newborn(0).Emptied(), 1 := Newborn(1)], {}, 2)
    ensures Perform(pushed, 1, Delete(0)) == Outcome(t, true, true)
  {
    assert IndexOfKind(pushed, 0, 0) == 0;
    assert [0, 1][..0] + [0, 1][1..] == [1];
    assert Deleted(pushed, 0) == t;
  }
}
