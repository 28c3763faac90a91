/**
 * The default room policies of packages/core/src/gameComponent/common/disconnectTimeout.ts
 * (`releaseOnTimeout`, no narrower scope) and autoStop.ts (default membership, `canStop`
 * true), on one clock. Connection events arrive when the server's state changes.
 */
module RoomLifecycle {
  import opened Wrappers

  type Player = nat

  /** How often an empty room is looked for. */
  const CHECK_INTERVAL_TICKS: nat := 200

  datatype Check = Check(player: Player, due: nat)

  /** Every scheduled callback is kept with the tick at which it is due. */
  datatype Room = Room(
    timeout: nat, tick: nat, members: set<Player>, online: set<Player>,
    timers: map<Player, nat>, joinChecks: set<Check>,
    pendingCheck: Option<nat>, periodicCheck: Option<nat>, stopped: bool)

  /** What may happen, in any order within a tick. Time goes on when nothing is due any more. */
  datatype Step =
    | Connect(p: Player)
    | Disconnect(p: Player)
    | Join(p: Player)
    | Leave(p: Player)
    | Expire(p: Player)
    | CheckJoined(p: Player)
    | CheckPending
    | CheckPeriodic
    | NextTick

  // ---------- the two components ----------

  function StartTimeout(r: Room, p: Player): Room {
    if p in r.timers then r else r.(timers := r.timers[p := r.tick + r.timeout])
  }

  function CancelTimeout(r: Room, p: Player): Room { r.(timers := r.timers - {p}) }

  /** At most one check of the membership is outstanding. */
  function Reconcile(r: Room): Room {
    if r.pendingCheck.Some? then r else r.(pendingCheck := Some(r.tick + 1))
  }

  function Released(r: Room, p: Player): Room {
    if p !in r.members then r else Reconcile(CancelTimeout(r.(members := r.members - {p}), p))
  }

  function HandleTimeout(r: Room, p: Player): Room {
    if p !in r.members || p in r.online then r else Released(r, p)
  }

  /** The current membership decides, not the event that led here. */
  function CheckNow(r: Room): Room { if r.members != {} then r else Stopped(r) }

  /** Stopping the game takes every outstanding callback with it. */
  function Stopped(r: Room): Room {
    r.(stopped := true, timers := map[], joinChecks := {}, pendingCheck := None, periodicCheck := None)
  }

  function Attached(timeout: nat, members: set<Player>, online: set<Player>): Room {
    Room(timeout, 0, members, online, map p | p in members && p !in online :: timeout, {}, None, Some(CHECK_INTERVAL_TICKS), false)
  }

  /** Nothing that is due is left. */
  predicate Settled(r: Room) {
    && (forall p :: p in r.timers ==> r.timers[p] > r.tick)
    && (forall c :: c in r.joinChecks ==> c.due > r.tick)
    && (r.pendingCheck.Some? ==> r.pendingCheck.value > r.tick)
    && (r.periodicCheck.Some? ==> r.periodicCheck.value > r.tick)
  }

  predicate Enabled(r: Room, step: Step) {
    match step
    case Expire(p) => p in r.timers && r.timers[p] <= r.tick
    case CheckJoined(p) => exists c :: c in r.joinChecks && c.player == p && c.due <= r.tick
    case CheckPending => r.pendingCheck.Some? && r.pendingCheck.value <= r.tick
    case CheckPeriodic => r.periodicCheck.Some? && r.periodicCheck.value <= r.tick
    case NextTick => Settled(r)
    case _ => true
  }

  function Connected(r: Room, p: Player): Room {
    var s := r.(online := r.online + {p});
    if p in r.members then CancelTimeout(s, p) else s
  }

  function Disconnected(r: Room, p: Player): Room {
    var s := r.(online := r.online - {p});
    if p in r.members then StartTimeout(s, p) else s
  }

  function Joined(r: Room, p: Player): Room {
    if p in r.members then r
    else Reconcile(r.(members := r.members + {p}, joinChecks := r.joinChecks + {Check(p, r.tick + 1)}))
  }

  function JoinChecked(r: Room, p: Player): Room {
    var s := r.(joinChecks := set c | c in r.joinChecks && !(c.player == p && c.due <= r.tick));
    if p !in r.members || p in r.online then s else StartTimeout(s, p)
  }

  /** A stopped room does nothing any more. */
  function Next(r: Room, step: Step): Room {
    if r.stopped then (if step.NextTick? then r.(tick := r.tick + 1) else r)
    else
      match step
      case Connect(p) => Connected(r, p)
      case Disconnect(p) => Disconnected(r, p)
      case Join(p) => Joined(r, p)
      case Leave(p) => Released(r, p)
      case Expire(p) => HandleTimeout(r.(timers := r.timers - {p}), p)
      case CheckJoined(p) => JoinChecked(r, p)
      case CheckPending => CheckNow(r.(pendingCheck := None))
      case CheckPeriodic =>
        var s := CheckNow(r.(periodicCheck := None));
        if s.stopped then s else s.(periodicCheck := Some(r.tick + CHECK_INTERVAL_TICKS))
      case NextTick => r.(tick := r.tick + 1)
  }

  // ---------- what always holds ----------

  /** A member who is offline is being timed or is about to be. */
  predicate Watched(r: Room, p: Player) {
    p in r.online || p in r.timers || exists c :: c in r.joinChecks && c.player == p
  }

  predicate Timely(r: Room) {
    && (forall p :: p in r.timers ==> p in r.members && p !in r.online && r.tick <= r.timers[p] <= r.tick + r.timeout)
    && (forall c :: c in r.joinChecks ==> r.tick <= c.due <= r.tick + 1)
    && (r.pendingCheck.Some? ==> r.tick <= r.pendingCheck.value <= r.tick + 1)
    && r.periodicCheck.Some? && r.tick <= r.periodicCheck.value <= r.tick + CHECK_INTERVAL_TICKS
  }

  predicate Sound(r: Room) {
    !r.stopped ==> Timely(r) && forall p :: p in r.members ==> Watched(r, p)
  }

  lemma AttachedSound(timeout: nat, members: set<Player>, online: set<Player>)
    ensures Sound(Attached(timeout, members, online))
  {
  }

  lemma StepSound(r: Room, step: Step)
    requires Sound(r) && Enabled(r, step) && r.timeout >= 1
    ensures Sound(Next(r, step)) && Next(r, step).timeout == r.timeout && r.tick <= Next(r, step).tick
  {
    if !r.stopped {
      var s := Next(r, step);
      assert Timely(r);
      if !s.stopped {
        forall p | p in s.members ensures Watched(s, p) {
          StillWatched(r, step, p);
        }
      }
    }
  }

  lemma StillWatched(r: Room, step: Step, p: Player)
    requires Sound(r) && !r.stopped && Enabled(r, step) && p in Next(r, step).members
    ensures Watched(Next(r, step), p)
  {
    var s := Next(r, step);
    if step == Join(p) && p !in r.members {
      assert Check(p, r.tick + 1) in s.joinChecks;
    } else {
      assert Watched(r, p);
      if p !in r.online && p !in r.timers {
        var c :| c in r.joinChecks && c.player == p;
        assert !(step == CheckJoined(p)) ==> c in s.joinChecks;
      }
    }
  }

  // ---------- runs ----------

  function StateAt(r: Room, run: seq<Step>, k: nat): Room
    requires k <= |run|
  {
    if k == 0 then r else Next(StateAt(r, run, k - 1), run[k - 1])
  }

  /** Every step was possible when it was taken. */
  predicate Happens(r: Room, run: seq<Step>) {
    forall k :: 0 <= k < |run| ==> Enabled(StateAt(r, run, k), run[k])
  }

  lemma {:induction false} AlwaysSound(r: Room, run: seq<Step>, k: nat)
    requires Sound(r) && r.timeout >= 1 && Happens(r, run) && k <= |run|
    ensures Sound(StateAt(r, run, k)) && StateAt(r, run, k).timeout == r.timeout
    ensures forall j :: 0 <= j <= k ==> StateAt(r, run, j).tick <= StateAt(r, run, k).tick
  {
    hide Sound, Enabled, Next;
    if k > 0 {
      AlwaysSound(r, run, k - 1);
      StepSound(StateAt(r, run, k - 1), run[k - 1]);
    }
  }

  predicate OfflineSince(r: Room, run: seq<Step>, k: nat, p: Player, tick: int)
    requires k <= |run|
  {
    forall j :: 0 <= j <= k && StateAt(r, run, j).tick > tick ==> p !in StateAt(r, run, j).online
  }

  /** A running timer was started when its player went off, and the player has not been back. */
  lemma {:induction false} TimerMeansOffline(r: Room, run: seq<Step>, k: nat, p: Player)
    requires Sound(r) && !r.stopped && r.timeout >= 1 && Happens(r, run) && k <= |run|
    requires forall q :: q in r.timers ==> r.timers[q] == r.tick + r.timeout
    ensures var s := StateAt(r, run, k);
      !s.stopped && p in s.timers ==> OfflineSince(r, run, k, p, s.timers[p] - r.timeout)
  {
    hide Sound, Enabled, Next;
    AlwaysSound(r, run, k);
    var s := StateAt(r, run, k);
    if k > 0 && !s.stopped && p in s.timers {
      TimerMeansOffline(r, run, k - 1, p);
      AlwaysSound(r, run, k - 1);
      var before := StateAt(r, run, k - 1);
      StartedOrKept(before, run[k - 1], p);
      forall j | 0 <= j <= k && StateAt(r, run, j).tick > s.timers[p] - r.timeout ensures p !in StateAt(r, run, j).online {
        assert j < k ==> StateAt(r, run, j).tick <= before.tick;
      }
    } else if k == 0 && p in s.timers {
      InitiallyOff(r, p);
    }
  }

  lemma InitiallyOff(r: Room, p: Player)
    requires Sound(r) && !r.stopped && p in r.timers
    ensures p !in r.online
  {
  }

  lemma StartedOrKept(r: Room, step: Step, p: Player)
    requires Sound(r) && Enabled(r, step) && r.timeout >= 1 && !Next(r, step).stopped && p in Next(r, step).timers
    ensures !r.stopped && p !in Next(r, step).online
    ensures (p in r.timers && Next(r, step).timers[p] == r.timers[p]) || Next(r, step).timers[p] == r.tick + r.timeout
  {
    StepSound(r, step);
  }

  /**
   * Nobody is released by the timeout unless they were offline throughout the whole grace
   * period.
   */
  lemma ReleasedAfterGrace(timeout: nat, members: set<Player>, online: set<Player>, run: seq<Step>, k: nat, p: Player)
    requires timeout >= 1 && Happens(Attached(timeout, members, online), run)
    requires k < |run| && run[k] == Expire(p)
    requires var r := Attached(timeout, members, online);
      p in StateAt(r, run, k).members && p !in StateAt(r, run, k + 1).members
    ensures var r := Attached(timeout, members, online);
      OfflineSince(r, run, k, p, StateAt(r, run, k).tick - timeout)
  {
    hide Sound, Enabled, Next;
    var r := Attached(timeout, members, online);
    AttachedSound(timeout, members, online);
    AlwaysSound(r, run, k);
    TimerMeansOffline(r, run, k, p);
    assert Enabled(StateAt(r, run, k), run[k]);
    ExpiredInTime(StateAt(r, run, k), p);
  }

  lemma ExpiredInTime(r: Room, p: Player)
    requires Enabled(r, Expire(p)) && p in r.members
    ensures p in r.timers && r.timers[p] <= r.tick && (r.stopped ==> p in Next(r, Expire(p)).members)
  {
  }

  /** Who is a member, who is online, and what the clock says after a step of a room that is not stopped. */
  lemma StepChanges(r: Room, step: Step)
    requires !r.stopped
    ensures Next(r, step).members == match step
      case Join(p) => r.members + {p}
      case Leave(p) => r.members - {p}
      case Expire(p) => if p in r.online then r.members else r.members - {p}
      case _ => r.members
    ensures Next(r, step).online == match step
      case Connect(p) => r.online + {p}
      case Disconnect(p) => r.online - {p}
      case _ => r.online
    ensures Next(r, step).tick == if step == NextTick then r.tick + 1 else r.tick
  {
  }

  /** What a step schedules: a look one tick later, the grace period, or the next periodic check. */
  lemma StepSchedules(r: Room, p: Player)
    requires !r.stopped && p in r.members
    ensures Next(r, Disconnect(p)).timers == if p in r.timers then r.timers else r.timers[p := r.tick + r.timeout]
    ensures Next(r, Connect(p)).timers == r.timers - {p} == Next(r, Leave(p)).timers
    ensures Next(r, Leave(p)).pendingCheck == if r.pendingCheck.Some? then r.pendingCheck else Some(r.tick + 1)
    ensures Next(r, CheckPeriodic).periodicCheck == Some(r.tick + 200) && Next(r, CheckPeriodic) == r.(periodicCheck := Some(r.tick + 200))
    ensures Next(r, CheckPending) == r.(pendingCheck := None)
    ensures p !in r.online && p !in r.timers ==> Next(r, CheckJoined(p)).timers == r.timers[p := r.tick + r.timeout]
    ensures p in r.online || p in r.timers ==> Next(r, CheckJoined(p)).timers == r.timers
  {
  }

  /** Somebody new is looked at one tick later, and so is the membership; an empty room stops at its next check. */
  lemma JoinSchedules(r: Room, p: Player)
    requires !r.stopped && p !in r.members
    ensures Next(r, Join(p)) == r.(members := r.members + {p}, joinChecks := r.joinChecks + {Check(p, r.tick + 1)},
      pendingCheck := if r.pendingCheck.Some? then r.pendingCheck else Some(r.tick + 1))
    ensures Next(r, Connect(p)).timers == r.timers == Next(r, Disconnect(p)).timers && Next(r, Leave(p)) == r
    ensures r.members == {} ==> Next(r, CheckPending).stopped && Next(r, CheckPeriodic).stopped
  {
  }

  /** In a room that is stopped only time goes on. */
  lemma StoppedOnlyTicks(r: Room, step: Step)
    requires r.stopped
    ensures Next(r, step) == if step == NextTick then r.(tick := r.tick + 1) else r
  {
  }

  function DueTimers(r: Room): set<Player> { set p | p in r.timers && r.timers[p] <= r.tick }

  function DueLooks(r: Room): set<Check> { set c | c in r.joinChecks && c.due <= r.tick }

  function DueChecks(r: Room): nat {
    (if r.pendingCheck.Some? && r.pendingCheck.value <= r.tick then 1 else 0)
    + (if r.periodicCheck.Some? && r.periodicCheck.value <= r.tick then 1 else 0)
  }

  /** How many callbacks are due. */
  function Due(r: Room): nat { |DueTimers(r)| + |DueLooks(r)| + DueChecks(r) }

  lemma ExpiryIsDone(r: Room, p: Player)
    requires !r.stopped && p in DueTimers(r)
    ensures Enabled(r, Expire(p)) && Due(Next(r, Expire(p))) < Due(r)
  {
    var s := Next(r, Expire(p));
    assert DueTimers(s) == DueTimers(r) - {p} && DueLooks(s) == DueLooks(r);
  }

  lemma LookIsDone(r: Room, c: Check)
    requires !r.stopped && c in DueLooks(r) && r.timeout >= 1
    ensures Enabled(r, CheckJoined(c.player)) && Due(Next(r, CheckJoined(c.player))) < Due(r)
  {
    var s := Next(r, CheckJoined(c.player));
    assert DueTimers(s) == DueTimers(r) && DueChecks(s) == DueChecks(r);
    FewerChecks(DueLooks(s), DueLooks(r) - {c});
  }

  lemma CheckIsDone(r: Room, step: Step)
    requires !r.stopped && (step == CheckPending || step == CheckPeriodic) && Enabled(r, step) && !Next(r, step).stopped
    ensures Due(Next(r, step)) < Due(r)
  {
    var s := Next(r, step);
    assert DueTimers(s) == DueTimers(r) && DueLooks(s) == DueLooks(r);
  }

  /** Time never gets stuck: it can go on, or a callback that is due can run, and then fewer are due. */
  lemma TimeGoesOn(r: Room) returns (step: Step)
    requires !r.stopped && r.timeout >= 1
    ensures Enabled(r, step)
    ensures step == NextTick || Next(r, step).stopped || Due(Next(r, step)) < Due(r)
  {
    hide Next, Due;
    if p :| p in DueTimers(r) {
      ExpiryIsDone(r, p);
      step := Expire(p);
    } else if c :| c in DueLooks(r) {
      LookIsDone(r, c);
      step := CheckJoined(c.player);
    } else if r.pendingCheck.Some? && r.pendingCheck.value <= r.tick {
      step := CheckPending;
    } else if r.periodicCheck.Some? && r.periodicCheck.value <= r.tick {
      step := CheckPeriodic;
    } else {
      step := NextTick;
      forall p | p in r.timers ensures r.timers[p] > r.tick { assert p !in DueTimers(r); }
      forall c | c in r.joinChecks ensures c.due > r.tick { assert c !in DueLooks(r); }
    }
    if (step == CheckPending || step == CheckPeriodic) && !Next(r, step).stopped {
      CheckIsDone(r, step);
    }
  }

  // ---------- release in time ----------

  /** The player's time is over at `last` at the latest. */
  predicate DueBy(r: Room, p: Player, last: nat) {
    (p in r.timers && r.timers[p] <= last)
    || (p !in r.timers && exists c :: c in r.joinChecks && c.player == p && c.due + r.timeout <= last)
  }

  lemma StepDueBy(r: Room, step: Step, p: Player, last: nat)
    requires Sound(r) && Enabled(r, step) && r.timeout >= 1 && DueBy(r, p, last) && !r.stopped && !Next(r, step).stopped
    requires p in r.members && p !in r.online && p in Next(r, step).members && p !in Next(r, step).online
    ensures DueBy(Next(r, step), p, last)
  {
    var s := Next(r, step);
    StepChanges(r, step);
    if p !in r.timers {
      var c :| c in r.joinChecks && c.player == p && c.due + r.timeout <= last;
      assert r.tick <= c.due;
      assert step != CheckJoined(p) ==> c in s.joinChecks;
    }
  }

  /** A member without a break from `a` to `b`, and offline all the time. */
  predicate AwayThroughout(r: Room, run: seq<Step>, a: nat, b: nat, p: Player)
    requires a <= b <= |run|
  {
    forall j :: a <= j <= b ==> p in StateAt(r, run, j).members && p !in StateAt(r, run, j).online
  }

  lemma {:induction false} AwayDueBy(r: Room, run: seq<Step>, a: nat, b: nat, p: Player, last: nat)
    requires Sound(r) && r.timeout >= 1 && Happens(r, run) && a <= b <= |run|
    requires AwayThroughout(r, run, a, b, p) && !StateAt(r, run, b).stopped && DueBy(StateAt(r, run, a), p, last)
    ensures DueBy(StateAt(r, run, b), p, last)
    decreases b
  {
    hide Sound, Enabled, Next, DueBy;
    if a < b {
      AlwaysSound(r, run, b - 1);
      assert Enabled(StateAt(r, run, b - 1), run[b - 1]);
      StoppedStays(StateAt(r, run, b - 1), run[b - 1]);
      AwayDueBy(r, run, a, b - 1, p, last);
      StepDueBy(StateAt(r, run, b - 1), run[b - 1], p, last);
    }
  }

  lemma StoppedStays(r: Room, step: Step)
    ensures r.stopped ==> Next(r, step).stopped
  {
  }

  lemma DueInTime(r: Room, p: Player, last: nat)
    requires Sound(r) && !r.stopped && r.timeout >= 1 && DueBy(r, p, last)
    ensures r.tick <= last
  {
  }

  /** A member who is offline has at most the grace period left, and one tick more while the look after joining is due. */
  lemma DueWhenAway(r: Room, p: Player)
    requires Sound(r) && !r.stopped && p in r.members && p !in r.online
    ensures DueBy(r, p, r.tick + r.timeout + 1)
    ensures p in r.timers ==> DueBy(r, p, r.tick + r.timeout)
  {
    assert Watched(r, p);
  }

  lemma TimedWhenGone(r: Room, p: Player)
    requires !r.stopped && p in r.members
    ensures p in Next(r, Disconnect(p)).timers
  {
  }

  /**
   * Whoever else is online: a member who is offline without a break is out of the room no later
   * than the grace period after going offline or after the component attached, and in any case
   * one tick later than that.
   */
  lemma ReleasedInTime(timeout: nat, members: set<Player>, online: set<Player>, run: seq<Step>, a: nat, b: nat, p: Player)
    requires timeout >= 1 && Happens(Attached(timeout, members, online), run) && a <= b <= |run|
    requires var r := Attached(timeout, members, online);
      AwayThroughout(r, run, a, b, p) && !StateAt(r, run, b).stopped
    ensures var r := Attached(timeout, members, online);
      && StateAt(r, run, b).tick <= StateAt(r, run, a).tick + timeout + 1
      && (a == 0 || run[a - 1] == Disconnect(p) ==> StateAt(r, run, b).tick <= StateAt(r, run, a).tick + timeout)
  {
    hide Sound, Enabled, Next, DueBy, Happens;
    var r := Attached(timeout, members, online);
    AttachedSound(timeout, members, online);
    AlwaysSound(r, run, a);
    AlwaysSound(r, run, b);
    NotStoppedBefore(r, run, a, b);
    var s := StateAt(r, run, a);
    DueWhenAway(s, p);
    var last := s.tick + timeout + 1;
    if a == 0 || run[a - 1] == Disconnect(p) {
      if a > 0 {
        NotStoppedBefore(r, run, a - 1, b);
        SameMembers(StateAt(r, run, a - 1), p);
        TimedWhenGone(StateAt(r, run, a - 1), p);
      }
      last := s.tick + timeout;
    }
    AwayDueBy(r, run, a, b, p, last);
    DueInTime(StateAt(r, run, b), p, last);
  }

  lemma SameMembers(r: Room, p: Player)
    requires !r.stopped
    ensures Next(r, Disconnect(p)).members == r.members
  {
  }

  lemma {:induction false} NotStoppedBefore(r: Room, run: seq<Step>, a: nat, b: nat)
    requires a <= b <= |run| && !StateAt(r, run, b).stopped
    ensures !StateAt(r, run, a).stopped
    decreases b
  {
    hide Next;
    if a < b {
      StoppedStays(StateAt(r, run, b - 1), run[b - 1]);
      NotStoppedBefore(r, run, a, b - 1);
    }
  }

  /** No room with members is ever stopped. */
  lemma OnlyEmptyStops(r: Room, step: Step)
    requires !r.stopped && Next(r, step).stopped
    ensures r.members == {} && Next(r, step).members == {}
  {
  }

  // ---------- bounded time ----------

  /** Nobody joins, and nobody who is a member comes back. */
  predicate Deserted(r: Room, step: Step) { !step.Join? && !(step.Connect? && step.p in r.members) }

  /** All members are off, and every deadline lies within the grace period from `from` on. */
  predicate Dwindles(r: Room, from: nat) {
    !r.stopped ==>
      && r.members !! r.online
      && (forall p :: p in r.timers ==> r.timers[p] <= from + r.timeout + 1)
      && (forall c :: c in r.joinChecks ==> c.due <= from + 1)
      && (r.members == {} ==> r.pendingCheck.Some? && r.pendingCheck.value <= from + r.timeout + 2)
  }

  lemma StepDwindles(r: Room, step: Step, from: nat)
    requires Sound(r) && Enabled(r, step) && r.timeout >= 1 && Dwindles(r, from) && Deserted(r, step)
    ensures Dwindles(Next(r, step), from)
  {
    var s := Next(r, step);
    StepSound(r, step);
    MembersInTime(r, from);
  }

  /** Once the deadlines are over, so is the game. */
  lemma DwindledIsStopped(r: Room, from: nat)
    requires Sound(r) && Dwindles(r, from) && r.tick > from + r.timeout + 2 && r.timeout >= 1
    ensures r.stopped
  {
    MembersInTime(r, from);
  }

  lemma MembersInTime(r: Room, from: nat)
    requires Sound(r) && Dwindles(r, from) && r.timeout >= 1
    ensures !r.stopped && r.members != {} ==> r.tick <= from + r.timeout + 1
  {
    if !r.stopped && r.members != {} {
      var p :| p in r.members;
      assert Watched(r, p);
    }
  }

  /** A continuation in which the room is left alone. */
  predicate Abandoned(r: Room, more: seq<Step>) {
    Happens(r, more) && forall k :: 0 <= k < |more| ==> Deserted(StateAt(r, more, k), more[k])
  }

  lemma {:induction false} DesertedRun(r: Room, more: seq<Step>, k: nat)
    requires Sound(r) && r.timeout >= 1 && Abandoned(r, more) && k <= |more| && Dwindles(r, r.tick)
    ensures Dwindles(StateAt(r, more, k), r.tick)
  {
    hide Sound, Enabled, Next, Dwindles, Deserted;
    if k > 0 {
      DesertedRun(r, more, k - 1);
      AlwaysSound(r, more, k - 1);
      assert Enabled(StateAt(r, more, k - 1), more[k - 1]) && Deserted(StateAt(r, more, k - 1), more[k - 1]);
      StepDwindles(StateAt(r, more, k - 1), more[k - 1], r.tick);
    }
  }

  /** Nobody is left, and some check will see that at `last` at the latest. */
  predicate Seen(r: Room, last: nat) {
    !r.stopped ==>
      && r.members == {}
      && ((r.pendingCheck.Some? && r.pendingCheck.value <= last) || (r.periodicCheck.Some? && r.periodicCheck.value <= last))
  }

  lemma {:induction false} SeenRun(r: Room, more: seq<Step>, k: nat, last: nat)
    requires Sound(r) && r.timeout >= 1 && Abandoned(r, more) && k <= |more| && Seen(r, last)
    ensures Seen(StateAt(r, more, k), last)
  {
    hide Sound, Enabled, Next, Seen, Deserted;
    if k > 0 {
      SeenRun(r, more, k - 1, last);
      AlwaysSound(r, more, k - 1);
      assert Enabled(StateAt(r, more, k - 1), more[k - 1]) && Deserted(StateAt(r, more, k - 1), more[k - 1]);
      StepSeen(StateAt(r, more, k - 1), more[k - 1], last);
    }
  }

  lemma StepSeen(r: Room, step: Step, last: nat)
    requires Sound(r) && Enabled(r, step) && Seen(r, last) && Deserted(r, step)
    ensures Seen(Next(r, step), last)
  {
  }

  /** Nobody is left and no check before `until` will see it. */
  predicate Unseen(r: Room, until: nat) {
    && !r.stopped && r.members == {} && r.timers == map[] && (forall c :: c in r.joinChecks ==> c.due >= r.tick)
    && r.pendingCheck.None? && r.periodicCheck.Some? && r.periodicCheck.value > until
  }

  lemma {:induction false} StateAfterFirst(r: Room, step: Step, rest: seq<Step>, k: nat)
    requires k <= |rest|
    ensures StateAt(r, [step] + rest, k + 1) == StateAt(Next(r, step), rest, k)
  {
    hide Next;
    if k > 0 {
      StateAfterFirst(r, step, rest, k - 1);
    } else {
      assert StateAt(r, [step] + rest, 0) == r;
    }
  }

  lemma AbandonedFirst(r: Room, step: Step, rest: seq<Step>)
    requires Enabled(r, step) && Deserted(r, step) && Abandoned(Next(r, step), rest)
    ensures Abandoned(r, [step] + rest)
    ensures StateAt(r, [step] + rest, |[step] + rest|) == StateAt(Next(r, step), rest, |rest|)
  {
    hide Enabled, Deserted, Next;
    var more := [step] + rest;
    assert StateAt(r, more, 0) == r;
    forall k | 0 <= k < |more|
      ensures Enabled(StateAt(r, more, k), more[k]) && Deserted(StateAt(r, more, k), more[k])
    {
      if k > 0 {
        StateAfterFirst(r, step, rest, k - 1);
        assert Enabled(StateAt(Next(r, step), rest, k - 1), rest[k - 1]) && Deserted(StateAt(Next(r, step), rest, k - 1), rest[k - 1]);
      }
    }
    StateAfterFirst(r, step, rest, |rest|);
  }

  /** Then the room can be left alone until after that tick without being stopped. */
  lemma {:induction false} GoesOn(r: Room, until: nat) returns (more: seq<Step>)
    requires Unseen(r, until) && r.tick <= until + 1
    ensures Abandoned(r, more)
    ensures StateAt(r, more, |more|).tick == until + 1 && !StateAt(r, more, |more|).stopped
    decreases until + 1 - r.tick, |r.joinChecks|
  {
    hide Abandoned;
    if r.tick == until + 1 {
      AbandonedNow(r);
      return [];
    }
    var step := NextTick;
    if exists c :: c in r.joinChecks && c.due <= r.tick {
      var c :| c in r.joinChecks && c.due <= r.tick;
      step := CheckJoined(c.player);
      assert Next(r, step).joinChecks <= r.joinChecks - {c};
      FewerChecks(Next(r, step).joinChecks, r.joinChecks - {c});
    }
    var rest := GoesOn(Next(r, step), until);
    AbandonedFirst(r, step, rest);
    more := [step] + rest;
  }

  lemma AbandonedNow(r: Room)
    ensures Abandoned(r, []) && StateAt(r, [], 0) == r
  {
  }

  lemma {:induction false} FewerChecks(a: set<Check>, b: set<Check>)
    requires a <= b
    ensures |a| <= |b|
  {
    if a != {} {
      var c :| c in a;
      FewerChecks(a - {c}, b - {c});
    }
  }

  /** However the room is left alone from now on, it is stopped by the end of the tick `timeout + 2` later. */
  ghost predicate StopsInTime(r: Room) {
    forall more :: Abandoned(r, more) && StateAt(r, more, |more|).tick > r.tick + r.timeout + 2 ==>
      StateAt(r, more, |more|).stopped
  }

  /** A member who runs out of time leads to a check in time, and so does a check that is due anyway. */
  predicate CheckedInTime(r: Room) {
    || r.stopped || r.members != {} || r.pendingCheck.Some?
    || (r.periodicCheck.Some? && r.periodicCheck.value <= r.tick + r.timeout + 2)
  }

  lemma CheckedStops(r: Room, more: seq<Step>)
    requires Sound(r) && r.timeout >= 1 && r.members !! r.online && CheckedInTime(r) && Abandoned(r, more)
    requires StateAt(r, more, |more|).tick > r.tick + r.timeout + 2
    ensures StateAt(r, more, |more|).stopped
  {
    hide Next, Abandoned, Happens, Deserted;
    var end, last := StateAt(r, more, |more|), r.tick + r.timeout + 2;
    assert Happens(r, more) by { AbandonedHappens(r, more); }
    AlwaysSound(r, more, |more|);
    if r.stopped || r.members != {} {
      DesertedRun(r, more, |more|);
      DwindledIsStopped(end, r.tick);
    } else {
      SeenRun(r, more, |more|, last);
    }
  }

  lemma AbandonedHappens(r: Room, more: seq<Step>)
    requires Abandoned(r, more)
    ensures Happens(r, more)
  {
  }

  /** With all members off, the bound is kept if and only if something checks the room in time. */
  lemma StopsExactly(r: Room)
    requires Sound(r) && r.timeout >= 1 && r.members !! r.online
    ensures StopsInTime(r) <==> CheckedInTime(r)
  {
    hide Next, Abandoned;
    if CheckedInTime(r) {
      forall more | Abandoned(r, more) && StateAt(r, more, |more|).tick > r.tick + r.timeout + 2
        ensures StateAt(r, more, |more|).stopped
      {
        CheckedStops(r, more);
      }
    } else {
      assert Unseen(r, r.tick + r.timeout + 2);
      var more := GoesOn(r, r.tick + r.timeout + 2);
    }
  }

  /**
   * The same at any point of any run: if all members are off and nobody joins or comes back,
   * the game is stopped by the end of the tick `timeout + 2` later, exactly if there are members,
   * or a check is outstanding, or the periodic check comes in time.
   */
  lemma DesertedRoomStops(timeout: nat, members: set<Player>, online: set<Player>, run: seq<Step>, a: nat)
    requires timeout >= 1 && Happens(Attached(timeout, members, online), run) && a <= |run|
    requires var r := StateAt(Attached(timeout, members, online), run, a); r.members !! r.online
    ensures var r := StateAt(Attached(timeout, members, online), run, a); StopsInTime(r) <==> CheckedInTime(r)
  {
    hide Sound, StopsInTime, CheckedInTime;
    AttachedSound(timeout, members, online);
    AlwaysSound(Attached(timeout, members, online), run, a);
    StopsExactly(StateAt(Attached(timeout, members, online), run, a));
  }

  /** Without any member at all it is the periodic check that stops the game. */
  predicate Vacant(r: Room, from: nat) {
    !r.stopped ==> r.members == {} && r.periodicCheck.Some? && r.periodicCheck.value <= from + CHECK_INTERVAL_TICKS
  }

  lemma StepVacant(r: Room, step: Step, from: nat)
    requires Sound(r) && Enabled(r, step) && Vacant(r, from) && !step.Join?
    ensures Vacant(Next(r, step), from)
  {
  }

  lemma {:induction false} VacantRun(r: Room, run: seq<Step>, a: nat, b: nat, from: nat)
    requires Sound(r) && r.timeout >= 1 && Happens(r, run) && a <= b <= |run|
    requires Vacant(StateAt(r, run, a), from) && forall k :: a <= k < b ==> !run[k].Join?
    ensures Vacant(StateAt(r, run, b), from)
    decreases b - a
  {
    hide Sound, Enabled, Next, Vacant;
    if a < b {
      AlwaysSound(r, run, a);
      assert Enabled(StateAt(r, run, a), run[a]) && !run[a].Join?;
      StepVacant(StateAt(r, run, a), run[a], from);
      VacantRun(r, run, a + 1, b, from);
    }
  }

  /** An empty room nobody joins is stopped within one check interval. */
  lemma EmptyRoomStops(timeout: nat, members: set<Player>, online: set<Player>, run: seq<Step>, a: nat, b: nat)
    requires timeout >= 1 && Happens(Attached(timeout, members, online), run) && a <= b <= |run|
    requires StateAt(Attached(timeout, members, online), run, a).members == {}
    requires forall k :: a <= k < b ==> !run[k].Join?
    requires var r := Attached(timeout, members, online);
      StateAt(r, run, b).tick > StateAt(r, run, a).tick + 200
    ensures StateAt(Attached(timeout, members, online), run, b).stopped
  {
    var r := Attached(timeout, members, online);
    AttachedSound(timeout, members, online);
    AlwaysSound(r, run, a);
    AlwaysSound(r, run, b);
    VacantRun(r, run, a, b, StateAt(r, run, a).tick);
  }

  /** A room that starts empty keeps the shorter bound only if the grace period is almost the interval. */
  lemma EmptyRoomWaits(timeout: nat, online: set<Player>)
    requires timeout >= 1
    ensures StopsInTime(Attached(timeout, {}, online)) <==> 200 <= timeout + 2
  {
    hide StopsInTime;
    AttachedSound(timeout, {}, online);
    StopsExactly(Attached(timeout, {}, online));
  }

  // ---------- the components ----------

  /** `DisconnectTimeoutComponent` and `AutoStopComponent` attached to the root state of a game. */
  class RoomPolicies {
    const timeout: nat

    var tick: nat
    var members: set<Player>
    var online: set<Player>
    var timers: map<Player, nat>
    var joinChecks: set<Check>
    var pendingCheck: Option<nat>
    var periodicCheck: Option<nat>
    var stopped: bool

    function State(): Room
      reads this
    {
      Room(timeout, tick, members, online, timers, joinChecks, pendingCheck, periodicCheck, stopped)
    }

    /** Members who are off when the component attaches are timed at once. */
    constructor (timeout: nat, members: set<Player>, online: set<Player>)
      ensures State() == Attached(timeout, members, online)
    {
      this.timeout := timeout;
      tick, this.members, this.online, joinChecks, stopped := 0, members, online, {}, false;
      timers, pendingCheck, periodicCheck := map[], None, Some(CHECK_INTERVAL_TICKS);
      new;
      var left := members;
      while left != {}
        invariant left <= members && timers == map p | p in members - left && p !in online :: timeout
        invariant State() == Attached(timeout, members, online).(timers := timers)
        decreases |left|
      {
        var p :| p in left;
        if p !in online {
          StartDisconnectTimeout(p);
        }
        left := left - {p};
      }
    }

    method StartDisconnectTimeout(p: Player)
      modifies `timers
      ensures State() == StartTimeout(old(State()), p)
    {
      if p in timers { return; }
      timers := timers[p := tick + timeout];
    }

    method CancelDisconnectTimeout(p: Player)
      modifies `timers
      ensures State() == CancelTimeout(old(State()), p)
    {
      if p in timers {
        timers := timers - {p};
      } else {
        assert timers - {p} == timers;
      }
    }

    method OnConnection(p: Player, isOnline: bool)
      requires !stopped
      modifies `online, `timers
      ensures State() == Next(old(State()), if isOnline then Connect(p) else Disconnect(p))
    {
      if isOnline {
        online := online + {p};
        if p in members {
          CancelDisconnectTimeout(p);
        }
      } else {
        online := online - {p};
        if p in members {
          StartDisconnectTimeout(p);
        }
      }
    }

    /** Participation changed: both components are told. */
    method OnJoined(p: Player)
      requires !stopped
      modifies `members, `joinChecks, `pendingCheck
      ensures State() == Next(old(State()), Join(p))
    {
      if p in members { return; }
      members := members + {p};
      joinChecks := joinChecks + {Check(p, tick + 1)};
      RequestCheck();
    }

    method OnLeft(p: Player)
      requires !stopped
      modifies `members, `timers, `pendingCheck
      ensures State() == Next(old(State()), Leave(p)) == Released(old(State()), p)
    {
      if p !in members { return; }
      members := members - {p};
      CancelDisconnectTimeout(p);
      RequestCheck();
    }

    /** The state of the server decides, not the timer. */
    method OnTimeout(p: Player)
      requires !stopped
      modifies `members, `timers, `pendingCheck
      ensures State() == Next(old(State()), Expire(p))
      ensures members == if p in online then old(members) else old(members) - {p}
    {
      timers := timers - {p};
      if p !in members || p in online { return; }
      OnLeft(p);
    }

    method OnJoinCheck(p: Player)
      requires !stopped
      modifies `joinChecks, `timers
      ensures State() == Next(old(State()), CheckJoined(p))
    {
      joinChecks := set c | c in joinChecks && !(c.player == p && c.due <= tick);
      if p in members && p !in online {
        StartDisconnectTimeout(p);
      }
    }

    method RequestCheck()
      modifies `pendingCheck
      ensures State() == Reconcile(old(State()))
    {
      if pendingCheck.Some? { return; }
      pendingCheck := Some(tick + 1);
    }

    /** `stopGame` detaches both components, which cancel what they have running. */
    method StopIfEmpty()
      requires !stopped
      modifies `stopped, `timers, `joinChecks, `pendingCheck, `periodicCheck
      ensures State() == CheckNow(old(State()))
    {
      if members != {} { return; }
      stopped := true;
      var left := timers.Keys;
      while left != {}
        invariant left == timers.Keys
        invariant State() == old(State()).(stopped := true, timers := timers)
        decreases |left|
      {
        var p :| p in left;
        CancelDisconnectTimeout(p);
        left := left - {p};
      }
      joinChecks, pendingCheck, periodicCheck := {}, None, None;
    }

    method OnPendingCheck()
      requires !stopped
      modifies `stopped, `timers, `joinChecks, `pendingCheck, `periodicCheck
      ensures State() == Next(old(State()), CheckPending)
    {
      pendingCheck := None;
      StopIfEmpty();
    }

    method OnPeriodicCheck()
      requires !stopped
      modifies `stopped, `timers, `joinChecks, `pendingCheck, `periodicCheck
      ensures State() == Next(old(State()), CheckPeriodic)
    {
      periodicCheck := None;
      StopIfEmpty();
      if !stopped {
        periodicCheck := Some(tick + CHECK_INTERVAL_TICKS);
      }
    }
  }
}
