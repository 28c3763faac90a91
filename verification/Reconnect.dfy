/** The connection of `createServerNetTraceBridge` in packages/trace/src/serverNet.ts: connect, back off, pause, stop. */
module Reconnect {
  import opened Wrappers
  import opened Bytes
  import opened Arithmetic

  /** How the owner's `onError` uses the bridge: `AnyCalls` says that there is nothing else. */
  datatype Doing = Nothing | Starts | Stops | Restarts

  /** What the owner's `onError` does when it is called back. It may throw in the end. */
  datatype Reaction = Reaction(doing: Doing, throws: bool)

  /**
   * What goes wrong once there is a socket. If the bridge was stopped meanwhile, closing it may
   * throw. If it is adopted, one of its events may not be subscribed to, so that its closing is
   * not heard of, or the greeting may not be sent, which is reported.
   */
  datatype Hitch =
    | Smooth
    | Unclosed(atFirst: Reaction, atPause: Reaction)
    | Unheard(atFirst: Reaction, atPause: Reaction)
    | Unsent(atSend: Reaction, atFirst: Reaction, atPause: Reaction)

  /**
   * `open` are the adopted sockets that are open, `watched` those whose close event is still
   * to come and will be heard. `attempts` counts the calls of `websocket.connect`.
   */
  datatype Bridge = Bridge(
    base: nat, limit: nat, cap: nat,
    socket: Option<nat>, open: set<nat>, watched: set<nat>,
    stopped: bool, suspended: bool, connecting: bool, retry: Option<nat>,
    failures: nat, reported: bool, nextSocket: nat, attempts: nat)
  {
    predicate Connected() { socket.Some? && socket.value in open }

    /** The bridge is supposed to be at work. */
    predicate Running() { !stopped && !suspended }
  }

  function Created(base: nat, limit: nat, cap: nat): Bridge {
    Bridge(base, limit, cap, None, {}, {}, true, false, false, None, 0, false, 0, 0)
  }

  datatype Event =
    | Start
    | Stop
    | TimerFires
    | ConnectSucceeds(hitch: Hitch)
    | ConnectFails(atFirst: Reaction, atPause: Reaction)
    | SocketDrops(id: nat)
    | CloseArrives(id: nat)

  // ---------- delays ----------

  /** The exponent is capped at 30. */
  function Delay(base: nat, limit: nat, failures: nat): nat {
    Min(base * Doubled(Min(if failures == 0 then 0 else failures - 1, 30)), limit)
  }

  /** From the base on the delay doubles with each failure, within its bounds. */
  lemma DelayDoubles(base: nat, limit: nat, failures: nat)
    requires 1 <= base <= limit
    ensures base <= Delay(base, limit, failures) <= limit
    ensures failures <= 1 ==> Delay(base, limit, failures) == base
    ensures 1 <= failures <= 30 ==>
      Delay(base, limit, failures + 1) == Min(2 * Delay(base, limit, failures), limit)
    ensures failures >= 31 ==> Delay(base, limit, failures + 1) == Delay(base, limit, failures)
  {
    var n := Min(if failures == 0 then 0 else failures - 1, 30);
    AtLeastBase(base, Doubled(n));
    DoubledPositive(n);
    if 1 <= failures <= 30 {
      assert Doubled(failures) == 2 * Doubled(failures - 1);
      assert base * Doubled(failures) == 2 * (base * Doubled(failures - 1));
    }
  }

  lemma AtLeastBase(base: nat, p: nat)
    ensures p >= 1 ==> base * p >= base
  {
    if p >= 1 {
      assert base * p == base + base * (p - 1);
    }
  }

  // ---------- the machine ----------

  /** One attempt at a time, and none while stopped, suspended or connected. */
  function Connect(s: Bridge): Bridge {
    if s.stopped || s.suspended || s.connecting || s.Connected() then s
    else s.(connecting := true, attempts := s.attempts + 1)
  }

  function Schedule(s: Bridge): Bridge {
    if s.stopped || s.suspended || s.retry.Some? then s else s.(retry := Some(Delay(s.base, s.limit, s.failures)))
  }

  function Started(s: Bridge): Bridge {
    if s.Running() then s else Connect(s.(stopped := false, suspended := false, failures := 0, reported := false))
  }

  function StoppedNow(s: Bridge): Bridge {
    s.(stopped := true, suspended := false, retry := None, failures := 0, reported := false, socket := None,
       open := if s.socket.Some? then s.open - {s.socket.value} else s.open)
  }

  function React(s: Bridge, d: Doing): Bridge {
    match d
    case Nothing => s
    case Starts => Started(s)
    case Stops => StoppedNow(s)
    case Restarts => Started(StoppedNow(s))
  }

  datatype Call = CallStart | CallStop

  function Called(s: Bridge, calls: seq<Call>): Bridge
    decreases |calls|
  {
    if calls == [] then s
    else
      var t := Called(s, calls[..|calls| - 1]);
      if calls[|calls| - 1] == CallStart then Started(t) else StoppedNow(t)
  }

  function Essence(calls: seq<Call>): Doing {
    if calls == [] then Nothing
    else if calls[|calls| - 1] == CallStop then Stops
    else if CallStop in calls then Restarts
    else Starts
  }

  /** While an attempt is under way, any calls of `start` and `stop` have one of four effects. */
  lemma {:induction false} AnyCalls(s: Bridge, calls: seq<Call>)
    requires s.connecting
    ensures Called(s, calls) == React(s, Essence(calls))
    decreases |calls|
  {
    if calls != [] {
      var front, last := calls[..|calls| - 1], calls[|calls| - 1];
      AnyCalls(s, front);
      assert calls == front + [last];
      assert CallStop in calls <==> CallStop in front || last == CallStop;
      assert front != [] && front[|front| - 1] == CallStop ==> CallStop in front;
    }
  }

  /** The first failure is reported, and so is the pause. A first report that throws is the end of it. */
  function Failed(s: Bridge, atFirst: Reaction, atPause: Reaction): Bridge {
    var counted := s.(failures := s.failures + 1);
    var told := if counted.reported then counted else React(counted.(reported := true), atFirst.doing);
    if !counted.reported && atFirst.throws then told
    else if told.failures >= told.cap then React(told.(suspended := true), atPause.doing)
    else Schedule(told)
  }

  function Adopted(s: Bridge, heard: bool): Bridge {
    s.(socket := Some(s.nextSocket), open := s.open + {s.nextSocket},
       watched := if heard then s.watched + {s.nextSocket} else s.watched,
       nextSocket := s.nextSocket + 1, failures := 0, reported := false)
  }

  /** The rest of a successful attempt. */
  function Greeted(s: Bridge, hitch: Hitch): Bridge {
    match hitch
    case Smooth => Adopted(s, true)
    case Unclosed(_, _) => Adopted(s, true)
    case Unheard(atFirst, atPause) => Failed(Adopted(s, false), atFirst, atPause)
    case Unsent(atSend, atFirst, atPause) =>
      var told := React(Adopted(s, true), atSend.doing);
      if atSend.throws then Failed(told, atFirst, atPause) else told
  }

  /** A socket that comes too late is closed. */
  function Discarded(s: Bridge, hitch: Hitch): Bridge {
    if hitch.Unclosed? then Failed(s, hitch.atFirst, hitch.atPause) else s
  }

  predicate Possible(s: Bridge, e: Event) {
    match e
    case TimerFires => s.retry.Some?
    case ConnectSucceeds(_) => s.connecting
    case ConnectFails(_, _) => s.connecting
    case SocketDrops(id) => id in s.open
    case CloseArrives(id) => id in s.watched && id !in s.open
    case _ => true
  }

  function Next(s: Bridge, e: Event): Bridge {
    match e
    case Start => Started(s)
    case Stop => StoppedNow(s)
    case TimerFires => Connect(s.(retry := None))
    case ConnectSucceeds(hitch) => (if s.stopped then Discarded(s, hitch) else Greeted(s, hitch)).(connecting := false)
    case ConnectFails(atFirst, atPause) => Failed(s, atFirst, atPause).(connecting := false)
    case SocketDrops(id) => s.(open := s.open - {id})
    case CloseArrives(id) => Schedule(s.(watched := s.watched - {id}, socket := if s.socket == Some(id) then None else s.socket))
  }

  // ---------- what always holds ----------

  /** At most one adopted socket is open, and a retry is never too early or too late. */
  predicate Orderly(s: Bridge) {
    && 1 <= s.base <= s.limit && s.cap >= 1
    && (forall id :: id in s.watched ==> id < s.nextSocket) && (forall id :: id in s.open ==> id < s.nextSocket)
    && (forall id :: id in s.open ==> s.socket == Some(id))
    && (s.retry.Some? ==> s.base <= s.retry.value <= s.limit)
    && (!s.reported ==> s.failures == 0)
  }

  /** The failures that a run can count: two even if the cap is one, for a first report can throw. */
  function Room(s: Bridge): nat { Max(s.cap, 2) }

  predicate Sound(s: Bridge) {
    && Orderly(s)
    && (s.connecting ==> !s.suspended && s.open == {})
    && s.failures <= Room(s) && (!s.suspended ==> s.failures < Room(s))
  }

  /** The failures never exceed the cap; at the cap the bridge is suspended and attempts nothing. */
  predicate Capped(s: Bridge) { s.failures <= s.cap && (!s.suspended ==> s.failures < s.cap) }

  /** Something is on its way that will bring the bridge back to `connect`. */
  predicate Alive(s: Bridge) { s.Running() ==> s.connecting || s.retry.Some? || s.watched != {} }

  lemma CreatedSound(base: nat, limit: nat, cap: nat)
    requires 1 <= base <= limit && cap >= 1
    ensures var s := Created(base, limit, cap); Sound(s) && Capped(s) && Alive(s) && Heard(s)
  {
  }

  lemma ScheduleOrderly(s: Bridge)
    requires Orderly(s)
    ensures Orderly(Schedule(s))
    ensures var t := Schedule(s);
      t == s.(retry := t.retry) && (t.retry == s.retry || t.Running()) && (t.Running() ==> t.retry.Some?)
  {
    DelayDoubles(s.base, s.limit, s.failures);
  }

  /** A callback from within an attempt that is under way. */
  lemma ReactOrderly(s: Bridge, d: Doing)
    requires Orderly(s) && s.connecting
    ensures var t := React(s, d);
      && Orderly(t) && t.connecting && t.cap == s.cap && t.attempts == s.attempts && t.open <= s.open && t.watched == s.watched
      && ((t.failures == s.failures && t.reported == s.reported && t.suspended == s.suspended && t.stopped == s.stopped
           && t.retry == s.retry && t.socket == s.socket) || (t.failures == 0 && !t.suspended))
  {
  }

  lemma FailedSound(s: Bridge, atFirst: Reaction, atPause: Reaction)
    requires Orderly(s) && s.connecting && !s.suspended && s.failures < Room(s)
    ensures var t := Failed(s, atFirst, atPause);
      Sound(t.(connecting := false)) && t.cap == s.cap && t.attempts == s.attempts && t.watched == s.watched
  {
    hide Orderly, Schedule, React;
    var counted := s.(failures := s.failures + 1);
    var marked := counted.(reported := true);
    Relabelled(s, marked);
    ReactOrderly(marked, atFirst.doing);
    var told := if counted.reported then counted else React(marked, atFirst.doing);
    assert counted.reported ==> counted == marked;
    if !counted.reported && atFirst.throws {
      assert s.failures == 0 by { Unreported(s); }
      Relabelled(told, told.(connecting := false));
    } else if told.failures >= told.cap {
      var paused := told.(suspended := true);
      Relabelled(told, paused);
      ReactOrderly(paused, atPause.doing);
      var t := React(paused, atPause.doing);
      Relabelled(t, t.(connecting := false));
    } else {
      ScheduleOrderly(told);
      Relabelled(Schedule(told), Schedule(told).(connecting := false));
    }
  }

  lemma Unreported(s: Bridge)
    requires Orderly(s)
    ensures !s.reported ==> s.failures == 0
  {
  }

  /** Order does not depend on the flags. */
  lemma Relabelled(s: Bridge, t: Bridge)
    requires Orderly(s) && t == s.(failures := t.failures, reported := t.reported, suspended := t.suspended, connecting := t.connecting)
    requires t.reported || t.failures == 0
    requires t.connecting ==> s.connecting
    ensures Orderly(t)
  {
  }

  lemma AdoptedOrderly(s: Bridge, heard: bool)
    requires Sound(s) && s.connecting
    ensures var t := Adopted(s, heard);
      Orderly(t) && t.connecting && !t.suspended && t.failures == 0 && t.cap == s.cap && t.attempts == s.attempts
  {
  }

  lemma GreetedSound(s: Bridge, hitch: Hitch)
    requires Sound(s) && s.connecting
    ensures var t := Greeted(s, hitch); Sound(t.(connecting := false)) && t.cap == s.cap
  {
    hide Orderly, Failed, React;
    match hitch {
      case Unheard(atFirst, atPause) =>
        AdoptedOrderly(s, false);
        FailedSound(Adopted(s, false), atFirst, atPause);
      case Unsent(atSend, atFirst, atPause) =>
        AdoptedOrderly(s, true);
        ReactOrderly(Adopted(s, true), atSend.doing);
        var told := React(Adopted(s, true), atSend.doing);
        if atSend.throws {
          FailedSound(told, atFirst, atPause);
        } else {
          Unreported(told);
          Relabelled(told, told.(connecting := false));
        }
      case _ =>
        AdoptedOrderly(s, true);
        Relabelled(Adopted(s, true), Adopted(s, true).(connecting := false));
    }
  }

  lemma StepSound(s: Bridge, e: Event)
    requires Sound(s) && Possible(s, e)
    ensures Sound(Next(s, e)) && Next(s, e).cap == s.cap
  {
    hide Failed, Schedule, Greeted;
    match e {
      case ConnectFails(atFirst, atPause) => FailedSound(s, atFirst, atPause);
      case ConnectSucceeds(hitch) =>
        if !s.stopped {
          GreetedSound(s, hitch);
        } else if hitch.Unclosed? {
          FailedSound(s, hitch.atFirst, hitch.atPause);
        }
      case CloseArrives(id) =>
        var t := s.(watched := s.watched - {id}, socket := if s.socket == Some(id) then None else s.socket);
        assert Orderly(t);
        ScheduleOrderly(t);
      case _ =>
    }
  }

  // ---------- the cap ----------

  /** The first report of a failure throws, and what it did leaves the count as it is. */
  predicate ThrowsFirst(s: Bridge, atFirst: Reaction) {
    !s.reported && atFirst.throws && (atFirst.doing == Nothing || (atFirst.doing == Starts && !s.stopped))
  }

  predicate Exceeds(s: Bridge, e: Event) {
    s.cap == 1
    && match e
       case ConnectFails(atFirst, _) => ThrowsFirst(s, atFirst)
       case ConnectSucceeds(Unclosed(atFirst, _)) => s.stopped && ThrowsFirst(s, atFirst)
       case ConnectSucceeds(Unheard(atFirst, _)) => !s.stopped && ThrowsFirst(Adopted(s, false), atFirst)
       case ConnectSucceeds(Unsent(atSend, atFirst, _)) =>
         !s.stopped && atSend.throws && ThrowsFirst(React(Adopted(s, true), atSend.doing), atFirst)
       case _ => false
  }

  lemma FailedCapped(s: Bridge, atFirst: Reaction, atPause: Reaction)
    requires Orderly(s) && Capped(s) && s.connecting && !s.suspended
    ensures Capped(Failed(s, atFirst, atPause)) <==> !(s.cap == 1 && ThrowsFirst(s, atFirst))
  {
    hide Delay;
  }

  /** A step keeps the failures within the cap unless the cap is one and the first report throws. */
  lemma StepCapped(s: Bridge, e: Event)
    requires Sound(s) && Capped(s) && Possible(s, e)
    ensures Capped(Next(s, e)) <==> !Exceeds(s, e)
  {
    hide Failed, React, Delay;
    match e {
      case ConnectFails(atFirst, atPause) => FailedCapped(s, atFirst, atPause);
      case ConnectSucceeds(Unclosed(atFirst, atPause)) => FailedCapped(s, atFirst, atPause);
      case ConnectSucceeds(Unheard(atFirst, atPause)) =>
        AdoptedOrderly(s, false);
        FailedCapped(Adopted(s, false), atFirst, atPause);
      case ConnectSucceeds(Unsent(atSend, atFirst, atPause)) =>
        AdoptedOrderly(s, true);
        ReactOrderly(Adopted(s, true), atSend.doing);
        FailedCapped(React(Adopted(s, true), atSend.doing), atFirst, atPause);
      case _ =>
    }
  }

  // ---------- never stuck ----------

  /**
   * The ways in which a failed attempt leaves nothing to go on with, if there is no socket
   * whose closing will be heard of: the first report throws and the bridge is to run without
   * a retry, or `start` is called from within the report of the pause, which does not connect
   * as the failed attempt still counts as under way.
   */
  predicate FailureStrands(s: Bridge, atFirst: Reaction, atPause: Reaction) {
    s.watched == {}
    && if !s.reported && atFirst.throws then
         atFirst.doing == Restarts
         || (s.retry.None? && (atFirst.doing == Starts || (atFirst.doing == Nothing && !s.stopped)))
       else
         && s.failures + 1 >= s.cap
         && (s.reported || atFirst.doing == Nothing || (atFirst.doing == Starts && !s.stopped))
         && (atPause.doing == Restarts || (atPause.doing == Starts && s.retry.None?))
  }

  /** The open socket's closing will not be heard of, and there is nothing else. */
  predicate Unwatched(s: Bridge) { s.Connected() && s.watched == {} && !s.connecting }

  predicate Strands(s: Bridge, e: Event) {
    match e
    case Start => !s.Running() && s.retry.None? && Unwatched(s)
    case TimerFires => s.Running() && Unwatched(s)
    case ConnectFails(atFirst, atPause) => FailureStrands(s, atFirst, atPause)
    case ConnectSucceeds(Unclosed(atFirst, atPause)) => s.stopped && FailureStrands(s, atFirst, atPause)
    case ConnectSucceeds(Unheard(atFirst, atPause)) => !s.stopped && FailureStrands(Adopted(s, false), atFirst, atPause)
    case _ => false
  }

  lemma FailureKeepsAlive(s: Bridge, atFirst: Reaction, atPause: Reaction)
    requires Orderly(s) && s.connecting && !s.suspended
    ensures Alive(Failed(s, atFirst, atPause).(connecting := false)) <==> !FailureStrands(s, atFirst, atPause)
  {
    hide Delay;
  }

  /**
   * A running bridge always has an attempt under way, a retry scheduled or a close event to
   * come, and a step takes that away if and only if `Strands` says so.
   */
  lemma NeverStuck(s: Bridge, e: Event)
    requires Sound(s) && Alive(s) && Possible(s, e)
    ensures Alive(Next(s, e)) <==> !Strands(s, e)
  {
    hide Failed, React, Delay;
    match e {
      case ConnectFails(atFirst, atPause) => FailureKeepsAlive(s, atFirst, atPause);
      case ConnectSucceeds(Unclosed(atFirst, atPause)) => FailureKeepsAlive(s, atFirst, atPause);
      case ConnectSucceeds(Unheard(atFirst, atPause)) =>
        AdoptedOrderly(s, false);
        FailureKeepsAlive(Adopted(s, false), atFirst, atPause);
      case ConnectSucceeds(Unsent(atSend, atFirst, atPause)) =>
        AdoptedOrderly(s, true);
        var adopted := Adopted(s, true);
        ReactOrderly(adopted, atSend.doing);
        FailedSound(React(adopted, atSend.doing), atFirst, atPause);
        assert s.nextSocket in adopted.watched;
      case _ =>
    }
  }

  /** The closing of the adopted socket will be heard of. */
  predicate Heard(s: Bridge) { s.socket.Some? ==> s.socket.value in s.watched }

  /** Reports do not throw, the report of a pause does not start the bridge, and sockets can be subscribed to. */
  predicate Careful(e: Event) {
    match e
    case ConnectFails(atFirst, atPause) => CarefulReports(atFirst, atPause)
    case ConnectSucceeds(Unclosed(atFirst, atPause)) => CarefulReports(atFirst, atPause)
    case ConnectSucceeds(Unheard(_, _)) => false
    case ConnectSucceeds(Unsent(atSend, atFirst, atPause)) => CarefulReports(atFirst, atPause)
    case _ => true
  }

  predicate CarefulReports(atFirst: Reaction, atPause: Reaction) {
    !atFirst.throws && (atPause.doing == Nothing || atPause.doing == Stops)
  }

  lemma CarefulStep(s: Bridge, e: Event)
    requires Sound(s) && Heard(s) && Possible(s, e) && Careful(e)
    ensures !Strands(s, e) && !Exceeds(s, e) && Heard(Next(s, e))
  {
    hide Delay, Failed, React, Orderly;
    match e {
      case ConnectFails(atFirst, atPause) => FailedHeard(s, atFirst, atPause);
      case ConnectSucceeds(Unclosed(atFirst, atPause)) => FailedHeard(s, atFirst, atPause);
      case ConnectSucceeds(Unsent(atSend, atFirst, atPause)) =>
        var adopted := Adopted(s, true);
        ReactHeard(adopted, atSend.doing);
        FailedHeard(React(adopted, atSend.doing), atFirst, atPause);
      case _ =>
    }
  }

  lemma ReactHeard(s: Bridge, d: Doing)
    requires Heard(s)
    ensures Heard(React(s, d))
  {
  }

  lemma FailedHeard(s: Bridge, atFirst: Reaction, atPause: Reaction)
    requires Heard(s)
    ensures Heard(Failed(s, atFirst, atPause))
  {
    hide Delay;
  }

  /** An attempt is made only by `start` or by a retry of a running bridge. */
  lemma OnlyRunningConnects(s: Bridge, e: Event)
    requires Sound(s) && Possible(s, e) && Next(s, e).attempts != s.attempts
    ensures Next(s, e).attempts == s.attempts + 1 && !s.connecting && !s.Connected()
    ensures e.Start? || (e.TimerFires? && s.Running())
  {
    hide Delay, Failed, React, Orderly;
    match e {
      case ConnectFails(atFirst, atPause) => FailedSound(s, atFirst, atPause);
      case ConnectSucceeds(Unclosed(atFirst, atPause)) => FailedSound(s, atFirst, atPause);
      case ConnectSucceeds(Unheard(atFirst, atPause)) =>
        AdoptedOrderly(s, false);
        FailedSound(Adopted(s, false), atFirst, atPause);
      case ConnectSucceeds(Unsent(atSend, atFirst, atPause)) =>
        AdoptedOrderly(s, true);
        ReactOrderly(Adopted(s, true), atSend.doing);
        FailedSound(React(Adopted(s, true), atSend.doing), atFirst, atPause);
      case _ =>
    }
  }

  // ---------- what each event does ----------

  /** A report that neither throws nor uses the bridge. */
  const QUIET: Reaction := Reaction(Nothing, false)

  /** `start` wakes a bridge that is stopped or paused, with nothing to remember; otherwise it does nothing. */
  lemma StartWakes(s: Bridge)
    requires Sound(s)
    ensures s.Running() ==> Next(s, Start) == s
    ensures !s.Running() ==>
      var t := Next(s, Start);
      && t.Running() && t.failures == 0 && !t.reported && t.socket == s.socket && t.open == s.open
      && (!s.connecting && s.open == {} ==> t.connecting && t.attempts == s.attempts + 1)
  {
  }

  /** `stop` leaves no socket open, no retry and nothing to remember. */
  lemma StopQuiets(s: Bridge)
    requires Sound(s)
    ensures var t := Next(s, Stop);
      && t.stopped && !t.suspended && t.open == {} && t.socket == None && t.retry == None && t.failures == 0 && !t.reported
      && t.attempts == s.attempts && t.connecting == s.connecting && t.watched == s.watched
  {
  }

  /** The retry of a running bridge without a socket is an attempt. */
  lemma RetryConnects(s: Bridge)
    requires Sound(s) && s.retry.Some?
    ensures Possible(s, TimerFires)
    ensures var t := Next(s, TimerFires);
      && t.retry == None
      && (s.Running() && !s.connecting && s.open == {} ==> t.connecting && t.attempts == s.attempts + 1)
      && (!s.Running() ==> t.connecting == s.connecting && t.attempts == s.attempts)
  {
  }

  /** A socket in time is the open one, and the failures are forgotten; one that comes too late is not kept. */
  lemma SuccessAdopts(s: Bridge)
    requires Sound(s) && s.connecting
    ensures Possible(s, ConnectSucceeds(Smooth))
    ensures var t := Next(s, ConnectSucceeds(Smooth));
      && !t.connecting
      && (!s.stopped ==>
            && t.Connected() && t.socket == Some(s.nextSocket) && t.open == {s.nextSocket} && s.nextSocket in t.watched
            && t.failures == 0 && !t.reported)
      && (s.stopped ==> t == s.(connecting := false))
  {
  }

  /** A quiet failure below the cap is counted and retried after its delay; at the cap the bridge pauses instead. */
  lemma FailureBacksOff(s: Bridge)
    requires Sound(s) && s.connecting && s.Running() && s.retry == None
    ensures Possible(s, ConnectFails(QUIET, QUIET))
    ensures var t := Next(s, ConnectFails(QUIET, QUIET));
      && !t.connecting && t.failures == s.failures + 1 && t.reported && t.attempts == s.attempts && !t.stopped
      && (s.failures + 1 < s.cap ==> !t.suspended && t.retry == Some(Delay(s.base, s.limit, s.failures + 1)))
      && (s.failures + 1 >= s.cap ==> t.suspended && t.retry == None)
  {
    hide Delay;
  }

  /** When the open socket drops and its closing is heard of, a running bridge schedules a retry. */
  lemma CloseRetries(s: Bridge, id: nat)
    requires Sound(s) && s.socket == Some(id) && id in s.watched
    ensures id in s.open ==> Possible(s, SocketDrops(id)) && Next(s, SocketDrops(id)) == s.(open := s.open - {id})
    ensures Possible(s, CloseArrives(id)) <==> id !in s.open
    ensures var t := Next(s, CloseArrives(id));
      && t.socket == None && id !in t.watched && t.attempts == s.attempts
      && (s.Running() && s.retry == None ==> t.retry == Some(Delay(s.base, s.limit, s.failures)))
      && (!s.Running() ==> t.retry == s.retry)
  {
    hide Delay;
  }

  /** A new bridge during its attempt number `n + 1`, all earlier ones having failed. */
  function Trying(s: Bridge, n: nat): Bridge {
    if n == 0 then Next(s, Start) else Next(Next(Trying(s, n - 1), ConnectFails(QUIET, QUIET)), TimerFires)
  }

  /** The retry after the n-th failure in a row waits for the base delay, doubled n - 1 times within the limit; the last failure pauses. */
  lemma {:induction false} FailuresInARow(base: nat, limit: nat, cap: nat, n: nat)
    requires 1 <= base <= limit && n < cap
    ensures var s := Trying(Created(base, limit, cap), n);
      && Sound(s) && s.connecting && s.Running() && s.retry == None && s.failures == n && s.attempts == n + 1
      && s.base == base && s.limit == limit && s.cap == cap && s.open == {}
    ensures var t := Next(Trying(Created(base, limit, cap), n), ConnectFails(QUIET, QUIET));
      if n + 1 < cap then t.Running() && t.retry == Some(Min(base * Doubled(Min(n, 30)), limit)) else t.suspended && t.retry == None
  {
    hide Next, Doubled, Orderly;
    var first := Created(base, limit, cap);
    if n == 0 {
      CreatedSound(base, limit, cap);
      StepSound(first, Start);
      StartWakes(first);
      StartKeeps(first);
    } else {
      FailuresInARow(base, limit, cap, n - 1);
      var before := Trying(first, n - 1);
      FailureBacksOff(before);
      StepSound(before, ConnectFails(QUIET, QUIET));
      FailureKeeps(before);
      var waiting := Next(before, ConnectFails(QUIET, QUIET));
      StepSound(waiting, TimerFires);
      RetryConnects(waiting);
      RetryKeeps(waiting);
    }
    FailureBacksOff(Trying(first, n));
  }

  lemma StartKeeps(s: Bridge)
    ensures var t := Next(s, Start); t.base == s.base && t.limit == s.limit && t.cap == s.cap && t.retry == s.retry
  {
  }

  lemma FailureKeeps(s: Bridge)
    ensures var t := Next(s, ConnectFails(QUIET, QUIET));
      t.base == s.base && t.limit == s.limit && t.cap == s.cap && t.open == s.open && t.stopped == s.stopped
  {
    hide Delay;
  }

  lemma RetryKeeps(s: Bridge)
    ensures var t := Next(s, TimerFires);
      && t.base == s.base && t.limit == s.limit && t.cap == s.cap && t.open == s.open && t.failures == s.failures
      && t.stopped == s.stopped && t.suspended == s.suspended
  {
  }

  // ---------- runs ----------

  function StateAt(s: Bridge, run: seq<Event>, k: nat): Bridge
    requires k <= |run|
  {
    if k == 0 then s else Next(StateAt(s, run, k - 1), run[k - 1])
  }

  predicate Happens(s: Bridge, run: seq<Event>) {
    forall k :: 0 <= k < |run| ==> Possible(StateAt(s, run, k), run[k])
  }

  lemma {:induction false} AlwaysSound(s: Bridge, run: seq<Event>, k: nat)
    requires Sound(s) && Happens(s, run) && k <= |run|
    ensures Sound(StateAt(s, run, k)) && StateAt(s, run, k).cap == s.cap
  {
    hide Sound, Possible, Next;
    if k > 0 {
      AlwaysSound(s, run, k - 1);
      StepSound(StateAt(s, run, k - 1), run[k - 1]);
    }
  }

  /**
   * In any run of a new bridge the failures stay within the cap, and below it while the bridge
   * is not paused, as long as no first report throws; with a cap of at least two even then,
   * and with a cap of one there are at most two.
   */
  lemma {:induction false} FailuresBounded(base: nat, limit: nat, cap: nat, run: seq<Event>, k: nat)
    requires 1 <= base <= limit && cap >= 1 && Happens(Created(base, limit, cap), run) && k <= |run|
    ensures StateAt(Created(base, limit, cap), run, k).failures <= Max(cap, 2)
    ensures (forall i :: 0 <= i < k ==> !Exceeds(StateAt(Created(base, limit, cap), run, i), run[i])) ==>
      Capped(StateAt(Created(base, limit, cap), run, k))
    ensures cap >= 2 ==> Capped(StateAt(Created(base, limit, cap), run, k))
  {
    hide Orderly, Possible, Next, Capped;
    var s := Created(base, limit, cap);
    CreatedSound(base, limit, cap);
    AlwaysSound(s, run, k);
    if k > 0 {
      FailuresBounded(base, limit, cap, run, k - 1);
      AlwaysSound(s, run, k - 1);
      if Capped(StateAt(s, run, k - 1)) {
        StepCapped(StateAt(s, run, k - 1), run[k - 1]);
      }
    }
  }

  /** At no point of any careful run is the bridge stuck. */
  lemma {:induction false} AlwaysAlive(s: Bridge, run: seq<Event>, k: nat)
    requires Sound(s) && Alive(s) && Heard(s) && Happens(s, run) && k <= |run|
    requires forall i :: 0 <= i < |run| ==> Careful(run[i])
    ensures Alive(StateAt(s, run, k)) && Heard(StateAt(s, run, k))
  {
    hide Sound, Possible, Next, Careful, Strands, Heard, Exceeds;
    if k > 0 {
      AlwaysAlive(s, run, k - 1);
      AlwaysSound(s, run, k - 1);
      CarefulStep(StateAt(s, run, k - 1), run[k - 1]);
      NeverStuck(StateAt(s, run, k - 1), run[k - 1]);
    }
  }

  /**
   * The first report of a new bridge throws and the bridge is stuck: neither stopped nor paused,
   * with nothing under way, and `start` does nothing.
   */
  lemma ThrowingReportStrands(base: nat, limit: nat, cap: nat, atPause: Reaction)
    requires 1 <= base <= limit && cap >= 1
    ensures var run := [Start, ConnectFails(Reaction(Nothing, true), atPause)];
      var s := Next(Next(Created(base, limit, cap), run[0]), run[1]);
      && Possible(Next(Created(base, limit, cap), run[0]), run[1])
      && s.Running() && !s.connecting && s.retry.None? && s.watched == {} && Next(s, Start) == s
  {
  }

  /** Neither a start nor a success. */
  predicate Unaided(e: Event) {
    && !e.Start? && !e.ConnectSucceeds?
    && (e.ConnectFails? ==> !Begins(e.atFirst.doing) && !Begins(e.atPause.doing))
  }

  predicate Begins(d: Doing) { d == Starts || d == Restarts }

  function InFlight(s: Bridge): nat { if s.connecting then 1 else 0 }

  /** How many attempts there can be at most: each finished one without success is a failure. */
  predicate Within(s: Bridge, room: int, budget: int) {
    s.attempts + (if s.Running() then room - s.failures - InFlight(s) else 0) <= budget
  }

  lemma StepWithin(s: Bridge, e: Event, room: int, budget: int)
    requires Sound(s) && Possible(s, e) && Unaided(e) && Within(s, room, budget)
    requires s.failures <= room && (!s.suspended ==> s.failures < room)
    ensures Within(Next(s, e), room, budget)
  {
    hide Delay;
  }

  /** A bound on the failures at every point of the run bounds the attempts. */
  lemma {:induction false} RunWithin(s: Bridge, run: seq<Event>, k: nat, room: int, budget: int)
    requires Sound(s) && Happens(s, run) && k <= |run| && Within(s, room, budget)
    requires forall i :: 0 <= i < |run| ==> Unaided(run[i])
    requires forall i :: 0 <= i <= |run| ==>
      var t := StateAt(s, run, i); t.failures <= room && (!t.suspended ==> t.failures < room)
    ensures Within(StateAt(s, run, k), room, budget)
  {
    hide Sound, Possible, Next, Within, Unaided;
    if k > 0 {
      RunWithin(s, run, k - 1, room, budget);
      AlwaysSound(s, run, k - 1);
      StepWithin(StateAt(s, run, k - 1), run[k - 1], room, budget);
    }
  }

  lemma {:induction false} StaysCapped(s: Bridge, run: seq<Event>, k: nat)
    requires Sound(s) && Capped(s) && Happens(s, run) && k <= |run|
    requires forall i :: 0 <= i < |run| ==> !Exceeds(StateAt(s, run, i), run[i])
    ensures Capped(StateAt(s, run, k))
  {
    hide Sound, Possible, Next, Capped, Exceeds;
    if k > 0 {
      StaysCapped(s, run, k - 1);
      AlwaysSound(s, run, k - 1);
      StepCapped(StateAt(s, run, k - 1), run[k - 1]);
    }
  }

  /**
   * The bridge never hammers: between one start or success and the next it makes no more
   * attempts than the cap has room for, with one more if the cap is one and the first report
   * throws.
   */
  lemma NeverHammers(s: Bridge, run: seq<Event>)
    requires Sound(s) && Happens(s, run) && forall i :: 0 <= i < |run| ==> Unaided(run[i])
    ensures StateAt(s, run, |run|).attempts <= s.attempts + Room(s) - s.failures
    ensures Capped(s) && (forall i :: 0 <= i < |run| ==> !Exceeds(StateAt(s, run, i), run[i])) ==>
      StateAt(s, run, |run|).attempts <= s.attempts + s.cap - s.failures
  {
    hide Orderly, Next, Possible, Unaided, Exceeds;
    forall i | 0 <= i <= |run|
      ensures var t := StateAt(s, run, i); t.failures <= Room(s) && (!t.suspended ==> t.failures < Room(s))
    {
      AlwaysSound(s, run, i);
    }
    RunWithin(s, run, |run|, Room(s), s.attempts + Room(s) - s.failures);
    if Capped(s) && forall i :: 0 <= i < |run| ==> !Exceeds(StateAt(s, run, i), run[i]) {
      forall i | 0 <= i <= |run|
        ensures var t := StateAt(s, run, i); t.failures <= s.cap && (!t.suspended ==> t.failures < s.cap)
      {
        AlwaysSound(s, run, i);
        StaysCapped(s, run, i);
      }
      RunWithin(s, run, |run|, s.cap, s.attempts + s.cap - s.failures);
    }
  }

  // ---------- the closure ----------

  /** The variables that the callbacks share, and the sockets and timer they are about. */
  class TraceBridge {
    const baseReconnectTicks: nat
    const maxReconnectTicks: nat
    const maxConsecutiveFailures: nat

    var socket: Option<nat>
    var open: set<nat>
    var watched: set<nat>
    var stopped: bool
    var suspended: bool
    var connecting: bool
    var reconnectRun: Option<nat>
    var consecutiveFailures: nat
    var connectFailureReported: bool
    var nextSocket: nat
    ghost var attempts: nat

    ghost function State(): Bridge
      reads this
    {
      Bridge(baseReconnectTicks, maxReconnectTicks, maxConsecutiveFailures, socket, open, watched,
             stopped, suspended, connecting, reconnectRun, consecutiveFailures, connectFailureReported, nextSocket, attempts)
    }

    /** Options out of range are raised to the least that makes sense. */
    constructor (reconnectTicks: int, maxReconnectTicks: int, maxConsecutiveFailures: int)
      ensures Sound(State()) && Capped(State()) && Alive(State()) && Heard(State()) && stopped
      ensures var base := if reconnectTicks >= 1 then reconnectTicks else 1;
        State() == Created(base, if maxReconnectTicks >= base then maxReconnectTicks else base,
                           if maxConsecutiveFailures >= 1 then maxConsecutiveFailures else 1)
    {
      var base := if reconnectTicks >= 1 then reconnectTicks else 1;
      baseReconnectTicks := base;
      this.maxReconnectTicks := if maxReconnectTicks >= base then maxReconnectTicks else base;
      this.maxConsecutiveFailures := if maxConsecutiveFailures >= 1 then maxConsecutiveFailures else 1;
      socket, open, watched, stopped, suspended, connecting := None, {}, {}, true, false, false;
      reconnectRun, consecutiveFailures, connectFailureReported, nextSocket, attempts := None, 0, false, 0, 0;
    }

    method BeginConnect()
      modifies this
      ensures State() == Connect(old(State()))
    {
      if stopped || suspended || connecting || (socket.Some? && socket.value in open) { return; }
      connecting := true;
      attempts := attempts + 1;
    }

    method ScheduleReconnect()
      modifies `reconnectRun
      ensures State() == Schedule(old(State()))
    {
      if stopped || suspended || reconnectRun.Some? { return; }
      reconnectRun := Some(Delay(baseReconnectTicks, maxReconnectTicks, consecutiveFailures));
    }

    method Start()
      modifies this
      ensures State() == Started(old(State()))
    {
      if !stopped && !suspended { return; }
      stopped, suspended := false, false;
      consecutiveFailures, connectFailureReported := 0, false;
      BeginConnect();
    }

    method Stop()
      modifies this
      ensures State() == StoppedNow(old(State()))
    {
      stopped, suspended := true, false;
      if reconnectRun.Some? {
        reconnectRun := None;
      }
      if socket.Some? {
        open := open - {socket.value};
      }
      socket := None;
      consecutiveFailures, connectFailureReported := 0, false;
    }

    /** The owner's `onError`. */
    method Report(d: Doing)
      modifies this
      ensures State() == React(old(State()), d)
    {
      match d {
        case Nothing =>
        case Starts => Start();
        case Stops => Stop();
        case Restarts => Stop(); Start();
      }
    }

    /** Left at once when the first report throws. */
    method Fail(atFirst: Reaction, atPause: Reaction)
      modifies this
      ensures State() == Failed(old(State()), atFirst, atPause)
    {
      hide React, Schedule;
      consecutiveFailures := consecutiveFailures + 1;
      if !connectFailureReported {
        connectFailureReported := true;
        Report(atFirst.doing);
        if atFirst.throws { return; }
      }
      if consecutiveFailures >= maxConsecutiveFailures {
        suspended := true;
        Report(atPause.doing);
        return;
      }
      ScheduleReconnect();
    }

    /** The socket is adopted before its events are subscribed to and the greeting is sent. */
    method Adopt(hitch: Hitch)
      modifies this
      ensures State() == Greeted(old(State()), hitch)
    {
      hide React, Failed;
      var next := nextSocket;
      nextSocket := nextSocket + 1;
      socket, open := Some(next), open + {next};
      consecutiveFailures, connectFailureReported := 0, false;
      if hitch.Unheard? {
        Fail(hitch.atFirst, hitch.atPause);
        return;
      }
      watched := watched + {next};
      if hitch.Unsent? {
        Report(hitch.atSend.doing);
        if hitch.atSend.throws {
          Fail(hitch.atFirst, hitch.atPause);
        }
      }
    }

    /** The rest of `connect`, once the attempt has an outcome. */
    method FinishConnect(e: Event)
      requires Sound(State()) && Possible(State(), e) && (e.ConnectSucceeds? || e.ConnectFails?)
      modifies this
      ensures State() == Next(old(State()), e) && Sound(State())
    {
      hide Sound, Greeted, Failed;
      StepSound(State(), e);
      match e {
        case ConnectSucceeds(hitch) =>
          if !stopped {
            Adopt(hitch);
          } else if hitch.Unclosed? {
            Fail(hitch.atFirst, hitch.atPause);
          }
        case ConnectFails(atFirst, atPause) => Fail(atFirst, atPause);
        case _ =>
      }
      connecting := false;
    }

    method OnTimer()
      requires Sound(State()) && Possible(State(), TimerFires)
      modifies this
      ensures State() == Next(old(State()), TimerFires) && Sound(State())
    {
      StepSound(State(), TimerFires);
      reconnectRun := None;
      BeginConnect();
    }

    method OnClose(id: nat)
      requires Sound(State()) && Possible(State(), CloseArrives(id))
      modifies this
      ensures State() == Next(old(State()), CloseArrives(id)) && Sound(State())
    {
      StepSound(State(), CloseArrives(id));
      watched := watched - {id};
      if socket == Some(id) {
        socket := None;
      }
      ScheduleReconnect();
    }
  }
}
