/** The runner table of packages/core/src/Runner: scripts with their waits, jobs with their promises. */
module Runners {
  datatype Verdict = Resolved | Rejected

  /**
   * A generator under `runJob`. `verdicts` are the settlements its promise has really seen,
   * `turns` counts the resumptions of the generator itself, `tidied` says that the
   * promise's `finally` has run.
   */
  datatype Job = Job(
    settled: bool, verdicts: seq<Verdict>, started: bool, finished: bool, cleared: bool, tidied: bool, turns: nat)

  datatype Wait = Pending | Fulfilled | Aborted

  /** A script under `run`; `passed` counts the waits that let it go on. */
  datatype Script = Script(cancelled: bool, finished: bool, waits: map<nat, Wait>, passed: nat)

  /** `runners` are the keys of the table. Identities are never used twice. */
  datatype Manager = Manager(runners: set<nat>, nextId: nat, jobs: map<nat, Job>, scripts: map<nat, Script>)

  const NO_RUNNERS := Manager({}, 0, map[], map[])

  datatype Call = RunJob | Run | Cancel(id: nat) | Dispose

  datatype End = Yields | Returns | Throws

  /**
   * A call from outside, the engine resuming a job (whose generator makes calls before it
   * yields, returns or throws), a `finally`, and what happens to scripts.
   */
  datatype Event =
    | Calls(call: Call)
    | Turn(id: nat, during: seq<Call>, end: End)
    | Tidies(id: nat)
    | Waits(id: nat)
    | TimerEnds(id: nat, wait: nat)
    | WaitReturns(id: nat, wait: nat)
    | Finishes(id: nat)

  // ---------- steps ----------

  const NEW_JOB := Job(false, [], false, false, false, false, 0)
  const NEW_SCRIPT := Script(false, false, map[], 0)

  /** Only the first settlement counts. */
  function Settle(j: Job, v: Verdict): Job {
    if j.settled then j else j.(settled := true, verdicts := j.verdicts + [v])
  }

  function CancelJob(j: Job): Job { Settle(j.(cleared := true), Resolved) }

  function Abort(waits: map<nat, Wait>): map<nat, Wait> {
    map w | w in waits :: if waits[w].Pending? then Aborted else waits[w]
  }

  function CalledOff(s: Script): Script {
    if s.cancelled then s else s.(cancelled := true, waits := Abort(s.waits))
  }

  /** Every runner of `ids` called off and taken out of the table. */
  function Cancelled(m: Manager, ids: set<nat>): Manager {
    Manager(m.runners - ids, m.nextId,
            map i | i in m.jobs :: if i in ids then CancelJob(m.jobs[i]) else m.jobs[i],
            map i | i in m.scripts :: if i in ids then CalledOff(m.scripts[i]) else m.scripts[i])
  }

  function Perform(m: Manager, call: Call): Manager {
    match call
    case RunJob => Manager(m.runners + {m.nextId}, m.nextId + 1, m.jobs[m.nextId := NEW_JOB], m.scripts)
    case Run => Manager(m.runners + {m.nextId}, m.nextId + 1, m.jobs, m.scripts[m.nextId := NEW_SCRIPT])
    case Cancel(id) => if id in m.runners then Cancelled(m, {id}) else m
    case Dispose => Cancelled(m, m.runners)
  }

  function PerformAll(m: Manager, calls: seq<Call>): Manager
    decreases calls
  {
    if calls == [] then m else PerformAll(Perform(m, calls[0]), calls[1..])
  }

  /** How the wrapper goes on after its generator. */
  function Ended(j: Job, end: End): Job {
    match end
    case Yields => j
    case Returns => Settle(j.(finished := true), Resolved)
    case Throws => Settle(j.(finished := true), Rejected)
  }

  function Begun(m: Manager, id: nat): Manager
    requires id in m.jobs
  {
    m.(jobs := m.jobs[id := m.jobs[id].(started := true, turns := m.jobs[id].turns + 1)])
  }

  predicate Possible(m: Manager, e: Event) {
    match e
    case Calls(_) => true
    // A job that was cleared while it ran may still be resumed once.
    case Turn(id, _, _) => id in m.jobs && !m.jobs[id].finished && (m.jobs[id].cleared ==> m.jobs[id].started)
    case Tidies(id) => id in m.jobs && m.jobs[id].settled && !m.jobs[id].tidied
    case Waits(id) => id in m.scripts && !m.scripts[id].finished
    case TimerEnds(id, w) => id in m.scripts && w in m.scripts[id].waits
    case WaitReturns(id, w) => id in m.scripts && w in m.scripts[id].waits && !m.scripts[id].waits[w].Pending?
    case Finishes(id) => id in m.scripts && !m.scripts[id].finished
  }

  function Next(m: Manager, e: Event): Manager
    requires Possible(m, e)
  {
    match e
    case Calls(call) => Perform(m, call)
    case Turn(id, during, end) =>
      var j := m.jobs[id];
      if j.started && j.settled then m.(jobs := m.jobs[id := j.(finished := true)])
      else
        var inside := PerformAll(Begun(m, id), during);
        if id in inside.jobs then inside.(jobs := inside.jobs[id := Ended(inside.jobs[id], end)]) else inside
    case Tidies(id) => m.(runners := m.runners - {id}, jobs := m.jobs[id := m.jobs[id].(tidied := true)])
    case Waits(id) =>
      var s := m.scripts[id];
      if s.cancelled then m
      else m.(nextId := m.nextId + 1, scripts := m.scripts[id := s.(waits := s.waits[m.nextId := Pending])])
    case TimerEnds(id, w) =>
      var s := m.scripts[id];
      if s.waits[w].Pending? then m.(scripts := m.scripts[id := s.(waits := s.waits[w := Fulfilled])]) else m
    case WaitReturns(id, w) =>
      var s := m.scripts[id];
      var passes := s.waits[w].Fulfilled? && !s.cancelled;
      m.(scripts := m.scripts[id := s.(waits := s.waits - {w}, passed := if passes then s.passed + 1 else s.passed)])
    case Finishes(id) => m.(runners := m.runners - {id}, scripts := m.scripts[id := m.scripts[id].(finished := true)])
  }

  // ---------- what every step keeps ----------

  /** Settled once at the most; unsettled means listed, listed and settled means about to be tidied. */
  predicate JobSound(j: Job, listed: bool) {
    && |j.verdicts| == (if j.settled then 1 else 0)
    && (!j.settled ==> listed)
    && (listed && j.settled ==> !j.tidied)
    && (j.finished || j.tidied ==> j.settled)
    && (j.settled && !j.started ==> j.cleared)
  }

  predicate ScriptSound(s: Script, listed: bool) {
    && (listed <==> !s.cancelled && !s.finished)
    && (s.cancelled ==> forall w :: w in s.waits ==> !s.waits[w].Pending?)
  }

  predicate Sound(m: Manager) {
    && (forall i :: i in m.runners ==> i in m.jobs || i in m.scripts)
    && (forall i :: i in m.jobs ==> i < m.nextId && i !in m.scripts && JobSound(m.jobs[i], i in m.runners))
    && (forall i :: i in m.scripts ==> i < m.nextId && ScriptSound(m.scripts[i], i in m.runners))
  }

  lemma CancelledSound(m: Manager, ids: set<nat>)
    requires Sound(m) && ids <= m.runners
    ensures Sound(Cancelled(m, ids))
  {
  }

  lemma PerformSound(m: Manager, call: Call)
    requires Sound(m)
    ensures Sound(Perform(m, call))
  {
    match call {
      case Cancel(id) =>
        if id in m.runners {
          CancelledSound(m, {id});
        }
      case Dispose =>
        CancelledSound(m, m.runners);
      case _ =>
    }
  }

  /** What calls never do to a job: take back or add to its verdict, resume it, or end it. */
  predicate Later(j: Job, j': Job) {
    && (j.settled ==> j'.settled && j'.verdicts == j.verdicts)
    && j'.turns == j.turns && j'.started == j.started && j'.finished == j.finished
  }

  lemma {:induction false} PerformAllSound(m: Manager, calls: seq<Call>, id: nat)
    requires Sound(m) && id in m.jobs
    ensures Sound(PerformAll(m, calls))
    ensures id in PerformAll(m, calls).jobs && Later(m.jobs[id], PerformAll(m, calls).jobs[id])
    decreases calls
  {
    if calls != [] {
      hide Sound;
      PerformSound(m, calls[0]);
      KeepsJob(m, calls[0], id);
      PerformAllSound(Perform(m, calls[0]), calls[1..], id);
    }
  }

  lemma KeepsJob(m: Manager, call: Call, id: nat)
    requires Sound(m) && id in m.jobs
    ensures id in Perform(m, call).jobs && Later(m.jobs[id], Perform(m, call).jobs[id])
  {
  }

  lemma ChangedJob(m: Manager, id: nat, j: Job)
    requires Sound(m) && id in m.jobs && JobSound(j, id in m.runners)
    ensures Sound(m.(jobs := m.jobs[id := j]))
  {
  }

  lemma BegunSound(m: Manager, id: nat)
    requires Sound(m) && id in m.jobs && (m.jobs[id].cleared ==> m.jobs[id].started)
    ensures Sound(Begun(m, id))
  {
    assert JobSound(m.jobs[id], id in m.runners);
    ChangedJob(m, id, Begun(m, id).jobs[id]);
  }

  lemma ChangedScript(m: Manager, id: nat, s: Script, runners: set<nat>, nextId: nat)
    requires Sound(m) && id in m.scripts && nextId >= m.nextId
    requires runners == m.runners || runners == m.runners - {id}
    requires ScriptSound(s, id in runners)
    ensures Sound(m.(runners := runners, nextId := nextId, scripts := m.scripts[id := s]))
  {
  }

  lemma StepSound(m: Manager, e: Event)
    requires Sound(m) && Possible(m, e)
    ensures Sound(Next(m, e))
  {
    match e {
      case Calls(call) => PerformSound(m, call);
      case Turn(id, during, end) => TurnSound(m, id, during, end);
      case Tidies(_) =>
      case Waits(id) => ScriptStepSound(m, e, id);
      case TimerEnds(id, _) => ScriptStepSound(m, e, id);
      case WaitReturns(id, _) => ScriptStepSound(m, e, id);
      case Finishes(id) => ScriptStepSound(m, e, id);
    }
  }

  lemma ScriptStepSound(m: Manager, e: Event, id: nat)
    requires Sound(m) && Possible(m, e) && (e.Waits? || e.TimerEnds? || e.WaitReturns? || e.Finishes?) && id == e.id
    ensures Sound(Next(m, e))
  {
    var m' := Next(m, e);
    assert ScriptSound(m.scripts[id], id in m.runners);
    assert ScriptSound(m'.scripts[id], id in m'.runners);
    ChangedScript(m, id, m'.scripts[id], m'.runners, m'.nextId);
    assert m.scripts[id := m.scripts[id]] == m.scripts;
  }

  lemma TurnSound(m: Manager, id: nat, during: seq<Call>, end: End)
    requires Sound(m) && Possible(m, Turn(id, during, end))
    ensures Sound(Next(m, Turn(id, during, end)))
  {
    var j := m.jobs[id];
    assert JobSound(j, id in m.runners);
    if j.started && j.settled {
      ChangedJob(m, id, j.(finished := true));
    } else {
      BegunSound(m, id);
      PerformAllSound(Begun(m, id), during, id);
      var inside := PerformAll(Begun(m, id), during);
      ChangedJob(inside, id, Ended(inside.jobs[id], end));
    }
  }

  // ---------- runs ----------

  function StateAt(m: Manager, run: seq<Event>, k: nat): Manager
    requires Happens(m, run) && k <= |run|
    decreases run, k
  {
    if k == 0 then m else StateAt(Next(m, run[0]), run[1..], k - 1)
  }

  predicate Happens(m: Manager, run: seq<Event>)
    decreases run
  {
    run == [] || (Possible(m, run[0]) && Happens(Next(m, run[0]), run[1..]))
  }

  /** At every point of every run nothing unsettled is out of reach of `cancel` and `dispose`. */
  lemma {:induction false} AlwaysSound(m: Manager, run: seq<Event>, k: nat)
    requires Sound(m) && Happens(m, run) && k <= |run|
    ensures Sound(StateAt(m, run, k))
    decreases run
  {
    hide Sound, Possible, Next;
    if k > 0 {
      StepSound(m, run[0]);
      AlwaysSound(Next(m, run[0]), run[1..], k - 1);
    }
  }

  /** A settled job: its promise keeps its one verdict and its generator is not resumed again. */
  lemma SettledForGood(m: Manager, e: Event, id: nat)
    requires Sound(m) && Possible(m, e) && id in m.jobs
    ensures id in Next(m, e).jobs
    ensures var j, j' := m.jobs[id], Next(m, e).jobs[id];
      j.settled ==> j'.settled && j'.verdicts == j.verdicts && j'.turns == j.turns
  {
    assert JobSound(m.jobs[id], id in m.runners);
    match e {
      case Calls(call) => KeepsJob(m, call, id);
      case Turn(turning, during, end) =>
        var j := m.jobs[turning];
        if !(j.started && j.settled) {
          BegunSound(m, turning);
          PerformAllSound(Begun(m, turning), during, id);
          PerformAllSound(Begun(m, turning), during, turning);
        }
      case _ =>
    }
  }

  lemma {:induction false} SettledInRun(m: Manager, run: seq<Event>, k: nat, id: nat)
    requires Sound(m) && Happens(m, run) && k <= |run| && id in m.jobs && m.jobs[id].settled
    ensures id in StateAt(m, run, k).jobs
    ensures var j, j' := m.jobs[id], StateAt(m, run, k).jobs[id];
      j'.settled && j'.verdicts == j.verdicts && |j.verdicts| == 1 && j'.turns == j.turns
    decreases run
  {
    assert JobSound(m.jobs[id], id in m.runners);
    if k > 0 {
      hide Sound, Possible, Next;
      SettledForGood(m, run[0], id);
      StepSound(m, run[0]);
      SettledInRun(Next(m, run[0]), run[1..], k - 1, id);
    }
  }

  /** A cancelled script is let through no wait, whenever the engine's timers end. */
  lemma {:induction false} CancelledInRun(m: Manager, run: seq<Event>, k: nat, id: nat)
    requires Sound(m) && Happens(m, run) && k <= |run| && id in m.scripts && m.scripts[id].cancelled
    ensures id in StateAt(m, run, k).scripts
    ensures var s, s' := m.scripts[id], StateAt(m, run, k).scripts[id]; s'.cancelled && s'.passed == s.passed
    decreases run
  {
    if k > 0 {
      hide Sound, Possible, Next;
      CancelledStays(m, run[0], id);
      StepSound(m, run[0]);
      CancelledInRun(Next(m, run[0]), run[1..], k - 1, id);
    }
  }

  lemma CancelledStays(m: Manager, e: Event, id: nat)
    requires Sound(m) && Possible(m, e) && id in m.scripts && m.scripts[id].cancelled
    ensures id in Next(m, e).scripts
    ensures var s, s' := m.scripts[id], Next(m, e).scripts[id]; s'.cancelled && s'.passed == s.passed
  {
    match e {
      case Calls(call) => KeepsCancelled(m, call, id);
      case Turn(turning, during, end) =>
        var j := m.jobs[turning];
        if !(j.started && j.settled) {
          BegunSound(m, turning);
          CancelledThrough(Begun(m, turning), during, id);
        }
      case _ =>
    }
  }

  lemma KeepsCancelled(m: Manager, call: Call, id: nat)
    requires Sound(m) && id in m.scripts && m.scripts[id].cancelled
    ensures id in Perform(m, call).scripts && Perform(m, call).scripts[id] == m.scripts[id]
  {
  }

  lemma {:induction false} CancelledThrough(m: Manager, calls: seq<Call>, id: nat)
    requires Sound(m) && id in m.scripts && m.scripts[id].cancelled
    ensures id in PerformAll(m, calls).scripts && PerformAll(m, calls).scripts[id] == m.scripts[id]
    decreases calls
  {
    if calls != [] {
      hide Sound, Perform;
      PerformSound(m, calls[0]);
      KeepsCancelled(m, calls[0], id);
      CancelledThrough(Perform(m, calls[0]), calls[1..], id);
    }
  }

  /** After `dispose` every promise is settled, every script called off or over, no wait pending. */
  lemma DisposedSettles(m: Manager)
    requires Sound(m)
    ensures var m' := Perform(m, Dispose);
      && m'.runners == {}
      && (forall i :: i in m.jobs ==> i in m'.jobs && m'.jobs[i].settled && |m'.jobs[i].verdicts| == 1)
      && (forall i :: i in m.scripts ==> i in m'.scripts && (m'.scripts[i].cancelled || m'.scripts[i].finished))
      && (forall i, w :: i in m'.scripts && w in m'.scripts[i].waits && m'.scripts[i].waits[w].Pending? ==>
            m.scripts[i].finished)
  {
    CancelledSound(m, m.runners);
    forall i | i in m.jobs
      ensures JobSound(Perform(m, Dispose).jobs[i], false)
    {
      assert JobSound(m.jobs[i], i in m.runners);
    }
    forall i | i in m.scripts
      ensures ScriptSound(Perform(m, Dispose).scripts[i], false)
    {
      assert ScriptSound(m.scripts[i], i in m.runners);
    }
  }

  /**
   * A cancel that finds a job which has just settled, but whose `finally` has not run, leaves
   * the verdict as it is and still counts as a cancel.
   */
  lemma CancelSettles(m: Manager, id: nat)
    requires Sound(m) && id in m.jobs && id in m.runners
    ensures var j, j' := m.jobs[id], Perform(m, Cancel(id)).jobs[id];
      j'.settled && j'.verdicts == if j.settled then j.verdicts else [Resolved]
    ensures id !in Perform(m, Cancel(id)).runners
  {
    assert JobSound(m.jobs[id], true);
  }

  /** The calls that settle a listed job. */
  predicate CallsOff(call: Call, id: nat) { call == Cancel(id) || call == Dispose }

  lemma {:induction false} SettledWithin(m: Manager, calls: seq<Call>, id: nat)
    requires Sound(m) && id in m.jobs && !m.jobs[id].settled
    ensures id in PerformAll(m, calls).jobs
    ensures PerformAll(m, calls).jobs[id].verdicts == if exists c :: c in calls && CallsOff(c, id) then [Resolved] else []
    ensures PerformAll(m, calls).jobs[id].settled <==> exists c :: c in calls && CallsOff(c, id)
    decreases calls
  {
    assert JobSound(m.jobs[id], id in m.runners);
    if calls != [] {
      assert forall c :: c in calls <==> c == calls[0] || c in calls[1..];
      var next := Perform(m, calls[0]);
      PerformSound(m, calls[0]);
      KeepsJob(m, calls[0], id);
      if CallsOff(calls[0], id) {
        assert next.jobs[id] == CancelJob(m.jobs[id]);
        PerformAllSound(next, calls[1..], id);
      } else {
        assert next.jobs[id] == m.jobs[id];
        SettledWithin(next, calls[1..], id);
      }
    }
  }

  /**
   * An error that a generator throws is the verdict of its promise if and only if nothing
   * that the generator did in that turn called its own job off. Otherwise it is lost.
   */
  lemma OwnErrorIsLost(m: Manager, id: nat, during: seq<Call>)
    requires Sound(m) && Possible(m, Turn(id, during, Throws)) && !m.jobs[id].settled
    ensures id in Next(m, Turn(id, during, Throws)).jobs
    ensures var called, verdicts := exists c :: c in during && CallsOff(c, id), Next(m, Turn(id, during, Throws)).jobs[id].verdicts;
      verdicts == if called then [Resolved] else [Rejected]
  {
    BegunSound(m, id);
    SettledWithin(Begun(m, id), during, id);
  }

  /** Such a turn is possible from the start. */
  lemma LosesItsError()
    ensures var m, turn := Perform(NO_RUNNERS, RunJob), Turn(0, [Cancel(0)], Throws);
      Possible(m, turn) && 0 in Next(m, turn).jobs && Next(m, turn).jobs[0].verdicts == [Resolved]
  {
    var m := Perform(NO_RUNNERS, RunJob);
    assert Cancel(0) in [Cancel(0)] && CallsOff(Cancel(0), 0);
    OwnErrorIsLost(m, 0, [Cancel(0)]);
  }

  // ---------- what each event does ----------

  /** Any call can come at any time. */
  lemma CallsArePerformed(m: Manager, call: Call)
    ensures Possible(m, Calls(call)) && Next(m, Calls(call)) == Perform(m, call)
  {
  }

  /** A new runner is listed under an identity of its own, and the others stay as they are. */
  lemma RunsAnew(m: Manager)
    requires Sound(m)
    ensures var job := Perform(m, RunJob);
      && m.nextId !in m.runners && m.nextId !in m.jobs && m.nextId !in m.scripts
      && job.runners == m.runners + {m.nextId} && job.scripts == m.scripts
      && job.jobs == m.jobs[m.nextId := Job(false, [], false, false, false, false, 0)]
    ensures var script := Perform(m, Run);
      && script.runners == m.runners + {m.nextId} && script.jobs == m.jobs
      && script.scripts == m.scripts[m.nextId := Script(false, false, map[], 0)]
  {
  }

  /** A turn of an unsettled job that nothing calls off: one resumption, and the verdict that its end stands for. */
  lemma TurnDecides(m: Manager, id: nat, during: seq<Call>, end: End)
    requires Sound(m) && id in m.jobs && !m.jobs[id].settled && !m.jobs[id].finished && !m.jobs[id].cleared
    requires forall c :: c in during ==> !CallsOff(c, id)
    ensures Possible(m, Turn(id, during, end)) && id in Next(m, Turn(id, during, end)).jobs
    ensures var j, j' := m.jobs[id], Next(m, Turn(id, during, end)).jobs[id];
      && j'.verdicts == (match end case Yields => [] case Returns => [Resolved] case Throws => [Rejected])
      && (j'.settled <==> end != Yields) && (j'.finished <==> end != Yields) && j'.turns == j.turns + 1 && j'.started
    ensures Next(m, Turn(id, during, end)).runners == PerformAll(Begun(m, id), during).runners
  {
    BegunSound(m, id);
    SettledWithin(Begun(m, id), during, id);
    PerformAllSound(Begun(m, id), during, id);
  }

  /** A job that is already settled is over with its next turn, and its generator is not resumed. */
  lemma TurnIsOver(m: Manager, id: nat, during: seq<Call>, end: End)
    requires Sound(m) && id in m.jobs && m.jobs[id].settled && m.jobs[id].started && !m.jobs[id].finished
    ensures Possible(m, Turn(id, during, end))
    ensures Next(m, Turn(id, during, end)) == m.(jobs := m.jobs[id := m.jobs[id].(finished := true)])
  {
  }

  /** The `finally` of a settled job takes it off the table, once. */
  lemma TidyDelists(m: Manager, id: nat)
    requires Sound(m) && id in m.jobs && m.jobs[id].settled && !m.jobs[id].tidied
    ensures Possible(m, Tidies(id))
    ensures var m' := Next(m, Tidies(id));
      && m'.runners == m.runners - {id} && m'.scripts == m.scripts && m'.jobs == m.jobs[id := m.jobs[id].(tidied := true)]
      && !Possible(m', Tidies(id))
  {
  }

  /** A wait of a script that goes on: it starts, its timer ends, it returns, and the script has passed one more. */
  lemma WaitPasses(m: Manager, id: nat)
    requires Sound(m) && id in m.scripts && !m.scripts[id].finished && !m.scripts[id].cancelled
    ensures var s, w := m.scripts[id], m.nextId;
      && Possible(m, Waits(id))
      && var m1 := Next(m, Waits(id));
      && id in m1.scripts && m1.scripts[id] == s.(waits := s.waits[w := Pending]) && m1.runners == m.runners && m1.jobs == m.jobs && m1.nextId == w + 1
      && !Possible(m1, WaitReturns(id, w)) && Possible(m1, TimerEnds(id, w))
      && var m2 := Next(m1, TimerEnds(id, w));
      && m2 == m1.(scripts := m1.scripts[id := s.(waits := s.waits[w := Fulfilled])])
      && Possible(m2, WaitReturns(id, w))
      && Next(m2, WaitReturns(id, w)) == m2.(scripts := m2.scripts[id := s.(waits := s.waits[w := Fulfilled] - {w}, passed := s.passed + 1)])
  {
    var s, w := m.scripts[id], m.nextId;
    assert s.waits[w := Pending][w := Fulfilled] == s.waits[w := Fulfilled];
  }

  /** A wait that was aborted returns without letting the script go on, and its timer changes nothing any more. */
  lemma AbortedReturns(m: Manager, id: nat, w: nat)
    requires Sound(m) && id in m.scripts && w in m.scripts[id].waits && m.scripts[id].waits[w] == Aborted
    ensures Possible(m, TimerEnds(id, w)) && Next(m, TimerEnds(id, w)) == m
    ensures Possible(m, WaitReturns(id, w))
    ensures Next(m, WaitReturns(id, w)) == m.(scripts := m.scripts[id := m.scripts[id].(waits := m.scripts[id].waits - {w})])
  {
  }

  /** A cancelled script gets no new wait; one that finishes leaves the table. */
  lemma ScriptEnds(m: Manager, id: nat)
    requires Sound(m) && id in m.scripts && !m.scripts[id].finished
    ensures Possible(m, Waits(id)) && (m.scripts[id].cancelled ==> Next(m, Waits(id)) == m)
    ensures Possible(m, Finishes(id))
    ensures Next(m, Finishes(id)) == m.(runners := m.runners - {id}, scripts := m.scripts[id := m.scripts[id].(finished := true)])
  {
  }

  /** Cancelling a listed script sets its flag and aborts just what is pending; nothing else in the manager changes. */
  lemma CancelIsOfOne(m: Manager, id: nat)
    requires Sound(m)
    ensures var m' := Perform(m, Cancel(id));
      && (id !in m.runners ==> m' == m)
      && m'.runners == m.runners - {id} && m'.jobs.Keys == m.jobs.Keys && m'.scripts.Keys == m.scripts.Keys
      && (forall i :: i in m.jobs && i != id ==> m'.jobs[i] == m.jobs[i])
      && (forall i :: i in m.scripts && i != id ==> m'.scripts[i] == m.scripts[i])
      && (id in m.runners && id in m.scripts ==>
            && m'.scripts[id].cancelled && m'.scripts[id].finished == m.scripts[id].finished && m'.scripts[id].passed == m.scripts[id].passed
            && m'.scripts[id].waits.Keys == m.scripts[id].waits.Keys
            && forall w :: w in m.scripts[id].waits ==>
                 m'.scripts[id].waits[w] == if m.scripts[id].waits[w] == Pending then Aborted else m.scripts[id].waits[w])
  {
    if id in m.scripts {
      assert ScriptSound(m.scripts[id], id in m.runners);
    }
  }

  lemma NoneCancelled(m: Manager)
    ensures m.jobs == Cancelled(m, m.runners - m.runners).jobs && m.scripts == Cancelled(m, m.runners - m.runners).scripts
  {
  }

  lemma AllCancelled(m: Manager)
    ensures m.runners - {} == m.runners && Cancelled(m, m.runners).runners == {} && Cancelled(m, m.runners).nextId == m.nextId
  {
  }

  lemma OneMoreCancelled(m: Manager, now: Manager, left: set<nat>, id: nat)
    requires Sound(m) && left <= m.runners && id in left
    requires now.jobs == Cancelled(m, m.runners - left).jobs && now.scripts == Cancelled(m, m.runners - left).scripts
    ensures id in now.jobs || id in now.scripts
    ensures !(id in now.jobs && id in now.scripts)
    ensures var next := Cancelled(m, m.runners - (left - {id}));
      Cancelled(now, {id}).jobs == next.jobs && Cancelled(now, {id}).scripts == next.scripts
  {
    assert m.runners - (left - {id}) == m.runners - left + {id};
  }

  // ---------- the object ----------

  /** The table, with the jobs and scripts that its entries refer to. */
  class RunnerManager {
    var runners: set<nat>
    var idCounter: nat
    var jobs: map<nat, Job>
    var scripts: map<nat, Script>

    function State(): Manager
      reads this
    {
      Manager(runners, idCounter, jobs, scripts)
    }

    constructor ()
      ensures State() == NO_RUNNERS && Sound(State())
    {
      runners, idCounter, jobs, scripts := {}, 0, map[], map[];
    }

    method Run() returns (id: nat)
      modifies this
      ensures State() == Perform(old(State()), Call.Run) && id in runners && id == old(idCounter)
    {
      id := idCounter;
      idCounter := idCounter + 1;
      scripts := scripts[id := NEW_SCRIPT];
      runners := runners + {id};
    }

    method RunJob() returns (id: nat)
      modifies this
      ensures State() == Perform(old(State()), Call.RunJob) && id in runners && id == old(idCounter)
    {
      id := idCounter;
      idCounter := idCounter + 1;
      jobs := jobs[id := NEW_JOB];
      runners := runners + {id};
    }

    /** True exactly if there was something to cancel. */
    method Cancel(id: nat) returns (found: bool)
      requires Sound(State())
      modifies this
      ensures State() == Perform(old(State()), Call.Cancel(id)) && (found <==> id in old(runners)) && Sound(State())
    {
      PerformSound(State(), Call.Cancel(id));
      if id !in runners { return false; }
      CancelEntry(id);
      runners := runners - {id};
      return true;
    }

    method CancelEntry(id: nat)
      requires id in jobs || id in scripts
      requires !(id in jobs && id in scripts)
      modifies `jobs, `scripts
      ensures var m' := Cancelled(old(State()), {id}); jobs == m'.jobs && scripts == m'.scripts
    {
      if id in scripts {
        CancelScript(id);
      } else {
        jobs := jobs[id := jobs[id].(cleared := true)];
        SettleJob(id, Resolved);
      }
    }

    /** The guarded `resolve` and `reject` of the wrapped promise. */
    method SettleJob(id: nat, v: Verdict)
      requires id in jobs
      modifies `jobs
      ensures jobs == old(jobs)[id := Settle(old(jobs)[id], v)]
    {
      var j := jobs[id];
      if j.settled { return; }
      jobs := jobs[id := j.(settled := true, verdicts := j.verdicts + [v])];
    }

    /** `cancel` of the script: its flag, then every handle that is still pending. */
    method CancelScript(id: nat)
      requires id in scripts
      modifies `scripts
      ensures scripts == old(scripts)[id := CalledOff(old(scripts)[id])]
    {
      var s := scripts[id];
      if s.cancelled { return; }
      var left := s.waits.Keys;
      var waits := s.waits;
      while left != {}
        invariant left <= s.waits.Keys && waits.Keys == s.waits.Keys
        invariant forall w :: w in waits ==> waits[w] == if w in left then s.waits[w] else Abort(s.waits)[w]
        decreases |left|
      {
        var w :| w in left;
        if waits[w].Pending? {
          waits := waits[w := Aborted];
        }
        left := left - {w};
      }
      assert waits == Abort(s.waits);
      scripts := scripts[id := s.(cancelled := true, waits := waits)];
    }

    method Dispose()
      requires Sound(State())
      modifies this
      ensures State() == Perform(old(State()), Call.Dispose) && Sound(State())
    {
      hide Sound, Cancelled;
      ghost var m := State();
      PerformSound(m, Call.Dispose);
      NoneCancelled(m);
      var left := runners;
      while left != {}
        invariant left <= m.runners == runners && idCounter == m.nextId
        invariant jobs == Cancelled(m, m.runners - left).jobs && scripts == Cancelled(m, m.runners - left).scripts
        decreases |left|
      {
        var id :| id in left;
        OneMoreCancelled(m, State(), left, id);
        CancelEntry(id);
        left := left - {id};
      }
      AllCancelled(m);
      runners := {};
    }
  }
}
