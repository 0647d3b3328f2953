/** The task monitor as a protocol: submitters, the select loop, the timer, check goroutines
    under the monitor's lock, and shutdown, one source statement to a step. */
module TaskMonitorProtocol {
  import opened Common
  import opened TaskMonitor

  datatype Request = Request(bp: ObjectId, task: TaskId, chan: Chan)

  /** Where the main loop is. From Stopped to Unlocked it has stopped the timer and not yet
      started it again. */
  datatype MainPc =
    | Top
    | Selecting
    | Received(request: Request)
    | Stopped(request: Request)
    | Drained(request: Request)
    | Locked(request: Request)
    | TaskAdded
    | Unlocked
    | Exited

  /** Where a check goroutine is. */
  datatype CheckPc =
    | Waiting
    | AtBlueprints(blueprints: set<ObjectId>)
    | AtTasks(bp: ObjectId, tasks: set<TaskId>, blueprints: set<ObjectId>)
    | Told(bp: ObjectId, task: TaskId, tasks: set<TaskId>, blueprints: set<ObjectId>)
    | Deciding
    | Releasing

  datatype Lock = Free | ByMain | ByCheck(check: nat)

  datatype State = State(
    pending: Pending,
    submitted: seq<Request>,
    sent: seq<Chan>,
    overwritten: set<Chan>,
    closed: set<Chan>,
    armed: bool,
    queued: bool,
    main: MainPc,
    checks: map<nat, CheckPc>,
    lock: Lock,
    quit: bool,
    shutdown: bool)

  datatype Event =
    | Test
    | Submit(request: Request)
    | TimerEvent(check: nat)
    | QuitEvent
    | StopTimer
    | DrainTimer
    | MainLock
    | MainAdd
    | MainUnlock
    | StartTimer
    | Fire
    | StopMonitor
    | CheckLock(check: nat)
    | StatusesFetched(check: nat, bp: ObjectId)
    | StatusesFailed(check: nat, bp: ObjectId)
    | StillWorking(check: nat, task: TaskId)
    | Tell(check: nat, task: TaskId)
    | Forget(check: nat)
    | NextBlueprint(check: nat)
    | BlueprintsDone(check: nat)
    | Decide(check: nat)
    | Release(check: nat)
    | WaiterCloses(chan: Chan)

  const Initial := State(map[], [], [], {}, {}, false, false, Top, map[], Free, false, false)

  ghost predicate ChanUsed(s: State, chan: Chan) {
    exists i :: 0 <= i < |s.submitted| && s.submitted[i].chan == chan
  }

  ghost predicate Enabled(s: State, e: Event) {
    match e
    case Test => s.main == Top
    case Submit(request) => s.main == Selecting && !ChanUsed(s, request.chan)
    case TimerEvent(check) => s.main == Selecting && s.queued && check !in s.checks
    case QuitEvent => s.main == Selecting && s.quit
    case StopTimer => s.main.Received?
    case DrainTimer => s.main.Stopped?
    case MainLock => s.main.Drained? && s.lock == Free
    case MainAdd => s.main.Locked?
    case MainUnlock => s.main == TaskAdded
    case StartTimer => s.main == Unlocked
    case Fire => s.armed
    case StopMonitor => true
    case CheckLock(check) => check in s.checks && s.checks[check] == Waiting && s.lock == Free
    case StatusesFetched(check, bp) =>
      check in s.checks && s.checks[check].AtBlueprints? && bp in s.checks[check].blueprints && bp in s.pending
    case StatusesFailed(check, bp) =>
      check in s.checks && s.checks[check].AtBlueprints? && bp in s.checks[check].blueprints
    case StillWorking(check, task) => check in s.checks && s.checks[check].AtTasks? && task in s.checks[check].tasks
    case Tell(check, task) =>
      check in s.checks && s.checks[check].AtTasks? && task in s.checks[check].tasks
      && s.checks[check].bp in s.pending && task in s.pending[s.checks[check].bp]
    case Forget(check) => check in s.checks && s.checks[check].Told?
    case NextBlueprint(check) => check in s.checks && s.checks[check].AtTasks? && s.checks[check].tasks == {}
    case BlueprintsDone(check) => check in s.checks && s.checks[check] == AtBlueprints({})
    case Decide(check) => check in s.checks && s.checks[check] == Deciding
    case Release(check) => check in s.checks && s.checks[check] == Releasing
    case WaiterCloses(chan) => chan in s.sent && chan !in s.closed
  }

  function At(s: State, check: nat, pc: CheckPc): State {
    s.(checks := s.checks[check := pc])
  }

  ghost function Apply(s: State, e: Event): State
    requires Enabled(s, e)
  {
    match e
    case Test => s.(main := if s.shutdown && s.pending == map[] then Exited else Selecting)
    case Submit(request) => s.(main := Received(request), submitted := s.submitted + [request])
    case TimerEvent(check) => At(s, check, Waiting).(queued := false, main := Top)
    case QuitEvent => s.(shutdown := true, main := Top)
    case StopTimer => s.(main := Stopped(s.main.request), armed := false)
    case DrainTimer => s.(main := Drained(s.main.request), queued := false)
    case MainLock => s.(main := Locked(s.main.request), lock := ByMain)
    case MainAdd =>
      var r := s.main.request;
      s.(main := TaskAdded,
         pending := AddTask(s.pending, r.bp, r.task, r.chan),
         overwritten := s.overwritten
           + if r.bp in s.pending && r.task in s.pending[r.bp] then {s.pending[r.bp][r.task]} else {})
    case MainUnlock => s.(main := Unlocked, lock := Free)
    case StartTimer => s.(main := Top, armed := true)
    case Fire => s.(armed := false, queued := true)
    case StopMonitor => s.(quit := true)
    case CheckLock(check) => At(s, check, AtBlueprints(s.pending.Keys)).(lock := ByCheck(check))
    case StatusesFetched(check, bp) =>
      At(s, check, AtTasks(bp, s.pending[bp].Keys, s.checks[check].blueprints - {bp}))
    case StatusesFailed(check, bp) => At(s, check, AtBlueprints(s.checks[check].blueprints - {bp}))
    case StillWorking(check, task) =>
      var pc := s.checks[check];
      At(s, check, AtTasks(pc.bp, pc.tasks - {task}, pc.blueprints))
    case Tell(check, task) =>
      var pc := s.checks[check];
      At(s, check, Told(pc.bp, task, pc.tasks - {task}, pc.blueprints)).(sent := s.sent + [s.pending[pc.bp][task]])
    case Forget(check) =>
      var pc := s.checks[check];
      At(s, check, AtTasks(pc.bp, pc.tasks, pc.blueprints)).(pending := DeleteTask(s.pending, pc.bp, pc.task))
    case NextBlueprint(check) => At(s, check, AtBlueprints(s.checks[check].blueprints))
    case BlueprintsDone(check) => At(s, check, Deciding)
    case Decide(check) => At(s, check, Releasing).(armed := s.armed || s.pending != map[])
    case Release(check) => s.(checks := s.checks - {check}, lock := Free)
    case WaiterCloses(chan) => s.(closed := s.closed + {chan})
  }

  /** The states along a run, which starts from the initial state. */
  ghost predicate IsRun(events: seq<Event>, states: seq<State>) {
    && |states| == |events| + 1
    && states[0] == Initial
    && forall i :: 0 <= i < |events| ==> Enabled(states[i], events[i]) && states[i + 1] == Apply(states[i], events[i])
  }

  // ----- what every step keeps -----

  predicate HasRequest(pc: MainPc) {
    pc.Received? || pc.Stopped? || pc.Drained? || pc.Locked?
  }

  ghost predicate Carries(s: State, chan: Chan) {
    HasRequest(s.main) && s.main.request.chan == chan
  }

  /** Between telling a submitter and forgetting its task. */
  ghost predicate BeingForgotten(s: State, bp: ObjectId, task: TaskId) {
    && s.lock.ByCheck? && s.lock.check in s.checks
    && s.checks[s.lock.check].Told? && s.checks[s.lock.check].bp == bp && s.checks[s.lock.check].task == task
  }

  ghost predicate LockDiscipline(s: State) {
    && (s.lock == ByMain <==> s.main.Locked? || s.main == TaskAdded)
    && (forall check <- s.checks :: s.checks[check] != Waiting <==> s.lock == ByCheck(check))
    && (s.lock.ByCheck? ==> s.lock.check in s.checks)
  }

  /** A check under way looks only at what is there: nothing is added while it has the lock. */
  ghost predicate CheckInBounds(s: State, pc: CheckPc) {
    match pc
    case AtBlueprints(blueprints) => blueprints <= s.pending.Keys
    case AtTasks(bp, tasks, blueprints) =>
      blueprints <= s.pending.Keys && bp !in blueprints
      && (tasks != {} ==> bp in s.pending && tasks <= s.pending[bp].Keys)
    case Told(bp, task, tasks, blueprints) =>
      blueprints <= s.pending.Keys && bp !in blueprints && bp in s.pending && tasks <= s.pending[bp].Keys
      && task in s.pending[bp] && task !in tasks && s.pending[bp][task] in s.sent
    case _ => true
  }

  /** Every accepted request is in exactly one place: carried by the main loop, pending,
      answered, or overwritten by a later request for the same task. */
  ghost predicate Accounted(s: State) {
    && NoDuplicates(s.sent)
    && OneTaskPerChan(s.pending)
    && NoEmptyBlueprint(s.pending)
    && (forall chan :: InOnePlace(s, chan))
    && (forall bp, task, chan :: Holds(s.pending, bp, task, chan) ==>
          (chan in s.sent <==> BeingForgotten(s, bp, task)))
    && s.closed <= set chan | chan in s.sent
  }

  ghost predicate InOnePlace(s: State, chan: Chan) {
    && (ChanUsed(s, chan) <==>
          Carries(s, chan) || HasChan(s.pending, chan) || chan in s.sent || chan in s.overwritten)
    && (Carries(s, chan) ==> !HasChan(s.pending, chan) && chan !in s.sent && chan !in s.overwritten)
    && (chan in s.overwritten ==> !HasChan(s.pending, chan) && chan !in s.sent)
  }

  ghost predicate SomeCheckWillDecide(s: State) {
    exists check :: check in s.checks && s.checks[check] != Releasing
  }

  ghost predicate BetweenStopAndStart(s: State) {
    s.main.Stopped? || s.main.Drained? || s.main.Locked? || s.main == TaskAdded || s.main == Unlocked
  }

  ghost predicate WillWake(s: State) {
    s.armed || s.queued || SomeCheckWillDecide(s) || BetweenStopAndStart(s)
  }

  ghost predicate Inv(s: State) {
    && LockDiscipline(s)
    && (forall check <- s.checks :: CheckInBounds(s, s.checks[check]))
    && Accounted(s)
    && (s.pending != map[] ==> WillWake(s))
    && (s.main == Exited ==> s.shutdown && s.pending == map[])
  }

  /** A step of the main loop, the timer or a caller. */
  predicate OutsideChecks(e: Event) {
    e.Test? || e.Submit? || e.TimerEvent? || e.QuitEvent? || e.StopTimer? || e.DrainTimer? || e.MainLock? || e.MainAdd?
    || e.MainUnlock? || e.StartTimer? || e.Fire? || e.StopMonitor? || e.WaiterCloses?
  }

  lemma MainKeepsLocks(s: State, e: Event)
    requires LockDiscipline(s) && Enabled(s, e) && OutsideChecks(e)
    ensures LockDiscipline(Apply(s, e))
  {
  }

  lemma CheckKeepsLocks(s: State, e: Event)
    requires LockDiscipline(s) && Enabled(s, e) && !OutsideChecks(e)
    ensures LockDiscipline(Apply(s, e))
  {
  }

  lemma StepKeepsLocks(s: State, e: Event)
    requires LockDiscipline(s) && Enabled(s, e)
    ensures LockDiscipline(Apply(s, e))
  {
    if OutsideChecks(e) { MainKeepsLocks(s, e); } else { CheckKeepsLocks(s, e); }
  }

  /** The check that acts, when it neither tells nor forgets a task. */
  lemma MoverInBounds(s: State, e: Event)
    requires Enabled(s, e) && !OutsideChecks(e) && !e.Tell? && !e.Forget? && CheckInBounds(s, s.checks[e.check])
    ensures e.check in Apply(s, e).checks ==> CheckInBounds(Apply(s, e), Apply(s, e).checks[e.check])
  {
  }

  lemma TellInBounds(s: State, e: Event)
    requires Enabled(s, e) && e.Tell? && CheckInBounds(s, s.checks[e.check])
    ensures CheckInBounds(Apply(s, e), Apply(s, e).checks[e.check])
  {
  }

  lemma ForgetInBounds(s: State, e: Event)
    requires Enabled(s, e) && e.Forget? && CheckInBounds(s, s.checks[e.check])
    ensures CheckInBounds(Apply(s, e), Apply(s, e).checks[e.check])
  {
    Deleted(s.pending, s.checks[e.check].bp, s.checks[e.check].task);
  }

  /** A check that another step passes by either waits or sees the same tasks. */
  lemma OtherCheck(s: State, e: Event, check: nat)
    requires LockDiscipline(s) && Enabled(s, e) && check in Apply(s, e).checks && (OutsideChecks(e) || check != e.check)
    ensures Apply(s, e).checks[check] == Waiting
         || (check in s.checks && Apply(s, e).checks[check] == s.checks[check] && Apply(s, e).pending == s.pending
             && Apply(s, e).sent == s.sent)
  {
  }

  lemma StepKeepsBounds(s: State, e: Event)
    requires LockDiscipline(s) && Enabled(s, e)
    requires forall check <- s.checks :: CheckInBounds(s, s.checks[check])
    ensures forall check <- Apply(s, e).checks :: CheckInBounds(Apply(s, e), Apply(s, e).checks[check])
  {
    forall check | check in Apply(s, e).checks ensures CheckInBounds(Apply(s, e), Apply(s, e).checks[check]) {
      if OutsideChecks(e) || check != e.check {
        OtherCheck(s, e, check);
      } else if e.Tell? {
        TellInBounds(s, e);
      } else if e.Forget? {
        ForgetInBounds(s, e);
      } else {
        MoverInBounds(s, e);
      }
    }
  }

  lemma SubmitAccounted(s: State, request: Request)
    requires Inv(s) && Enabled(s, Submit(request))
    ensures Accounted(Apply(s, Submit(request)))
  {
    var s' := Apply(s, Submit(request));
    forall chan ensures ChanUsed(s', chan) <==> ChanUsed(s, chan) || chan == request.chan {
      assert s'.submitted[|s.submitted|] == request;
      if ChanUsed(s, chan) {
        var i :| 0 <= i < |s.submitted| && s.submitted[i].chan == chan;
        assert s'.submitted[i].chan == chan;
      }
    }
    forall chan ensures InOnePlace(s', chan) {
      assert InOnePlace(s, chan) && InOnePlace(s, request.chan);
    }
  }

  lemma MainAddAccounted(s: State)
    requires Inv(s) && Enabled(s, MainAdd)
    ensures Accounted(Apply(s, MainAdd))
  {
    var s', r := Apply(s, MainAdd), s.main.request;
    Added(s.pending, r.bp, r.task, r.chan);
    assert Carries(s, r.chan) && InOnePlace(s, r.chan);
    AddedChan(s.pending, r.bp, r.task, r.chan, r.chan);
    forall chan ensures InOnePlace(s', chan) {
      AddedChan(s.pending, r.bp, r.task, r.chan, chan);
      assert InOnePlace(s, chan);
      assert ChanUsed(s', chan) <==> ChanUsed(s, chan);
      assert chan in s'.overwritten <==> chan in s.overwritten || Holds(s.pending, r.bp, r.task, chan);
      assert chan in s.sent ==> forall b, t :: !BeingForgotten(s, b, t);
    }
  }

  lemma TellAccounted(s: State, check: nat, task: TaskId)
    requires Inv(s) && Enabled(s, Tell(check, task))
    ensures Accounted(Apply(s, Tell(check, task)))
    ensures s.pending[s.checks[check].bp][task] !in s.sent
    ensures s.pending[s.checks[check].bp][task] !in s.closed
  {
    var s', bp := Apply(s, Tell(check, task)), s.checks[check].bp;
    var told := s.pending[bp][task];
    assert Holds(s.pending, bp, task, told);
    assert forall b, t :: !BeingForgotten(s, b, t);
    forall chan ensures InOnePlace(s', chan) {
      assert InOnePlace(s, chan) && InOnePlace(s, told);
      assert ChanUsed(s', chan) <==> ChanUsed(s, chan);
      assert chan in s'.sent <==> chan in s.sent || chan == told;
    }
  }

  lemma ForgetAccounted(s: State, check: nat)
    requires Inv(s) && Enabled(s, Forget(check))
    ensures Accounted(Apply(s, Forget(check)))
  {
    var s', pc := Apply(s, Forget(check)), s.checks[check];
    Deleted(s.pending, pc.bp, pc.task);
    var told := s.pending[pc.bp][pc.task];
    DeletedChan(s.pending, pc.bp, pc.task, told, told);
    forall chan ensures InOnePlace(s', chan) {
      DeletedChan(s.pending, pc.bp, pc.task, told, chan);
      assert InOnePlace(s, chan);
      assert ChanUsed(s', chan) <==> ChanUsed(s, chan);
    }
  }

  /** A step that moves no request and sends nothing. */
  lemma QuietAccounted(s: State, s': State)
    requires Accounted(s)
    requires s'.pending == s.pending && s'.submitted == s.submitted && s'.sent == s.sent
    requires s'.overwritten == s.overwritten && s'.closed <= s.closed + (set chan | chan in s.sent)
    requires forall chan :: Carries(s', chan) <==> Carries(s, chan)
    requires forall bp, task :: BeingForgotten(s', bp, task) <==> BeingForgotten(s, bp, task)
    ensures Accounted(s')
  {
    forall chan ensures InOnePlace(s', chan) {
      assert InOnePlace(s, chan);
      assert ChanUsed(s', chan) <==> ChanUsed(s, chan);
    }
  }

  lemma StepKeepsAccounts(s: State, e: Event)
    requires Inv(s) && Enabled(s, e)
    ensures Accounted(Apply(s, e))
  {
    match e
    case Submit(request) => SubmitAccounted(s, request);
    case MainAdd => MainAddAccounted(s);
    case Tell(check, task) => TellAccounted(s, check, task);
    case Forget(check) => ForgetAccounted(s, check);
    case _ => QuietAccounted(s, Apply(s, e));
  }

  /** The check that will look after the timer is the one that acts, or one that does not. */
  lemma StepKeepsWaking(s: State, e: Event)
    requires Inv(s) && Enabled(s, e)
    ensures Apply(s, e).pending != map[] ==> WillWake(Apply(s, e))
  {
    var s' := Apply(s, e);
    if s'.pending != map[] && !s'.armed && !s'.queued && !BetweenStopAndStart(s') {
      if e.TimerEvent? || (e.CheckLock? || e.StatusesFetched? || e.StatusesFailed? || e.StillWorking? || e.Tell?
                           || e.Forget? || e.NextBlueprint? || e.BlueprintsDone?) {
        assert e.check in s'.checks && s'.checks[e.check] != Releasing;
      } else {
        var check :| check in s.checks && s.checks[check] != Releasing;
        assert check in s'.checks && s'.checks[check] != Releasing;
      }
    }
  }

  lemma InitialInv()
    ensures Inv(Initial)
  {
  }

  lemma StepKeepsInv(s: State, e: Event)
    requires Inv(s) && Enabled(s, e)
    ensures Inv(Apply(s, e))
  {
    StepKeepsLocks(s, e);
    StepKeepsBounds(s, e);
    StepKeepsAccounts(s, e);
    StepKeepsWaking(s, e);
  }

  lemma {:induction false} RunKeepsInv(events: seq<Event>, states: seq<State>, i: nat)
    requires IsRun(events, states) && i <= |events|
    ensures Inv(states[i])
  {
    if i == 0 {
      InitialInv();
    } else {
      RunKeepsInv(events, states, i - 1);
      StepKeepsInv(states[i - 1], events[i - 1]);
    }
  }

  // ----- the promises -----

  /** At every moment of every run each accepted request is in exactly one place, no submitter has
      been answered twice, and none is answered whose channel is closed or already used. */
  lemma AnsweredAtMostOnce(events: seq<Event>, states: seq<State>, i: nat)
    requires IsRun(events, states) && i <= |events|
    ensures NoDuplicates(states[i].sent)
    ensures forall chan :: InOnePlace(states[i], chan)
    ensures i < |events| && events[i].Tell? ==>
              var bp := states[i].checks[events[i].check].bp;
              && bp in states[i].pending && events[i].task in states[i].pending[bp]
              && var chan := states[i].pending[bp][events[i].task];
                 ChanUsed(states[i], chan) && chan !in states[i].sent && chan !in states[i].closed
  {
    RunKeepsInv(events, states, i);
    if i < |events| && events[i].Tell? {
      var s := states[i];
      TellAccounted(s, events[i].check, events[i].task);
      var bp := s.checks[events[i].check].bp;
      assert Holds(s.pending, bp, events[i].task, s.pending[bp][events[i].task]);
      assert InOnePlace(s, s.pending[bp][events[i].task]);
    }
  }

  /** The monitor stops only after shutdown was asked for and when everyone whose request was not
      overwritten has been answered. */
  lemma StopsOnlyWhenAllAnswered(events: seq<Event>, states: seq<State>, i: nat)
    requires IsRun(events, states) && i <= |events| && states[i].main == Exited
    ensures states[i].shutdown
    ensures forall chan :: ChanUsed(states[i], chan) <==> chan in states[i].sent || chan in states[i].overwritten
  {
    RunKeepsInv(events, states, i);
    forall chan
      ensures ChanUsed(states[i], chan) <==> chan in states[i].sent || chan in states[i].overwritten
    {
      assert InOnePlace(states[i], chan) && !HasChan(states[i].pending, chan);
    }
  }

  /** While anything is pending, the timer is set, or its event is waiting to be read, or a check has
      yet to decide about it, or the main loop is about to set it. */
  lemma NoLostWakeUp(events: seq<Event>, states: seq<State>, i: nat)
    requires IsRun(events, states) && i <= |events| && states[i].pending != map[]
    ensures WillWake(states[i])
  {
    RunKeepsInv(events, states, i);
  }

  /** A submitter is left without an answer exactly when a request for the same task of the same
      blueprint was added while the first was still pending. */
  lemma {:induction false} OverwrittenExactly(events: seq<Event>, states: seq<State>, n: nat, chan: Chan)
    requires IsRun(events, states) && n <= |events|
    ensures chan in states[n].overwritten <==>
              exists i :: 0 <= i < n && events[i] == MainAdd && states[i].main.Locked?
                          && Holds(states[i].pending, states[i].main.request.bp, states[i].main.request.task, chan)
    ensures chan in states[n].overwritten ==> chan !in states[n].sent
  {
    RunKeepsInv(events, states, n);
    assert InOnePlace(states[n], chan);
    if n > 0 {
      OverwrittenExactly(events, states, n - 1, chan);
      assert Enabled(states[n - 1], events[n - 1]);
    }
  }

  ghost predicate AllDifferentTasks(submitted: seq<Request>) {
    forall i, j :: 0 <= i < j < |submitted| ==>
      !(submitted[i].bp == submitted[j].bp && submitted[i].task == submitted[j].task)
  }

  /** What is pending or carried was submitted. */
  ghost predicate WasSubmitted(s: State) {
    && (forall bp, task, chan :: Holds(s.pending, bp, task, chan) ==> Request(bp, task, chan) in s.submitted)
    && (HasRequest(s.main) ==> s.main.request in s.submitted)
  }

  lemma StepKeepsSubmitted(s: State, e: Event)
    requires Inv(s) && WasSubmitted(s) && Enabled(s, e)
    ensures WasSubmitted(Apply(s, e)) && s.submitted <= Apply(s, e).submitted
    ensures AllDifferentTasks(s.submitted) ==> Apply(s, e).overwritten == s.overwritten
  {
    match e
    case MainAdd =>
      var r := s.main.request;
      Added(s.pending, r.bp, r.task, r.chan);
      assert Carries(s, r.chan) && InOnePlace(s, r.chan);
      if r.bp in s.pending && r.task in s.pending[r.bp] {
        var chan := s.pending[r.bp][r.task];
        assert Holds(s.pending, r.bp, r.task, chan);
        var i :| 0 <= i < |s.submitted| && s.submitted[i] == Request(r.bp, r.task, chan);
        var j :| 0 <= j < |s.submitted| && s.submitted[j] == r;
        assert i != j;
      }
    case Forget(check) => Deleted(s.pending, s.checks[check].bp, s.checks[check].task);
    case Submit(request) => assert request in Apply(s, e).submitted;
    case _ => assert Apply(s, e).pending == s.pending;
  }

  /** Callers who never submit the same task twice are all answered: nothing is overwritten. */
  lemma {:induction false} DifferentTasksAreAllKept(events: seq<Event>, states: seq<State>, n: nat)
    requires IsRun(events, states) && n <= |events|
    ensures WasSubmitted(states[n])
    ensures AllDifferentTasks(states[n].submitted) ==> states[n].overwritten == {}
  {
    if n > 0 {
      DifferentTasksAreAllKept(events, states, n - 1);
      RunKeepsInv(events, states, n - 1);
      StepKeepsSubmitted(states[n - 1], events[n - 1]);
    }
  }

  /** At the end of every run, a submitter has no answer exactly when a request for the same task of
      the same blueprint was added while its own was still pending. */
  lemma UnansweredExactly(events: seq<Event>, states: seq<State>, n: nat, chan: Chan)
    requires IsRun(events, states) && n <= |events| && states[n].main == Exited && ChanUsed(states[n], chan)
    ensures chan !in states[n].sent <==>
              exists i :: 0 <= i < n && events[i] == MainAdd && states[i].main.Locked?
                          && Holds(states[i].pending, states[i].main.request.bp, states[i].main.request.task, chan)
  {
    StopsOnlyWhenAllAnswered(events, states, n);
    OverwrittenExactly(events, states, n, chan);
  }

  /** The states between which some steps lead. */
  ghost predicate Leads(s: State, events: seq<Event>, t: State)
    decreases |events|
  {
    if events == [] then s == t else Enabled(s, events[0]) && Leads(Apply(s, events[0]), events[1..], t)
  }

  lemma MainOverwrites(s: State, e: Event)
    requires Enabled(s, e) && OutsideChecks(e)
    ensures s.overwritten <= Apply(s, e).overwritten
  {
  }

  lemma CheckOverwritesNothing(s: State, e: Event)
    requires Enabled(s, e) && !OutsideChecks(e)
    ensures s.overwritten == Apply(s, e).overwritten
  {
  }

  lemma {:induction false} LeadsKeepsInv(s: State, events: seq<Event>, t: State)
    requires Inv(s) && Leads(s, events, t)
    ensures Inv(t) && s.overwritten <= t.overwritten
    decreases |events|
  {
    if events != [] {
      StepKeepsInv(s, events[0]);
      if OutsideChecks(events[0]) { MainOverwrites(s, events[0]); } else { CheckOverwritesNothing(s, events[0]); }
      LeadsKeepsInv(Apply(s, events[0]), events[1..], t);
    }
  }

  /** The steps by which an accepted request comes to be added. */
  function Accept(request: Request): seq<Event> {
    [Submit(request), StopTimer, DrainTimer, MainLock, MainAdd]
  }

  lemma LeadsFrom(s: State, e: Event, rest: seq<Event>, t: State)
    requires Leads(s, [e] + rest, t)
    ensures Enabled(s, e) && Leads(Apply(s, e), rest, t)
  {
    assert ([e] + rest)[1..] == rest;
  }

  /** On the way to being added a request changes nothing that is pending. */
  lemma AcceptAdds(s: State, request: Request, t: State)
    requires Leads(s, Accept(request), t)
    ensures t.overwritten == s.overwritten
      + if request.bp in s.pending && request.task in s.pending[request.bp] then {s.pending[request.bp][request.task]}
        else {}
  {
    LeadsFrom(s, Submit(request), [StopTimer, DrainTimer, MainLock, MainAdd], t);
    var s1 := Apply(s, Submit(request));
    LeadsFrom(s1, StopTimer, [DrainTimer, MainLock, MainAdd], t);
    var s2 := Apply(s1, StopTimer);
    LeadsFrom(s2, DrainTimer, [MainLock, MainAdd], t);
    var s3 := Apply(s2, DrainTimer);
    LeadsFrom(s3, MainLock, [MainAdd], t);
    var s4 := Apply(s3, MainLock);
    LeadsFrom(s4, MainAdd, [], t);
    assert s4.pending == s.pending && s4.main == Locked(request);
  }

  /** Submitting a task again while it is pending strands the first submitter: whatever happens after
      the second request is added, the first is never answered. */
  lemma RepeatStrands(s: State, request: Request, chan: Chan, events: seq<Event>, t: State)
    requires Inv(s) && Holds(s.pending, request.bp, request.task, chan)
    requires Leads(s, Accept(request) + events, t)
    ensures ChanUsed(s, chan) && chan !in t.sent
  {
    var u := LeadsSplit(s, Accept(request), events, t);
    AcceptAdds(s, request, u);
    LeadsKeepsInv(s, Accept(request), u);
    LeadsKeepsInv(u, events, t);
    assert InOnePlace(s, chan) && InOnePlace(t, chan);
  }

  lemma {:induction false} LeadsSplit(s: State, a: seq<Event>, b: seq<Event>, t: State) returns (u: State)
    requires Leads(s, a + b, t)
    ensures Leads(s, a, u) && Leads(u, b, t)
    decreases |a|
  {
    if a == [] {
      assert a + b == b;
      u := s;
    } else {
      assert (a + b)[0] == a[0] && (a + b)[1..] == a[1..] + b;
      u := LeadsSplit(Apply(s, a[0]), a[1..], b, t);
    }
  }

  lemma FreshCheck(checks: set<nat>) returns (check: nat)
    ensures check !in checks
  {
    check := 0;
    var seen: set<nat> := {};
    while check in checks
      invariant seen <= checks && forall c :: c in seen <==> 0 <= c < check
      decreases checks - seen
    {
      seen := seen + {check};
      check := check + 1;
    }
  }

  /** The events of the monitor itself, which need no submitter, no waiter and no shutdown. */
  predicate IsInternal(e: Event) {
    !e.Submit? && !e.QuitEvent? && !e.StopMonitor? && !e.WaiterCloses?
  }

  function TaskPairs(pending: Pending): set<(ObjectId, TaskId)> {
    set bp <- pending, task <- pending[bp] :: (bp, task)
  }

  lemma DeletedPair(pending: Pending, bp: ObjectId, task: TaskId)
    requires bp in pending && task in pending[bp]
    ensures |TaskPairs(DeleteTask(pending, bp, task))| == |TaskPairs(pending)| - 1
  {
    Deleted(pending, bp, task);
    var after := DeleteTask(pending, bp, task);
    forall b, t ensures (b, t) in TaskPairs(after) <==> (b, t) in TaskPairs(pending) && (b, t) != (bp, task) {
      if (b, t) in TaskPairs(after) { assert Holds(after, b, t, after[b][t]); }
      if (b, t) in TaskPairs(pending) { assert Holds(pending, b, t, pending[b][t]); }
    }
    assert TaskPairs(after) == TaskPairs(pending) - {(bp, task)};
  }

  ghost predicate SomeWaiting(s: State) {
    exists check :: check in s.checks && s.checks[check] == Waiting
  }

  /** How far the next answer is off, when every check that runs is told that its tasks are done. */
  ghost function Stage(s: State): nat {
    if s.lock.ByCheck? && s.lock.check in s.checks then CheckStage(s.checks[s.lock.check])
    else MainStage(s.main, SomeWaiting(s), s.queued)
  }

  function CheckStage(pc: CheckPc): nat {
    match pc
    case Told(_, _, _, _) => 0
    case AtTasks(_, tasks, blueprints) => if tasks != {} then 1 else if blueprints != {} then 3 else 16
    case AtBlueprints(blueprints) => if blueprints != {} then 2 else 15
    case Deciding => 14
    case Releasing => 13
    case Waiting => 0
  }

  function MainStage(pc: MainPc, waiting: bool, queued: bool): nat {
    match pc
    case Received(_) => 11
    case Stopped(_) => 10
    case Drained(_) => 9
    case Locked(_) => 8
    case TaskAdded => 8
    case Unlocked => if waiting then 3 else 7
    case Top => if waiting then 3 else 6
    case Selecting => if waiting then 3 else if queued then 4 else 5
    case Exited => 0
  }

  ghost function Carried(s: State): nat {
    if HasRequest(s.main) then 1 else 0
  }

  /** The state has come closer to having nothing pending. */
  ghost predicate Closer(s: State, t: State) {
    Carried(t) < Carried(s)
    || (Carried(t) == Carried(s)
        && (|TaskPairs(t.pending)| < |TaskPairs(s.pending)|
            || (t.pending == s.pending && Stage(t) < Stage(s))))
  }

  /** The next step of the check that has the lock, when it goes over blueprints. */
  lemma BlueprintsStep(s: State) returns (e: Event)
    requires Inv(s) && s.lock.ByCheck? && s.checks[s.lock.check].AtBlueprints?
    ensures Enabled(s, e) && IsInternal(e) && Closer(s, Apply(s, e))
  {
    var check := s.lock.check;
    if bp :| bp in s.checks[check].blueprints {
      e := StatusesFetched(check, bp);
      assert s.pending[bp] != map[];
      var task :| task in s.pending[bp];
      assert task in s.pending[bp].Keys;
    } else {
      e := BlueprintsDone(check);
    }
  }

  lemma TasksStep(s: State) returns (e: Event)
    requires Inv(s) && s.lock.ByCheck? && s.checks[s.lock.check].AtTasks?
    ensures Enabled(s, e) && IsInternal(e) && Closer(s, Apply(s, e))
  {
    if task :| task in s.checks[s.lock.check].tasks {
      e := Tell(s.lock.check, task);
    } else {
      e := NextBlueprint(s.lock.check);
    }
  }

  lemma ForgetStep(s: State) returns (e: Event)
    requires Inv(s) && s.lock.ByCheck? && s.checks[s.lock.check].Told?
    ensures Enabled(s, e) && IsInternal(e) && Closer(s, Apply(s, e))
  {
    e := Forget(s.lock.check);
    DeletedPair(s.pending, s.checks[s.lock.check].bp, s.checks[s.lock.check].task);
  }

  lemma LastStep(s: State) returns (e: Event)
    requires Inv(s) && s.lock.ByCheck? && (s.checks[s.lock.check].Deciding? || s.checks[s.lock.check].Releasing?)
    ensures Enabled(s, e) && IsInternal(e) && Closer(s, Apply(s, e))
  {
    e := if s.checks[s.lock.check].Deciding? then Decide(s.lock.check) else Release(s.lock.check);
  }

  lemma CheckStep(s: State) returns (e: Event)
    requires Inv(s) && s.lock.ByCheck?
    ensures Enabled(s, e) && IsInternal(e) && Closer(s, Apply(s, e))
  {
    match s.checks[s.lock.check]
    case AtBlueprints(_) => e := BlueprintsStep(s);
    case AtTasks(_, _, _) => e := TasksStep(s);
    case Told(_, _, _, _) => e := ForgetStep(s);
    case Deciding => e := LastStep(s);
    case Releasing => e := LastStep(s);
  }

  /** The next step of the main loop, when no check has the lock. */
  lemma MainStep(s: State) returns (e: Event)
    requires LockDiscipline(s) && !s.lock.ByCheck? && (HasRequest(s.main) || s.main == TaskAdded)
    ensures Enabled(s, e) && IsInternal(e) && Closer(s, Apply(s, e))
  {
    match s.main
    case Received(_) => e := StopTimer;
    case Stopped(_) => e := DrainTimer;
    case Drained(_) => e := MainLock;
    case Locked(_) => e := MainAdd;
    case TaskAdded => e := MainUnlock;
  }

  /** The next step towards a check, when nobody has the lock or carries a request. */
  lemma WakingStep(s: State) returns (e: Event)
    requires Inv(s) && s.lock == Free && !HasRequest(s.main) && s.pending != map[]
    ensures Enabled(s, e) && IsInternal(e) && Closer(s, Apply(s, e))
  {
    if SomeWaiting(s) {
      var check :| check in s.checks && s.checks[check] == Waiting;
      e := CheckLock(check);
      var bp :| bp in s.pending;
      assert bp in s.pending.Keys;
    } else {
      match s.main
      case Top => e := Test;
      case Unlocked => e := StartTimer;
      case Selecting =>
        if s.queued {
          var check := FreshCheck(s.checks.Keys);
          e := TimerEvent(check);
          assert Apply(s, e).checks[check] == Waiting;
        } else {
          assert s.armed;
          e := Fire;
        }
    }
  }

  /** While anything is pending or being added, the monitor can take a step by itself that brings it
      closer to having answered everybody. */
  lemma NeverStuck(s: State) returns (e: Event)
    requires Inv(s) && (s.pending != map[] || HasRequest(s.main))
    ensures Enabled(s, e) && IsInternal(e) && Closer(s, Apply(s, e))
  {
    if s.lock.ByCheck? {
      e := CheckStep(s);
    } else if HasRequest(s.main) || s.main == TaskAdded {
      e := MainStep(s);
    } else {
      e := WakingStep(s);
    }
  }

  lemma CheckSubmitsNothing(s: State, e: Event)
    requires Enabled(s, e) && !OutsideChecks(e)
    ensures Apply(s, e).submitted == s.submitted
  {
  }

  lemma MainSubmitsNothing(s: State, e: Event)
    requires Enabled(s, e) && OutsideChecks(e) && !e.Submit?
    ensures Apply(s, e).submitted == s.submitted
  {
  }

  lemma NothingLeftMeansAnswered(s: State)
    requires Inv(s) && s.pending == map[] && !HasRequest(s.main)
    ensures forall chan :: ChanUsed(s, chan) <==> chan in s.sent || chan in s.overwritten
  {
    forall chan ensures ChanUsed(s, chan) <==> chan in s.sent || chan in s.overwritten {
      assert InOnePlace(s, chan) && !HasChan(s.pending, chan);
    }
  }

  /** From wherever the monitor is, it can come by its own steps alone to a state in which nothing is
      pending, so that everybody whose request was not overwritten has been answered. */
  lemma {:induction false} AllCanBeAnswered(s: State) returns (events: seq<Event>, t: State)
    requires Inv(s)
    ensures Leads(s, events, t) && forall e <- events :: IsInternal(e)
    ensures t.pending == map[] && t.submitted == s.submitted
    ensures forall chan :: ChanUsed(t, chan) <==> chan in t.sent || chan in t.overwritten
    decreases Carried(s), |TaskPairs(s.pending)|, Stage(s)
  {
    if s.pending == map[] && !HasRequest(s.main) {
      events, t := [], s;
      NothingLeftMeansAnswered(s);
    } else {
      var e := NeverStuck(s);
      StepKeepsInv(s, e);
      if OutsideChecks(e) { MainSubmitsNothing(s, e); } else { CheckSubmitsNothing(s, e); }
      var rest;
      rest, t := AllCanBeAnswered(Apply(s, e));
      events := [e] + rest;
      assert events[1..] == rest;
    }
  }
}
