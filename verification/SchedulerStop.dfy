/**
 When a stop that has notified can be left waiting for a worker that sleeps: the flag is set again, or the worker
 sleeps already or is about to, which takes a start after the stop. And what a stop leaves that throws on its way.
 */
module SchedulerStop {
  import opened Scheduler
  import opened SchedulerLedger
  import opened SchedulerLaws
  import opened SchedulerRuns
  import opened Wrappers

  // ----- a set flag has a live worker -----

  /** The flag is set only beside a live worker, and StartScheduler finds it unset beside the thread it has made. */
  predicate FlagHasWorker(s: State)
  {
    (s.sh.core.running ==> s.sh.w != NotStarted && s.sh.w != Exited) &&
    (s.sh.q.QClient? && At(s, s.sh.q.t) == Launching ==> s.sh.w == Entering && !s.sh.core.running)
  }

  lemma {:induction false} LaunchMakes(s: Shared, t: Tid, pc: Pc)
    requires ThreadStep(s, t, pc).Some? && ThreadStep(s, t, pc).value.pc == Launching
    ensures pc == Inside(Launch) && s.w == NotStarted && ThreadStep(s, t, pc).value.sh == s.(w := Entering, stopped := false)
  {
    hide Accepted, Erased, Erases, Serials, FirstWithId, HasId;
  }

  lemma {:induction false} ClientKeepsWorker(s: State, t: Tid)
    requires Inv(s) && FlagHasWorker(s) && Step(s, Client(t)).Some?
    ensures FlagHasWorker(Step(s, Client(t)).value)
  {
    hide ThreadStep, LedgerInv, SleepsInTime, FlagInTime, StopsInTime;
    var pc, r := At(s, t), ThreadStep(s.sh, t, At(s, t)).value;
    assert OwnsAsAt(s.sh, t, pc);
    ThreadShape(s.sh, t, pc);
    if r.pc == Launching {
      LaunchMakes(s.sh, t, pc);
    }
    if s.sh.q.QClient? {
      assert OwnsAsAt(s.sh, s.sh.q.t, At(s, s.sh.q.t));
    }
  }

  lemma {:induction false} StepKeepsWorker(s: State, a: Action)
    requires Inv(s) && FlagHasWorker(s) && Step(s, a).Some?
    ensures FlagHasWorker(Step(s, a).value)
  {
    hide ThreadStep, WorkerStep, LedgerInv, SleepsInTime, FlagInTime, StopsInTime;
    match a
    case Client(t) => ClientKeepsWorker(s, t);
    case Work => WorkerKeepsFlag(s.sh);
    case _ =>
      if s.sh.q.QClient? {
        assert OwnsAsAt(s.sh, s.sh.q.t, At(s, s.sh.q.t));
      }
  }

  lemma WorkerKeepsFlag(s: Shared)
    requires WorkerLocks(s)
    ensures s.q.QClient? && s.w == Entering ==> WorkerStep(s) == None
    ensures WorkerStep(s).Some? ==>
            var s' := WorkerStep(s).value;
            s'.core.running == s.core.running && s'.w != NotStarted && (s'.w == Exited ==> !s.core.running) &&
            (s'.q.QClient? ==> s'.q == s.q)
  {
  }

  lemma {:induction false} RunKeepsWorker(s: State, run: seq<Action>)
    requires Inv(s) && FlagHasWorker(s) && Exec(s, run).Some?
    ensures FlagHasWorker(Exec(s, run).value)
    decreases |run|
  {
    hide Step, Inv, FlagHasWorker;
    if run != [] {
      StepKeeps(s, run[0]);
      StepKeepsWorker(s, run[0]);
      RunKeepsWorker(Step(s, run[0]).value, run[1..]);
    }
  }

  lemma {:induction false} ReachableWorker(s: State)
    requires Reachable(s)
    ensures FlagHasWorker(s)
  {
    hide Inv;
    var run :| Exec(Init(), run) == Some(s);
    InitInv();
    RunKeepsWorker(Init(), run);
  }

  // ----- runs beside a stop that waits -----

  /** A step of a start that is about to make the thread or to set the flag. */
  predicate Starting(s: State, a: Action)
  {
    a.Client? && (At(s, a.t) == Inside(Launch) || At(s, a.t) == Launching)
  }

  /** A run in which thread t does nothing and no start goes on. */
  predicate Aside(s: State, run: seq<Action>, t: Tid)
    decreases |run|
  {
    run == [] ||
    (run[0] != Client(t) && !Starting(s, run[0]) && Step(s, run[0]).Some? && Aside(Step(s, run[0]).value, run[1..], t))
  }

  ghost predicate Leads(s: State, u: State, t: Tid)
  {
    exists run :: Aside(s, run, t) && Exec(s, run) == Some(u)
  }

  /** Thread t waits to join a worker that sleeps: neither can go on, unless another thread or chance wakes the worker. */
  predicate Stranded(s: State, t: Tid)
  {
    At(s, t).Joins? && s.sh.w == Sleeping && Step(s, Client(t)) == None && Step(s, Work) == None
  }

  lemma {:induction false} AsideThen(s: State, run: seq<Action>, a: Action, t: Tid)
    requires Aside(s, run, t) && Exec(s, run).Some?
    requires var m := Exec(s, run).value; a != Client(t) && !Starting(m, a) && Step(m, a).Some?
    ensures Aside(s, run + [a], t) && Exec(s, run + [a]) == Step(Exec(s, run).value, a)
    decreases |run|
  {
    hide Step, Starting;
    if run == [] {
      assert (run + [a])[1..] == [];
    } else {
      AsideThen(Step(s, run[0]).value, run[1..], a, t);
      assert (run + [a])[1..] == run[1..] + [a];
    }
  }

  /** m can be reached from s while thread t waits to join and the flag stays set. */
  ghost predicate Going(s: State, m: State, t: Tid)
  {
    Reachable(m) && Leads(s, m, t) && At(m, t).Joins? && m.sh.core.running
  }

  lemma {:induction false} GoOn(s: State, m: State, a: Action, t: Tid) returns (u: State)
    requires Going(s, m, t) && Step(m, a).Some? && a != Client(t) && !Starting(m, a)
    requires !(a.Client? && At(m, a.t) == ClearsFlag)
    ensures u == Step(m, a).value && Going(s, u, t)
  {
    hide Reachable, Exec, Aside, ThreadStep, WorkerStep;
    u := Then(m, a);
    var run :| Aside(s, run, t) && Exec(s, run) == Some(m);
    AsideThen(s, run, a, t);
    assert Exec(s, run + [a]) == Some(u);
    match a
    case Client(c) => RunningStays(m.sh, c, At(m, c));
    case Work => WorkerRunning(m.sh);
    case _ =>
  }

  lemma {:induction false} RunningStays(s: Shared, t: Tid, pc: Pc)
    requires ThreadStep(s, t, pc).Some? && pc != ClearsFlag && s.core.running
    ensures ThreadStep(s, t, pc).value.sh.core.running
  {
    hide Serials, FirstWithId, HasId, NextId;
  }

  lemma WorkerRunning(s: Shared)
    requires WorkerStep(s).Some?
    ensures WorkerStep(s).value.core.running == s.core.running
  {
  }

  // ----- towards a sleeping worker -----

  /** How far the worker is from releasing the queue mutex while the flag is set. */
  function ToRelease(w: Worker): nat
  {
    match w
    case Tested => 1
    case AtTest => 2
    case Leaving => 3
    case Choosing => 4
    case _ => 0
  }

  lemma WorkerReleases(s: Shared)
    requires s.core.running && WorkerLocks(s) && s.q == QWorker
    ensures WorkerStep(s).Some?
    ensures var s' := WorkerStep(s).value; s'.q == QFree || (s'.q == QWorker && ToRelease(s'.w) < ToRelease(s.w))
  {
  }

  /** Whoever holds the queue mutex lets go of it. */
  lemma {:induction false} FreeQueue(s: State, m: State, t: Tid) returns (u: State)
    requires Going(s, m, t) && !(m.sh.q.QClient? && At(m, m.sh.q.t) == Inside(Launch))
    ensures Going(s, u, t) && u.sh.q == QFree
    decreases if m.sh.q.QClient? then (if At(m, m.sh.q.t) == Notifies then 1 else 2) else if m.sh.q == QWorker then ToRelease(m.sh.w) else 0
  {
    hide Reachable, Leads, ThreadStep, WorkerStep, ToRelease, LedgerInv, SleepsInTime, FlagInTime, StopsInTime;
    ReachableInv(m);
    ReachableWorker(m);
    u := m;
    if m.sh.q.QClient? {
      var c := m.sh.q.t;
      assert OwnsAsAt(m.sh, c, At(m, c));
      HolderLetsGo(m.sh, c, At(m, c));
      u := GoOn(s, m, Client(c), t);
      if u.sh.q != QFree {
        u := FreeQueue(s, u, t);
      }
    } else if m.sh.q == QWorker {
      WorkerReleases(m.sh);
      u := GoOn(s, m, Work, t);
      if u.sh.q != QFree {
        u := FreeQueue(s, u, t);
      }
    }
  }

  lemma {:induction false} HolderLetsGo(s: Shared, t: Tid, pc: Pc)
    requires HoldsQ(pc) && pc != Inside(Launch) && pc != Launching && s.q == QClient(t)
    ensures ThreadStep(s, t, pc).Some?
    ensures var r := ThreadStep(s, t, pc).value;
            r.sh.q == QFree || (r.sh.q == QClient(t) && pc != Notifies && r.pc == Notifies)
  {
    hide Serials, FirstWithId, HasId, NextId;
  }

  /** A client that has done nothing yet empties the queue. */
  lemma {:induction false} EmptyQueue(s: State, m: State, t: Tid) returns (u: State)
    requires Going(s, m, t) && m.sh.q == QFree
    ensures Going(s, u, t) && u.sh.q == QFree && u.sh.core.queue == [] && u.sh.ex == m.sh.ex
  {
    hide Reachable, Leads;
    var f := Fresh(m.pcs.Keys);
    u := GoOn(s, m, Call(f, RemoveAllTasks), t);
    u := GoOn(s, u, Client(f), t);
    u := GoOn(s, u, Client(f), t);
  }

  /** And another gives up a suspension. */
  lemma {:induction false} EndSuspension(s: State, m: State, t: Tid) returns (u: State)
    requires Going(s, m, t) && m.sh.q == QFree && m.sh.core.queue == []
    ensures Going(s, u, t) && u.sh.q == QFree && u.sh.core.queue == [] && u.sh.ex != ExSuspended
  {
    hide Reachable, Leads;
    u := m;
    if m.sh.ex == ExSuspended {
      var f := Fresh(m.pcs.Keys);
      u := GoOn(s, m, Call(f, ResumeScheduler), t);
      u := GoOn(s, u, Client(f), t);
    }
  }

  /** How far the worker is from sleeping beside an empty queue. */
  function ToSleep(w: Worker): nat
  {
    match w
    case Sleeping => 0
    case Tested => 1
    case AtTest => 2
    case Entering => 3
    case Woken => 3
    case Leaving => 3
    case Ended => 4
    case Choosing => 4
    case Running(_) => 5
    case HasEx => 5
    case Taken(_) => 6
    case WantsEx => 6
    case _ => 0
  }

  lemma WorkerNearsSleep(s: Shared)
    requires s.core.running && s.core.queue == [] && WorkerLocks(s) && !s.q.QClient? && s.ex != ExSuspended
    requires s.w != Sleeping && s.w != NotStarted && s.w != Exited
    ensures WorkerStep(s).Some?
    ensures var s' := WorkerStep(s).value;
            ToSleep(s'.w) < ToSleep(s.w) && s'.core.queue == [] && !s'.q.QClient? && s'.ex != ExSuspended
  {
  }

  lemma {:induction false} WalkToSleep(s: State, m: State, t: Tid) returns (u: State)
    requires Going(s, m, t) && m.sh.core.queue == [] && !m.sh.q.QClient? && m.sh.ex != ExSuspended
    ensures Going(s, u, t) && u.sh.w == Sleeping
    decreases ToSleep(m.sh.w)
  {
    hide Reachable, Leads, ThreadStep, WorkerStep, ToSleep, LedgerInv, SleepsInTime, FlagInTime, StopsInTime;
    ReachableInv(m);
    ReachableWorker(m);
    u := m;
    if m.sh.w != Sleeping {
      WorkerNearsSleep(m.sh);
      u := GoOn(s, m, Work, t);
      u := WalkToSleep(s, u, t);
    }
  }

  /** A start holds the queue mutex and is about to make a thread. */
  predicate StartHolds(s: State)
  {
    s.sh.q.QClient? && At(s, s.sh.q.t) == Inside(Launch)
  }

  /** The worker sleeps, or has read the flag set beside an empty queue and is about to sleep. */
  predicate Drowsy(s: Shared)
  {
    s.w == Sleeping || (s.w == Tested && s.core.queue == [])
  }

  /** The worker does not sleep, and cannot come to it without a start that goes on. */
  predicate Awake(s: State)
  {
    !Drowsy(s.sh) && (s.sh.core.running ==> StartHolds(s))
  }

  lemma {:induction false} ClientKeepsAwake(s: State, t: Tid)
    requires Inv(s) && Awake(s) && Step(s, Client(t)).Some? && !Starting(s, Client(t))
    ensures Awake(Step(s, Client(t)).value)
  {
    hide ThreadStep, LedgerInv, SleepsInTime, FlagInTime, StopsInTime;
    var pc := At(s, t);
    assert OwnsAsAt(s.sh, t, pc);
    ThreadShape(s.sh, t, pc);
    if !HoldsQ(pc) {
      QueueIsGuarded(s.sh, t, pc);
    }
  }

  lemma QueueIsGuarded(s: Shared, t: Tid, pc: Pc)
    requires ThreadStep(s, t, pc).Some? && !HoldsQ(pc)
    ensures ThreadStep(s, t, pc).value.sh.core.queue == s.core.queue
  {
  }

  lemma WorkerKeepsAwake(s: Shared)
    requires WorkerLocks(s) && !Drowsy(s) && (s.core.running ==> s.q.QClient?) && WorkerStep(s).Some?
    ensures var s' := WorkerStep(s).value;
            !Drowsy(s') && s'.core.running == s.core.running && (s.q.QClient? ==> s'.q == s.q)
  {
  }

  lemma {:induction false} StepKeepsAwake(s: State, a: Action)
    requires Inv(s) && Awake(s) && Step(s, a).Some? && !Starting(s, a)
    ensures Awake(Step(s, a).value)
  {
    hide ThreadStep, WorkerStep, LedgerInv, SleepsInTime, FlagInTime, StopsInTime;
    match a
    case Client(t) => ClientKeepsAwake(s, t);
    case Work => WorkerKeepsAwake(s.sh);
    case _ =>
  }

  lemma {:induction false} AwakeStays(s: State, run: seq<Action>, t: Tid)
    requires Inv(s) && Awake(s) && Aside(s, run, t) && Exec(s, run).Some?
    ensures Awake(Exec(s, run).value)
    decreases |run|
  {
    hide Step, Inv, Awake, Starting;
    if run != [] {
      StepKeeps(s, run[0]);
      StepKeepsAwake(s, run[0]);
      AwakeStays(Step(s, run[0]).value, run[1..], t);
    }
  }

  /** A set flag, and nobody about to make a second thread: the worker can be brought to sleep. */
  lemma {:induction false} BroughtToSleep(s: State, t: Tid) returns (u: State)
    requires Reachable(s) && At(s, t).Joins? && s.sh.core.running && !StartHolds(s)
    ensures Leads(s, u, t) && Stranded(u, t)
  {
    hide Reachable, Aside, Exec;
    StartsHere(s, t);
    u := FreeQueue(s, s, t);
    u := EmptyQueue(s, u, t);
    u := EndSuspension(s, u, t);
    u := WalkToSleep(s, u, t);
  }

  lemma {:induction false} FallsAsleep(s: State, t: Tid) returns (u: State)
    requires At(s, t).Joins? && Drowsy(s.sh)
    ensures Leads(s, u, t) && Stranded(u, t)
  {
    hide ThreadStep;
    assert Aside(s, [], t) && Exec(s, []) == Some(s);
    u := s;
    if s.sh.w == Tested {
      AsideThen(s, [], Work, t);
      u := Step(s, Work).value;
      assert Exec(s, [] + [Work]) == Some(u);
    }
    JoinWaits(u, t);
  }

  lemma JoinWaits(s: State, t: Tid)
    requires At(s, t).Joins? && s.sh.w == Sleeping
    ensures Step(s, Client(t)) == None && Step(s, Work) == None
  {
  }

  /**
   In any reachable state of a stop that has notified and waits to join: it can be left with a sleeping worker, with no
   further start, exactly when the flag is set and no start is about to make a thread, or the worker sleeps or is about
   to. That takes a start that set the flag after the stop cleared it. (A start that finds a joinable thread ends the
   program; in the model it waits with the queue mutex.)
   */
  lemma {:induction false} StrandedIff(s: State, t: Tid)
    requires Reachable(s) && At(s, t).Joins?
    ensures (exists u :: Leads(s, u, t) && Stranded(u, t)) <==>
            (s.sh.core.running && !StartHolds(s)) || s.sh.w == Sleeping || (s.sh.w == Tested && s.sh.core.queue == [])
    ensures (exists u :: Leads(s, u, t) && Stranded(u, t)) ==> At(s, t).g < s.sh.epoch
  {
    hide Reachable, Aside, Exec, LedgerInv, LocksAgree, SleepsInTime, FlagInTime, StartHolds, Step;
    ReachableInv(s);
    assert StopInTime(s.sh, At(s, t));
    if s.sh.core.running && !StartHolds(s) {
      var u := BroughtToSleep(s, t);
    } else if Drowsy(s.sh) {
      var u := FallsAsleep(s, t);
    } else if u :| Leads(s, u, t) && Stranded(u, t) {
      var run :| Aside(s, run, t) && Exec(s, run) == Some(u);
      AwakeStays(s, run, t);
    }
  }

  lemma StartsHere(s: State, t: Tid)
    requires Reachable(s) && At(s, t).Joins? && s.sh.core.running
    ensures Going(s, s, t)
  {
    hide Reachable;
    assert Aside(s, [], t) && Exec(s, []) == Some(s);
  }

  // ----- a stop that throws -----

  /** Client 1 waits to join a sleeping worker, as after a race with a start, and client 2 clears the flag again. */
  lemma {:induction false} AfterSecondStop() returns (s: State)
    ensures Reachable(s) && s.pcs == map[0 := Idle, 1 := Joins(0), 2 := Locks(Stop(1))]
    ensures s.sh == Shared(Core([], 1, 0, false, false), QFree, ExFree, Sleeping, [], [], {}, 1, true)
  {
    hide Reachable, Exec;
    s := AfterStopNotifies();
    s := Then(s, Work);
    s := Then(s, Work);
    s := Then(s, Work);
    s := Then(s, Call(2, StopScheduler));
    s := Then(s, Client(2));
    s := Then(s, Client(2));
  }

  /** Client 3 suspends. */
  lemma {:induction false} AfterThirdSuspends() returns (s: State)
    ensures Reachable(s) && s.pcs == map[0 := Idle, 1 := Joins(0), 2 := Locks(Stop(1)), 3 := Idle]
    ensures s.sh == Shared(Core([], 1, 0, true, false), QFree, ExSuspended, Sleeping, [], [], {}, 1, true)
  {
    hide Reachable, Exec;
    s := AfterSecondStop();
    s := Then(s, Call(3, SuspendScheduler));
    s := Then(s, Client(3));
    s := Then(s, Client(3));
    s := Then(s, Client(3));
    s := Then(s, Client(3));
  }

  /**
   So the flag need not be set for it: the second stop throws in SuspendScheduler, unset flag and all, and the first
   still waits for a worker that sleeps.
   */
  lemma {:induction false} StrandedWithFlagUnset() returns (s: State)
    ensures Reachable(s) && s.pcs == map[0 := Idle, 1 := Joins(0), 2 := Idle, 3 := Idle]
    ensures !s.sh.core.running && s.sh.w == Sleeping && Stranded(s, 1)
  {
    hide Reachable, Exec;
    s := AfterThirdSuspends();
    s := Then(s, Client(2));
  }

  /** The scheduler is started and the worker goes to sleep. */
  lemma {:induction false} AfterSleep() returns (s: State)
    ensures Reachable(s) && s.pcs == map[0 := Idle]
    ensures s.sh == Shared(Core([], 1, 0, false, true), QFree, ExFree, Sleeping, [], [], {}, 1, false)
  {
    hide Reachable, Exec;
    s := AfterStart();
    s := Then(s, Work);
    s := Then(s, Work);
    s := Then(s, Work);
  }

  /** Client 1 suspends. */
  lemma {:induction false} AfterSuspend() returns (s: State)
    ensures Reachable(s) && s.pcs == map[0 := Idle, 1 := Idle]
    ensures s.sh == Shared(Core([], 1, 0, true, true), QFree, ExSuspended, Sleeping, [], [], {}, 1, false)
  {
    hide Reachable, Exec;
    s := AfterSleep();
    s := Then(s, Call(1, SuspendScheduler));
    s := Then(s, Client(1));
    s := Then(s, Client(1));
    s := Then(s, Client(1));
    s := Then(s, Client(1));
  }

  /** Client 2 calls EnableScheduleTask. */
  lemma {:induction false} AfterEnable() returns (s: State)
    ensures Reachable(s) && s.pcs == map[0 := Idle, 1 := Idle, 2 := Idle]
    ensures s.sh == Shared(Core([], 1, 0, false, true), QFree, ExSuspended, Sleeping, [], [], {}, 1, false)
  {
    hide Reachable, Exec;
    s := AfterSuspend();
    s := Then(s, Call(2, EnableScheduleTask));
    s := Then(s, Client(2));
    s := Then(s, Client(2));
  }

  /** The stop of client 3 then throws in SuspendScheduler: the flag is unset, and the worker sleeps, unnotified and unjoined. */
  lemma {:induction false} ThrowingStopLeavesWorkerAsleep() returns (s: State)
    ensures Reachable(s) && At(s, 3) == Idle && s.sh.stopped && !s.sh.core.running
    ensures s.sh.w == Sleeping && s.sh.ex == ExSuspended && forall t: Tid :: At(s, t) == Idle
  {
    hide Reachable, Exec;
    s := AfterEnable();
    s := Then(s, Call(3, StopScheduler));
    s := Then(s, Client(3));
    s := Then(s, Client(3));
    s := Then(s, Client(3));
    AllIdle(s.pcs);
  }

  lemma AllIdle(pcs: map<Tid, Pc>)
    requires pcs == map[0 := Idle, 1 := Idle, 2 := Idle, 3 := Idle]
    ensures forall t :: t in pcs ==> pcs[t] == Idle
  {
  }
}
