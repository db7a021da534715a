/**
 The promises of PlayerScheduler, for every run of every number of threads.
 */
module SchedulerRuns {
  import opened Scheduler
  import opened SchedulerLedger
  import opened SchedulerLaws
  import opened Wrappers

  ghost predicate Reachable(s: State)
  {
    exists run :: Exec(Init(), run) == Some(s)
  }

  lemma {:induction false} ReachableInv(s: State)
    requires Reachable(s)
    ensures Inv(s)
  {
    hide Inv;
    var run :| Exec(Init(), run) == Some(s);
    InitInv();
    RunKeeps(Init(), run);
  }

  // ----- tasks -----

  /**
   Conservation, order and ids: in every reachable state each accepted task either began, or was taken and is
   about to begin, or is queued, or was removed; never two of these. Bodies begin in the order of acceptance, none
   twice, and a running one is the last that began. Ids stay in [1, INT_MAX - 1].
   */
  lemma {:induction false} TasksConserved(state: State)
    requires Reachable(state)
    ensures var s := state.sh;
            var l := LedgerOf(s);
            (forall k: nat :: k < |s.accepted| <==>
               k in s.begun || k in Numbers(l.taken) || k in Serials(s.core.queue) || k in s.removed) &&
            (forall k: nat :: !(k in s.begun && (k in Numbers(l.taken) || k in Serials(s.core.queue) || k in s.removed)) &&
               !(k in Numbers(l.taken) && (k in Serials(s.core.queue) || k in s.removed)) &&
               !(k in Serials(s.core.queue) && k in s.removed)) &&
            Increasing(s.begun) && Increasing(Line(l)) &&
            (s.w.Running? ==> s.begun != [] && s.begun[|s.begun| - 1] == s.w.task.mData) &&
            (forall k :: 0 <= k < |s.accepted| ==> s.accepted[k] == Task(IdOf(k), k) && 1 <= IdOf(k) < ID_MAX)
  {
    hide Reachable, LedgerInv, LocksAgree, SleepsInTime, FlagInTime, StopsInTime, IdOf, Line;
    ReachableInv(state);
    var s := state.sh;
    var l := LedgerOf(s);
    LedgerParts(l);
    forall k: nat
      ensures k in Line(l) <==> k in s.begun || k in Numbers(l.taken) || k in Serials(l.queue)
      ensures !(k in s.begun && (k in Numbers(l.taken) || k in Serials(l.queue)))
      ensures !(k in Numbers(l.taken) && k in Serials(l.queue))
    {
      Places(l, k);
    }
    forall k: nat | k < |s.accepted|
      ensures 1 <= IdOf(k) < ID_MAX
    {
      NextIdOf(k);
    }
    LineFront(l);
  }

  lemma {:induction false} Places(l: Ledger, k: nat)
    requires Increasing(Line(l))
    ensures k in Line(l) <==> k in l.begun || k in Numbers(l.taken) || k in Serials(l.queue)
    ensures !(k in l.begun && (k in Numbers(l.taken) || k in Serials(l.queue)))
    ensures !(k in Numbers(l.taken) && k in Serials(l.queue))
  {
    InLine(l, k);
    var started, n := Started(l), |l.begun|;
    assert forall i :: 0 <= i < |started| ==> started[i] == Line(l)[i];
    if k in Numbers(l.taken) {
      var j :| 0 <= j < |l.taken| && Numbers(l.taken)[j] == k;
      assert started[n + j] == k;
      assert forall i :: 0 <= i < n ==> l.begun[i] == started[i];
    }
  }

  lemma LineFront(l: Ledger)
    requires Increasing(Line(l))
    ensures Increasing(l.begun)
  {
    assert forall i :: 0 <= i < |l.begun| ==> l.begun[i] == Line(l)[i];
  }

  // ----- what later states keep -----

  predicate Later(l: Ledger, m: Ledger)
  {
    l.begun <= m.begun && l.accepted <= m.accepted && l.removed <= m.removed
  }

  lemma MoveIsLater(l: Ledger, m: Ledger)
    requires Move(l, m)
    ensures Later(l, m)
  {
  }

  lemma {:induction false} RunIsLater(s: State, run: seq<Action>)
    requires Inv(s) && Exec(s, run).Some?
    ensures Later(LedgerOf(s.sh), LedgerOf(Exec(s, run).value.sh))
    decreases |run|
  {
    hide Step, LedgerInv, LocksAgree, SleepsInTime, FlagInTime, StopsInTime, Move;
    if run != [] {
      var s' := Step(s, run[0]).value;
      LedgerParts(LedgerOf(s.sh));
      StepMoves(s, run[0]);
      MoveIsLater(LedgerOf(s.sh), LedgerOf(s'.sh));
      StepKeeps(s, run[0]);
      RunIsLater(s', run[1..]);
    }
  }

  /** A removed task never begins. */
  lemma {:induction false} RemovedNeverBegins(s: State, run: seq<Action>, k: nat)
    requires Reachable(s) && Exec(s, run).Some? && k in s.sh.removed
    ensures k !in Exec(s, run).value.sh.begun
  {
    hide Reachable, Exec, LocksAgree, SleepsInTime, FlagInTime, StopsInTime, Ids, Current;
    ReachableInv(s);
    RunIsLater(s, run);
    RunKeeps(s, run);
    var l := LedgerOf(Exec(s, run).value.sh);
    InLine(l, k);
    assert k in l.begun ==> k in Started(l);
  }

  // ----- suspension -----

  /** No ResumeScheduler (nor the one inside StopScheduler) unlocks mExLock in the run. */
  predicate NoUnlock(s: State, run: seq<Action>)
    decreases |run|
  {
    run == [] ||
    (!(run[0].Client? && At(s, run[0].t).Unlocks?) &&
     (Step(s, run[0]).Some? ==> NoUnlock(Step(s, run[0]).value, run[1..])))
  }

  /** From a completed SuspendScheduler to the next ResumeScheduler no body is running and none begins. */
  lemma {:induction false} SuspendedIsQuiet(s: State, run: seq<Action>)
    requires Reachable(s) && s.sh.ex == ExSuspended && Exec(s, run).Some? && NoUnlock(s, run)
    ensures var u := Exec(s, run).value.sh;
            u.ex == ExSuspended && !u.w.Taken? && !u.w.Running? && u.begun == s.sh.begun
  {
    hide Reachable, Exec;
    ReachableInv(s);
    StaysQuiet(s, run);
  }

  lemma {:induction false} StaysQuiet(s: State, run: seq<Action>)
    requires Inv(s) && s.sh.ex == ExSuspended && Exec(s, run).Some? && NoUnlock(s, run)
    ensures var u := Exec(s, run).value.sh;
            u.ex == ExSuspended && !u.w.Taken? && !u.w.Running? && u.begun == s.sh.begun
    decreases |run|
  {
    hide Inv;
    QuietNow(s);
    if run != [] {
      StepKeeps(s, run[0]);
      QuietStep(s, run[0]);
      StaysQuiet(Step(s, run[0]).value, run[1..]);
    }
  }

  lemma QuietNow(s: State)
    requires Inv(s) && s.sh.ex == ExSuspended
    ensures !WorkerHoldsEx(s.sh.w)
  {
  }

  lemma {:induction false} QuietStep(s: State, a: Action)
    requires s.sh.ex == ExSuspended && !WorkerHoldsEx(s.sh.w) && Step(s, a).Some?
    requires !(a.Client? && At(s, a.t).Unlocks?)
    ensures var u := Step(s, a).value.sh; u.ex == ExSuspended && u.begun == s.sh.begun
  {
    hide Accepted, Erased, Erases, Serials, FirstWithId, HasId;
  }

  // ----- purging -----

  /**
   After RemoveAllTasks no task accepted before it begins, except one the worker had already taken out of the
   queue without having begun it.
   */
  lemma {:induction false} PurgeLeavesOnlyTaken(s: State, t: Tid, run: seq<Action>, m: nat)
    requires Reachable(s) && At(s, t).Inside? && At(s, t).k.Clear? && Step(s, Client(t)).Some?
    requires Exec(Step(s, Client(t)).value, run).Some?
    requires |s.sh.begun| <= m < |Exec(Step(s, Client(t)).value, run).value.sh.begun|
    ensures var k := Exec(Step(s, Client(t)).value, run).value.sh.begun[m];
            k < |s.sh.accepted| ==> s.sh.w.Taken? && s.sh.w.task.mData == k
  {
    hide Reachable, Exec, LocksAgree, SleepsInTime, FlagInTime, StopsInTime, Ids, Current, Line, Started;
    ReachableInv(s);
    var s' := Step(s, Client(t)).value;
    var l, l' := LedgerOf(s.sh), LedgerOf(s'.sh);
    assert ClearMove(l, l') && l'.taken == l.taken;
    StepKeeps(s, Client(t));
    RunIsLater(s', run);
    RunKeeps(s', run);
    var u := LedgerOf(Exec(s', run).value.sh);
    var k := u.begun[m];
    if k < |s.sh.accepted| {
      Places(u, k);
      assert k in u.begun && k !in u.removed;
      assert k !in l'.removed;
      Places(l', k);
      LineFront(u);
      assert forall i :: 0 <= i < |l'.begun| ==> l'.begun[i] == u.begun[i];
      assert k !in l'.begun;
    }
  }

  lemma ClearNow(s: State, t: Tid)
    requires At(s, t).Inside? && At(s, t).k.Clear? && Step(s, Client(t)).Some?
    ensures ClearMove(LedgerOf(s.sh), LedgerOf(Step(s, Client(t)).value.sh))
  {
  }

  /** Purge safety: what was accepted before a purge under suspension and has not begun never begins. */
  lemma {:induction false} PurgeSafety(s: State, t: Tid, run: seq<Action>)
    requires Reachable(s) && At(s, t).Inside? && At(s, t).k.Clear? && Step(s, Client(t)).Some? && s.sh.ex == ExSuspended
    requires Exec(Step(s, Client(t)).value, run).Some?
    ensures var u := Exec(Step(s, Client(t)).value, run).value.sh;
            !s.sh.w.Running? && s.sh.begun <= u.begun &&
            forall m :: |s.sh.begun| <= m < |u.begun| ==> u.begun[m] >= |s.sh.accepted|
  {
    hide Reachable, Exec, Inv, Step;
    var s' := Step(s, Client(t)).value;
    ReachableInv(s);
    QuietNow(s);
    StepKeeps(s, Client(t));
    RunIsLater(s', run);
    ClearNow(s, t);
    forall m | |s.sh.begun| <= m < |Exec(s', run).value.sh.begun|
      ensures Exec(s', run).value.sh.begun[m] >= |s.sh.accepted|
    {
      PurgeLeavesOnlyTaken(s, t, run, m);
    }
  }

  /** After the purge that thread t is about to do in s, the run makes a task begin that was accepted before. */
  predicate BeginsLate(s: State, t: Tid, run: seq<Action>, m: nat)
    requires Step(s, Client(t)).Some?
  {
    var u := Exec(Step(s, Client(t)).value, run);
    u.Some? && |s.sh.begun| <= m < |u.value.sh.begun| && u.value.sh.begun[m] < |s.sh.accepted|
  }

  /** A purge is clean, suspended or not, if and only if the worker holds no task at that moment. */
  lemma {:induction false} PurgeIsCleanIff(s: State, t: Tid)
    requires Reachable(s) && At(s, t).Inside? && At(s, t).k.Clear? && Step(s, Client(t)).Some?
    ensures (forall run, m :: !BeginsLate(s, t, run, m)) <==> !s.sh.w.Taken?
  {
    hide Reachable, Exec;
    if s.sh.w.Taken? {
      var s' := Step(s, Client(t)).value;
      assert s'.sh.w == s.sh.w && s'.sh.begun == s.sh.begun;
      ExecOne(s', Work);
      TakenWasAccepted(s);
      assert BeginsLate(s, t, [Work], |s.sh.begun|);
    } else {
      forall run, m
        ensures !BeginsLate(s, t, run, m)
      {
        if BeginsLate(s, t, run, m) {
          PurgeLeavesOnlyTaken(s, t, run, m);
        }
      }
    }
  }

  lemma ExecOne(s: State, a: Action)
    requires Step(s, a).Some?
    ensures Exec(s, [a]) == Step(s, a)
  {
    hide Step;
    assert [a][1..] == [];
  }

  lemma TakenWasAccepted(s: State)
    requires Reachable(s) && s.sh.w.Taken?
    ensures s.sh.w.task.mData < |s.sh.accepted|
  {
    hide Reachable;
    ReachableInv(s);
    assert LedgerOf(s.sh).taken[0] == s.sh.w.task;
  }

  // ----- without suspension the exception is real -----

  lemma {:induction false} ExecThen(s: State, run: seq<Action>, a: Action)
    requires Exec(s, run).Some? && Step(Exec(s, run).value, a).Some?
    ensures Exec(s, run + [a]) == Step(Exec(s, run).value, a)
    decreases |run|
  {
    hide Step;
    if run == [] {
      assert (run + [a])[1..] == [];
    } else {
      ExecThen(Step(s, run[0]).value, run[1..], a);
      assert (run + [a])[1..] == run[1..] + [a];
    }
  }

  lemma {:induction false} Then(s: State, a: Action) returns (u: State)
    requires Reachable(s) && Step(s, a).Some?
    ensures u == Step(s, a).value && Reachable(u)
  {
    hide Step;
    u := Step(s, a).value;
    var run :| Exec(Init(), run) == Some(s);
    ExecThen(Init(), run, a);
  }

  /** Client 0 starts the scheduler. */
  lemma {:induction false} AfterStart() returns (s: State)
    ensures Reachable(s) && s.pcs == map[0 := Idle]
    ensures s.sh == Shared(Core([], 1, 0, false, true), QFree, ExFree, Entering, [], [], {}, 1, false)
  {
    hide Reachable, Exec;
    InitReachable();
    s := Then(Init(), Call(0, StartScheduler));
    s := Then(s, Client(0));
    s := Then(s, Client(0));
    s := Then(s, Client(0));
  }

  lemma InitReachable()
    ensures Reachable(Init())
  {
    assert Exec(Init(), []) == Some(Init());
  }

  /** Client 1 calls ScheduleTask and gets mQMutex. */
  lemma {:induction false} BeforeAccept() returns (s: State)
    ensures Reachable(s) && s.pcs == map[0 := Idle, 1 := Inside(Accept)]
    ensures s.sh == Shared(Core([], 1, 0, false, true), QClient(1), ExFree, Entering, [], [], {}, 1, false)
  {
    hide Reachable, Exec;
    s := AfterStart();
    s := Then(s, Call(1, ScheduleTask));
    s := Then(s, Client(1));
    s := Then(s, Client(1));
  }

  /** Its task is accepted. */
  lemma {:induction false} AfterSchedule() returns (s: State)
    ensures Reachable(s) && s.pcs == map[0 := Idle, 1 := Idle]
    ensures s.sh == Shared(Core([Task(1, 0)], 2, 0, false, true), QFree, ExFree, Entering, [Task(1, 0)], [], {}, 1, false)
  {
    hide Reachable, Exec;
    s := BeforeAccept();
    s := Then(s, Client(1));
    assert s.sh.core.queue == [Task(1, 0)] && s.sh.accepted == [Task(1, 0)];
    s := Then(s, Client(1));
  }

  /** The worker takes it. */
  lemma {:induction false} AfterTake() returns (s: State)
    ensures Reachable(s) && s.pcs == map[0 := Idle, 1 := Idle]
    ensures s.sh == Shared(Core([], 2, 1, false, true), QFree, ExWorker, Taken(Task(1, 0)), [Task(1, 0)], [], {}, 1, false)
  {
    hide Reachable, Exec;
    s := AfterSchedule();
    s := Then(s, Work);
    s := Then(s, Work);
    s := Then(s, Work);
    s := Then(s, Work);
    s := Then(s, Work);
    s := Then(s, Work);
  }

  /** Client 2 purges; then the body begins, although its task was accepted before the purge. */
  lemma {:induction false} UnsuspendedPurgeIsLate() returns (s: State, t: Tid)
    ensures Reachable(s) && At(s, t) == Inside(Clear(Return)) && s.sh.ex != ExSuspended && |s.sh.accepted| == 1
    ensures Step(s, Client(t)).Some? && Step(Step(s, Client(t)).value, Work).Some?
    ensures s.sh.begun == [] && Step(Step(s, Client(t)).value, Work).value.sh.begun == [0]
  {
    hide Reachable, Exec;
    s := AfterTake();
    t := 2;
    s := Then(s, Call(2, RemoveAllTasks));
    s := Then(s, Client(2));
  }

  // ----- removing one task -----

  lemma {:induction false} UniqueIds(j: nat, k: nat)
    requires j < ID_MAX - 1 && k < ID_MAX - 1 && IdOf(j) == IdOf(k)
    ensures j == k
  {
  }

  /**
   While fewer than INT_MAX tasks were accepted, RemoveTask(id) takes a task out exactly when a queued task has
   that id (the guard against the current task never refuses one), that task is the one it takes, and it never begins.
   */
  lemma {:induction false} RemoveTaskExact(s: State, t: Tid, id: int, run: seq<Action>)
    requires Reachable(s) && At(s, t) == Inside(Erase(id)) && |s.sh.accepted| < ID_MAX
    requires Exec(Step(s, Client(t)).value, run).Some?
    ensures Erases(s.sh.core, id) <==> HasId(s.sh.core.queue, id)
    ensures HasId(s.sh.core.queue, id) ==>
            1 <= id <= |s.sh.accepted| && s.sh.accepted[id - 1].mId == id &&
            Serials(Step(s, Client(t)).value.sh.core.queue) == Serials(s.sh.core.queue) - {id - 1} &&
            id - 1 in Serials(s.sh.core.queue) && id - 1 !in Exec(Step(s, Client(t)).value, run).value.sh.begun
    ensures !HasId(s.sh.core.queue, id) ==> Step(s, Client(t)).value.sh.core.queue == s.sh.core.queue
  {
    hide Reachable, Exec, Inv, Step, Erases, Erased, Serials;
    ReachableInv(s);
    EraseStep(s, t, id);
    var c, s' := s.sh.core, Step(s, Client(t)).value;
    ErasedQueue(c, id);
    if HasId(c.queue, id) {
      var i := FirstWithId(c.queue, id);
      var k := c.queue[i].mData;
      QueuedTask(s, i);
      ReachableNext(s, Client(t));
      RemovedNeverBegins(s', run, k);
    }
  }

  lemma EraseStep(s: State, t: Tid, id: int)
    requires At(s, t) == Inside(Erase(id))
    ensures Step(s, Client(t)).Some? && Step(s, Client(t)).value.sh.core == Erased(s.sh.core, id)
    ensures Erases(s.sh.core, id) ==>
            s.sh.core.queue[FirstWithId(s.sh.core.queue, id)].mData in Step(s, Client(t)).value.sh.removed
  {
    hide FirstWithId, Serials, Accepted;
  }

  lemma ErasedQueue(c: Core, id: int)
    ensures Erases(c, id) <==> id != ID_INVALID && c.currentId != id && HasId(c.queue, id)
    ensures Erases(c, id) ==>
            var i := FirstWithId(c.queue, id);
            Erased(c, id).queue == c.queue[..i] + c.queue[i + 1..]
    ensures !Erases(c, id) ==> Erased(c, id) == c
  {
    hide FirstWithId, HasId;
  }

  /** A queued task, while ids have not come round. */
  lemma {:induction false} QueuedTask(s: State, i: nat)
    requires Inv(s) && |s.sh.accepted| < ID_MAX && i < |s.sh.core.queue|
    ensures var q := s.sh.core.queue;
            var k := q[i].mData;
            k < |s.sh.accepted| && q[i] == s.sh.accepted[k] == Task(k + 1, k) && q[i].mId != s.sh.core.currentId &&
            q[i].mId != ID_INVALID && k in Serials(q) && Serials(q[..i] + q[i + 1..]) == Serials(q) - {k}
  {
    hide LocksAgree, SleepsInTime, FlagInTime, StopsInTime, Serials;
    var l := LedgerOf(s.sh);
    NotCurrent(l, i);
    QueueWithout(l, i);
    var k := l.queue[i].mData;
    assert l.queue[i] == s.sh.accepted[k] == Task(IdOf(k), k);
  }

  lemma ReachableNext(s: State, a: Action)
    requires Reachable(s) && Step(s, a).Some?
    ensures Reachable(Step(s, a).value)
  {
    var u := Then(s, a);
  }

  /** A queued task's id is the current one only if ids have come round. */
  lemma {:induction false} NotCurrent(l: Ledger, i: nat)
    requires LedgerInv(l) && |l.accepted| < ID_MAX && i < |l.queue|
    ensures l.queue[i].mId != l.currentId && l.queue[i].mId != ID_INVALID
  {
    hide IdOf, Conserved;
    LedgerParts(l);
    var k, n := l.queue[i].mData, |Started(l)|;
    NextIdOf(k);
    if n > 0 {
      QueuedIsLater(l, i);
      if IdOf(Started(l)[n - 1]) == IdOf(k) {
        UniqueIds(Started(l)[n - 1], k);
      }
    }
  }

  lemma {:induction false} QueuedIsLater(l: Ledger, i: nat)
    requires Conserved(l) && i < |l.queue| && Started(l) != []
    ensures Started(l)[|Started(l)| - 1] < l.queue[i].mData
  {
    var n := |Started(l)|;
    assert Line(l)[n - 1] == Started(l)[n - 1] && Line(l)[n + i] == l.queue[i].mData;
  }

  lemma {:induction false} QueueWithout(l: Ledger, i: nat)
    requires Increasing(Line(l)) && i < |l.queue|
    ensures Serials(l.queue[..i] + l.queue[i + 1..]) == Serials(l.queue) - {l.queue[i].mData}
    ensures l.queue[i].mData in Serials(l.queue)
  {
    var q, n := l.queue[..i] + l.queue[i + 1..], Numbers(l.queue);
    assert forall j :: 0 <= j < |n| ==> n[j] == Line(l)[|Started(l)| + j];
    WithoutOne(n, i);
    assert Numbers(q) == n[..i] + n[i + 1..];
    forall k: nat
      ensures k in Serials(q) <==> k in Serials(l.queue) && k != l.queue[i].mData
    {
      SerialsNumbers(q, k);
      SerialsNumbers(l.queue, k);
    }
  }

  lemma SerialsNumbers(q: seq<Task>, k: nat)
    ensures k in Serials(q) <==> k in Numbers(q)
  {
    if k in Serials(q) {
      var j :| 0 <= j < |q| && q[j].mData == k;
      assert Numbers(q)[j] == k;
    }
  }

  // ----- waking and stopping -----

  /** No lost wake-up: a worker asleep with nobody about to notify it has nothing to do. */
  lemma {:induction false} SleepMeansEmpty(s: State)
    requires Reachable(s) && s.sh.w == Sleeping && forall t :: !At(s, t).Notifies?
    ensures s.sh.core.queue == []
  {
    hide Reachable;
    ReachableInv(s);
  }

  /** A started worker leaves its loop only after a stop. */
  lemma {:induction false} ExitsOnlyWhenStopped(s: State)
    requires Reachable(s) && s.sh.w == AtTest && !s.sh.core.running
    ensures s.sh.stopped
  {
    hide Reachable;
    ReachableInv(s);
  }

  /** How many steps the worker is from leaving its loop once the flag is unset; 9 while it might sleep. */
  function StepsLeft(w: Worker): nat
  {
    match w
    case NotStarted => 0
    case Exited => 0
    case AtTest => 1
    case Entering => 2
    case Woken => 2
    case Leaving => 2
    case Ended => 3
    case Running(_) => 4
    case Taken(_) => 5
    case Choosing => 6
    case HasEx => 7
    case WantsEx => 8
    case Tested => 9
    case Sleeping => 10
  }

  /**
   While a stop waits to join, and no start has set the flag since it cleared it, the worker is not asleep and no
   step but a new start takes it further from its end; each of its own brings it nearer.
   */
  lemma {:induction false} StopEndsWorker(s: State, t: Tid, a: Action)
    requires Reachable(s) && At(s, t) == Joins(s.sh.epoch) && Step(s, a).Some?
    requires !(a.Client? && (At(s, a.t) == Inside(Launch) || At(s, a.t) == Launching))
    ensures s.sh.w != Sleeping && StepsLeft(s.sh.w) <= 8
    ensures var w' := Step(s, a).value.sh.w;
            StepsLeft(w') <= StepsLeft(s.sh.w) && (a.Work? ==> StepsLeft(w') < StepsLeft(s.sh.w))
  {
    hide Reachable, ThreadStep, WorkerStep, StepsLeft;
    ReachableInv(s);
    assert StopInTime(s.sh, At(s, t));
    Nearest(s.sh.w);
    match a
    case Client(u) =>
      var pc := At(s, u);
      assert OwnsAsAt(s.sh, u, pc);
      ClientNotFurther(s.sh, u, pc);
    case Work => WorkerNearer(s.sh);
    case _ =>
  }

  lemma Nearest(w: Worker)
    requires w != Tested && w != Sleeping
    ensures StepsLeft(w) <= 8
  {
  }

  lemma WorkerNearer(s: Shared)
    requires WorkerStep(s).Some? && !s.core.running && s.w != Tested
    ensures StepsLeft(WorkerStep(s).value.w) < StepsLeft(s.w)
  {
  }

  lemma {:induction false} ClientNotFurther(s: Shared, t: Tid, pc: Pc)
    requires OwnsAsAt(s, t, pc) && ThreadStep(s, t, pc).Some? && pc != Inside(Launch)
    ensures StepsLeft(ThreadStep(s, t, pc).value.sh.w) <= StepsLeft(s.w)
  {
    hide ThreadStep;
    ThreadShape(s, t, pc);
    if ThreadStep(s, t, pc).value.pc == Launching {
      LaunchesOnly(s, t, pc);
    }
  }

  lemma LaunchesOnly(s: Shared, t: Tid, pc: Pc)
    requires ThreadStep(s, t, pc).Some? && ThreadStep(s, t, pc).value.pc == Launching
    ensures pc == Inside(Launch)
  {
    hide Accepted, Erased, Erases, Serials, FirstWithId, HasId;
  }

  /** The flag is set again by a start that was under way when client 1 cleared it. */
  lemma {:induction false} AfterRace() returns (s: State)
    ensures Reachable(s) && s.pcs == map[0 := Idle, 1 := ReadsLockOut(0)]
    ensures s.sh == Shared(Core([], 1, 0, false, true), QFree, ExFree, Entering, [], [], {}, 1, true)
  {
    hide Reachable, Exec;
    InitReachable();
    s := Then(Init(), Call(0, StartScheduler));
    s := Then(s, Client(0));
    s := Then(s, Client(0));
    s := Then(s, Call(1, StopScheduler));
    s := Then(s, Client(1));
    s := Then(s, Client(0));
  }

  /** Client 1 runs StopScheduler up to the end of its suspension. */
  lemma {:induction false} AfterStopSuspends() returns (s: State)
    ensures Reachable(s) && s.pcs == map[0 := Idle, 1 := Wants(Clear(Stop(0)))]
    ensures s.sh == Shared(Core([], 1, 0, true, true), QFree, ExSuspended, Entering, [], [], {}, 1, true)
  {
    hide Reachable, Exec;
    s := AfterRace();
    s := Then(s, Client(1));
    s := Then(s, Client(1));
    s := Then(s, Client(1));
    s := Then(s, Client(1));
    s := Then(s, Client(1));
  }

  /** Then up to the join. */
  lemma {:induction false} AfterStopNotifies() returns (s: State)
    ensures Reachable(s) && s.pcs == map[0 := Idle, 1 := Joins(0)]
    ensures s.sh == Shared(Core([], 1, 0, false, true), QFree, ExFree, Entering, [], [], {}, 1, true)
  {
    hide Reachable, Exec;
    s := AfterStopSuspends();
    s := Then(s, Client(1));
    s := Then(s, Client(1));
    assert s.sh.removed == {};
    s := Then(s, Client(1));
    s := Then(s, Client(1));
    s := Then(s, Client(1));
    s := Then(s, Client(1));
  }

  /** So a stop that races a start can notify and then wait to join a worker that sleeps. */
  lemma {:induction false} RacingStopCanHang() returns (s: State)
    ensures Reachable(s) && At(s, 1) == Joins(0) && s.sh.w == Sleeping && s.sh.core.running && s.sh.epoch == 1
    ensures Step(s, Client(1)) == None && Step(s, Work) == None
  {
    hide Reachable, Exec;
    s := AfterStopNotifies();
    s := Then(s, Work);
    s := Then(s, Work);
    s := Then(s, Work);
  }

  // ----- lock order -----

  /** Nobody waits for the execution mutex while holding the queue mutex, and whoever holds the latter can go on. */
  lemma {:induction false} NoLockCycle(s: State)
    requires Reachable(s)
    ensures s.sh.q == QWorker ==> s.sh.w != WantsEx && WorkerStep(s.sh).Some?
    ensures s.sh.q.QClient? ==>
            var pc := At(s, s.sh.q.t);
            !pc.Waits? && (pc == Inside(Launch) || Step(s, Client(s.sh.q.t)).Some?)
    ensures s.sh.ex == ExWorker ==> WorkerStep(s.sh).Some? || (s.sh.q != QFree && s.sh.q != QWorker)
  {
    hide Reachable, ThreadStep, WorkerStep;
    ReachableInv(s);
    WorkerGoesOn(s.sh);
    if s.sh.q.QClient? {
      assert OwnsAsAt(s.sh, s.sh.q.t, At(s, s.sh.q.t));
      HolderGoesOn(s.sh, s.sh.q.t, At(s, s.sh.q.t));
    }
  }

  lemma {:induction false} HolderGoesOn(s: Shared, t: Tid, pc: Pc)
    requires HoldsQ(pc)
    ensures !pc.Waits? && (pc == Inside(Launch) || ThreadStep(s, t, pc).Some?)
  {
    hide Accepted, Erased, Erases, Serials, FirstWithId, HasId;
  }

  lemma {:induction false} WorkerGoesOn(s: Shared)
    requires WorkerLocks(s)
    ensures s.q == QWorker ==> s.w != WantsEx && WorkerStep(s).Some?
    ensures s.ex == ExWorker ==> WorkerStep(s).Some? || (s.q != QFree && s.q != QWorker)
  {
    hide Popped;
  }
}
