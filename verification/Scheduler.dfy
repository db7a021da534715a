/**
 PlayerScheduler: one worker, a queue mutex, an execution mutex and any number of client threads.
 The class holds the fields and what each critical section does to them; the protocol around the
 two mutexes is a state machine over the same functions.
 */
module Scheduler {
  import opened Wrappers

  /** PLAYER_SCHEDULER_ID_MAX_VALUE, PLAYER_SCHEDULER_ID_DEFAULT and PLAYER_TASK_ID_INVALID. */
  const ID_MAX: int := 0x7fff_ffff
  const ID_DEFAULT: int := 1
  const ID_INVALID: int := 0

  /** A queued task: its id, and its payload, which the protocol below takes to be its acceptance number. */
  datatype Task = Task(mId: int, mData: nat)

  /** The fields mQMutex protects, and mSchedulerRunning. */
  datatype Core = Core(queue: seq<Task>, nextId: int, currentId: int, lockOut: bool, running: bool)

  // ----- what the critical sections do -----

  function NextId(id: int): int
  {
    if id + 1 >= ID_MAX then ID_DEFAULT else id + 1
  }

  function Accepted(c: Core, data: nat): Core
  {
    if c.lockOut then c
    else c.(queue := c.queue + [Task(c.nextId, data)], nextId := NextId(c.nextId))
  }

  predicate HasId(q: seq<Task>, id: int)
  {
    exists i :: 0 <= i < |q| && q[i].mId == id
  }

  function FirstWithId(q: seq<Task>, id: int): (i: nat)
    requires HasId(q, id)
    ensures i < |q| && q[i].mId == id && forall j :: 0 <= j < i ==> q[j].mId != id
  {
    if q[0].mId == id then 0
    else
      assert HasId(q[1..], id) by {
        var i :| 0 <= i < |q| && q[i].mId == id;
        assert q[1..][i - 1].mId == id;
      }
      1 + FirstWithId(q[1..], id)
  }

  /** Whether RemoveTask takes a task out of the queue, which is also what it returns. */
  predicate Erases(c: Core, id: int)
  {
    id != ID_INVALID && c.currentId != id && HasId(c.queue, id)
  }

  function Erased(c: Core, id: int): Core
  {
    if Erases(c, id) then
      var i := FirstWithId(c.queue, id);
      c.(queue := c.queue[..i] + c.queue[i + 1..])
    else c
  }

  /** The worker takes the front task: it runs unless its id is invalid. */
  function Popped(c: Core): Core
    requires c.queue != []
  {
    var t := c.queue[0];
    c.(queue := c.queue[1..], currentId := if t.mId != ID_INVALID then t.mId else c.currentId)
  }

  // ----- the object -----

  class PlayerScheduler {
    var mTaskQueue: seq<Task>
    var mSchedulerRunning: bool
    var mNextTaskId: int
    var mCurrentTaskId: int
    var mLockOut: bool
    var mExLockOwns: bool  // whether mExLock holds mExMutex

    function View(): Core
      reads this
    {
      Core(mTaskQueue, mNextTaskId, mCurrentTaskId, mLockOut, mSchedulerRunning)
    }

    constructor ()
      ensures View() == Core([], ID_DEFAULT, ID_INVALID, false, false) && !mExLockOwns
    {
      mTaskQueue := [];
      mSchedulerRunning := false;
      mNextTaskId := ID_DEFAULT;
      mCurrentTaskId := ID_INVALID;
      mLockOut := false;
      mExLockOwns := false;
    }

    method ScheduleTask(data: nat) returns (id: int)
      modifies this`mTaskQueue, this`mNextTaskId, this`mCurrentTaskId
      ensures View() == if old(mSchedulerRunning) then Accepted(old(View()), data) else old(View())
      ensures id == if old(mSchedulerRunning) && !old(mLockOut) then old(mNextTaskId) else ID_INVALID
      ensures mTaskQueue == old(mTaskQueue) + (if old(mSchedulerRunning) && !old(mLockOut) then [Task(id, data)] else [])
      ensures !(old(mSchedulerRunning) && !old(mLockOut)) ==> id == 0 && mNextTaskId == old(mNextTaskId)
      ensures old(mSchedulerRunning) && !old(mLockOut) ==>
                mNextTaskId == if old(mNextTaskId) < 0x7fff_fffe then old(mNextTaskId) + 1 else 1
      ensures mCurrentTaskId == old(mCurrentTaskId)
    {
      id := ID_INVALID;
      if mSchedulerRunning {
        if !mLockOut {
          id := mNextTaskId;
          mNextTaskId := mNextTaskId + 1;
          if mNextTaskId >= ID_MAX {
            mNextTaskId := ID_DEFAULT;
          }
          mTaskQueue := mTaskQueue + [Task(id, data)];
        }
      }
    }

    method RemoveTask(id: int) returns (ret: bool)
      modifies this`mTaskQueue, this`mNextTaskId, this`mCurrentTaskId
      ensures View() == Erased(old(View()), id) && ret == Erases(old(View()), id)
      ensures ret <==> id != 0 && old(mCurrentTaskId) != id &&
                       exists i :: 0 <= i < |old(mTaskQueue)| && old(mTaskQueue)[i].mId == id
      ensures ret ==> exists i :: 0 <= i < |old(mTaskQueue)| && old(mTaskQueue)[i].mId == id &&
                        (forall j :: 0 <= j < i ==> old(mTaskQueue)[j].mId != id) &&
                        mTaskQueue == old(mTaskQueue)[..i] + old(mTaskQueue)[i + 1..]
      ensures !ret ==> mTaskQueue == old(mTaskQueue)
      ensures mNextTaskId == old(mNextTaskId) && mCurrentTaskId == old(mCurrentTaskId)
    {
      ret := false;
      if id != ID_INVALID && mCurrentTaskId != id {
        ghost var was := mTaskQueue;
        var it := 0;
        while it < |mTaskQueue|
          invariant 0 <= it <= |mTaskQueue| && mTaskQueue == was && View() == old(View()) && !ret
          invariant forall j :: 0 <= j < it ==> was[j].mId != id
        {
          if mTaskQueue[it].mId == id {
            assert it == FirstWithId(was, id);
            mTaskQueue := mTaskQueue[..it] + mTaskQueue[it + 1..];
            ret := true;
            break;
          } else {
            it := it + 1;
          }
        }
      }
    }

    method RemoveAllTasks()
      modifies this`mTaskQueue, this`mNextTaskId, this`mCurrentTaskId
      ensures View() == old(View()).(queue := [])
    {
      if mTaskQueue != [] {
        mTaskQueue := [];
      }
    }

    /** Locks mExLock, which throws if it owns its mutex already; ok is false then. */
    method SuspendScheduler() returns (ok: bool)
      modifies this`mExLockOwns, this`mLockOut
      ensures ok == !old(mExLockOwns) && mExLockOwns
      ensures View() == if ok then old(View()).(lockOut := true) else old(View())
    {
      ok := !mExLockOwns;
      if ok {
        mExLockOwns := true;
        mLockOut := true;
      }
    }

    /** Unlocks mExLock, which throws if it does not own its mutex. */
    method ResumeScheduler() returns (ok: bool)
      modifies this`mExLockOwns, this`mLockOut
      ensures ok == old(mExLockOwns) && !mExLockOwns
      ensures View() == if ok then old(View()).(lockOut := false) else old(View())
    {
      ok := mExLockOwns;
      if ok {
        mExLockOwns := false;
        mLockOut := false;
      }
    }

    method EnableScheduleTask()
      modifies this`mLockOut
      ensures View() == old(View()).(lockOut := false)
    {
      mLockOut := false;
    }

    method StartScheduler()
      modifies this`mSchedulerRunning
      ensures View() == old(View()).(running := true)
    {
      mSchedulerRunning := true;
    }

    /**
     The calls StopScheduler makes before it joins the worker. They go through exactly when the lock-out flag tells
     the truth about mExLock, which EnableScheduleTask during a suspension spoils; otherwise one of them throws.
     */
    method StopScheduler() returns (ok: bool)
      modifies this
      ensures ok <==> old(mLockOut) == old(mExLockOwns)
      ensures ok ==> View() == old(View()).(queue := [], lockOut := false, running := false) && !mExLockOwns
      ensures !ok ==> mExLockOwns == old(mExLockOwns) &&
                      View() == old(View()).(running := false, queue := if old(mLockOut) then [] else old(mTaskQueue))
    {
      mSchedulerRunning := false;
      if !mLockOut {
        ok := SuspendScheduler();
        if !ok {
          return;
        }
      }
      RemoveAllTasks();
      ok := ResumeScheduler();
    }

    /** The worker's critical section under both mutexes: the task to run, if there is one. */
    method TakeTask() returns (task: Option<Task>)
      modifies this`mTaskQueue, this`mNextTaskId, this`mCurrentTaskId
      ensures View() == if old(mTaskQueue) == [] then old(View()) else Popped(old(View()))
      ensures task == if old(mTaskQueue) == [] || old(mTaskQueue)[0].mId == ID_INVALID then None
                      else Some(old(mTaskQueue)[0])
      ensures mTaskQueue == if old(mTaskQueue) == [] then [] else old(mTaskQueue)[1..]
      ensures mCurrentTaskId == if task.Some? then task.value.mId else old(mCurrentTaskId)
      ensures mNextTaskId == old(mNextTaskId)
      ensures old(mTaskQueue) != [] && old(mTaskQueue)[0].mId != 0 ==> task == Some(old(mTaskQueue)[0])
      ensures old(mTaskQueue) != [] && old(mTaskQueue)[0].mId == 0 ==> task == None
    {
      task := None;
      if mTaskQueue != [] {
        var obj := mTaskQueue[0];
        mTaskQueue := mTaskQueue[1..];
        if obj.mId != ID_INVALID {
          mCurrentTaskId := obj.mId;
          task := Some(obj);
        }
      }
    }
  }

  // ----- the protocol -----

  type Tid = nat

  datatype QOwner = QFree | QWorker | QClient(t: Tid)

  /** mExMutex: free, held by the worker, or held through mExLock, the lock Suspend and Resume share. */
  datatype ExOwner = ExFree | ExWorker | ExSuspended

  /** Where the worker is in ExecuteAsyncTask. */
  datatype Worker =
    | NotStarted           // no thread, or the thread was joined
    | Entering             // about to lock mQMutex
    | AtTest               // holds mQMutex, about to read mSchedulerRunning
    | Tested               // holds mQMutex, has read true
    | Sleeping             // in mQCond.wait, mQMutex released
    | Woken                // about to lock mQMutex again
    | WantsEx              // has released mQMutex, waits for mExMutex
    | HasEx                // holds mExMutex, waits for mQMutex
    | Choosing             // holds both
    | Taken(task: Task)    // holds mExMutex, the body has not begun
    | Running(task: Task)  // holds mExMutex, in the body
    | Ended                // holds mExMutex, waits for mQMutex
    | Leaving              // holds both, about to release mExMutex
    | Exited

  /** What follows a sub-operation: its caller, or the rest of the StopScheduler that cleared the flag in epoch g. */
  datatype After = Return | Stop(g: nat)

  /** The critical sections of mQMutex. */
  datatype Section = Accept | Erase(id: int) | Clear(then_: After) | SetOut(then_: After) | SetIn(then_: After) |
                     Enable | Launch

  /** Where a client thread is. */
  datatype Pc =
    | Idle
    | Reads                    // ScheduleTask, about to read mSchedulerRunning
    | Wants(k: Section)        // about to lock mQMutex
    | Inside(k: Section)       // holds mQMutex
    | Notifies                 // ScheduleTask holds mQMutex, the task is in the queue
    | Launching                // StartScheduler holds mQMutex, the thread exists, the flag is not set
    | ClearsFlag               // StopScheduler, about to clear mSchedulerRunning
    | ReadsLockOut(g: nat)     // StopScheduler, about to read mLockOut
    | Locks(then_: After)      // SuspendScheduler, about to lock mExLock
    | Waits(then_: After)      // SuspendScheduler, waits for mExMutex
    | Unlocks(then_: After)    // ResumeScheduler, about to unlock mExLock
    | StopNotifies(g: nat)
    | Joins(g: nat)

  datatype Op = ScheduleTask | RemoveTask(id: int) | RemoveAllTasks | SuspendScheduler | ResumeScheduler |
                EnableScheduleTask | StartScheduler | StopScheduler

  /**
   What the threads share. The last five components are history: tasks accepted so far, numbers of the tasks whose
   body has begun, numbers removed, how often StartScheduler has set the flag, and whether a stop cleared it since
   the worker's thread was made.
   */
  datatype Shared = Shared(core: Core, q: QOwner, ex: ExOwner, w: Worker, accepted: seq<Task>, begun: seq<nat>,
                           removed: set<nat>, epoch: nat, stopped: bool)

  datatype State = State(sh: Shared, pcs: map<Tid, Pc>)

  datatype Action = Call(t: Tid, op: Op) | Client(t: Tid) | Work | SpuriousWake

  function At(s: State, t: Tid): Pc
  {
    if t in s.pcs then s.pcs[t] else Idle
  }

  function Init(): State
  {
    State(Shared(Core([], ID_DEFAULT, ID_INVALID, false, false), QFree, ExFree, NotStarted, [], [], {}, 0, false), map[])
  }

  function Entry(op: Op): Pc
  {
    match op
    case ScheduleTask => Reads
    case RemoveTask(id) => Wants(Erase(id))
    case RemoveAllTasks => Wants(Clear(Return))
    case SuspendScheduler => Locks(Return)
    case ResumeScheduler => Unlocks(Return)
    case EnableScheduleTask => Wants(Enable)
    case StartScheduler => Wants(Launch)
    case StopScheduler => ClearsFlag
  }

  /** The numbers of the tasks in a queue. */
  function Serials(q: seq<Task>): set<nat>
  {
    set i | 0 <= i < |q| :: q[i].mData
  }

  /** What a client step leaves: the shared state, and where the thread is. */
  datatype Out = Out(sh: Shared, pc: Pc)

  /** The critical section k of the thread that holds mQMutex. */
  function InSection(s: Shared, k: Section): Option<Out>
  {
    match k
    case Accept =>
      var n := |s.accepted|;
      if s.core.lockOut then Some(Out(s.(q := QFree), Idle))
      else Some(Out(s.(core := Accepted(s.core, n), accepted := s.accepted + [Task(s.core.nextId, n)]), Notifies))
    case Erase(id) =>
      var gone := if Erases(s.core, id) then {s.core.queue[FirstWithId(s.core.queue, id)].mData} else {};
      Some(Out(s.(q := QFree, core := Erased(s.core, id), removed := s.removed + gone), Idle))
    case Clear(a) =>
      var s' := s.(q := QFree, core := s.core.(queue := []), removed := s.removed + Serials(s.core.queue));
      Some(Out(s', if a.Stop? then Unlocks(a) else Idle))
    case SetOut(a) =>
      Some(Out(s.(q := QFree, core := s.core.(lockOut := true)), if a.Stop? then Wants(Clear(a)) else Idle))
    case SetIn(a) =>
      Some(Out(s.(q := QFree, core := s.core.(lockOut := false)), if a.Stop? then StopNotifies(a.g) else Idle))
    case Enable => Some(Out(s.(q := QFree, core := s.core.(lockOut := false)), Idle))
    // assigning to a joinable std::thread ends the program
    case Launch => if s.w == NotStarted then Some(Out(s.(w := Entering, stopped := false), Launching)) else None
  }

  function Notified(w: Worker): Worker
  {
    if w == Sleeping then Woken else w
  }

  /** The next step of a thread t that is at pc; None when it has to wait. */
  function ThreadStep(s: Shared, t: Tid, pc: Pc): Option<Out>
  {
    match pc
    case Idle => None
    case Reads => Some(Out(s, if s.core.running then Wants(Accept) else Idle))
    case Wants(k) => if s.q == QFree then Some(Out(s.(q := QClient(t)), Inside(k))) else None
    case Inside(k) => InSection(s, k)
    case Notifies => Some(Out(s.(q := QFree, w := Notified(s.w)), Idle))
    case Launching => Some(Out(s.(q := QFree, core := s.core.(running := true), epoch := s.epoch + 1), Idle))
    case ClearsFlag => Some(Out(s.(core := s.core.(running := false), stopped := true), ReadsLockOut(s.epoch)))
    case ReadsLockOut(g) => Some(Out(s, if s.core.lockOut then Wants(Clear(Stop(g))) else Locks(Stop(g))))
    // locking a std::unique_lock that already owns its mutex throws
    case Locks(a) => Some(Out(s, if s.ex == ExSuspended then Idle else Waits(a)))
    case Waits(a) => if s.ex == ExFree then Some(Out(s.(ex := ExSuspended), Wants(SetOut(a)))) else None
    // and unlocking one that does not own it throws
    case Unlocks(a) =>
      if s.ex == ExSuspended then Some(Out(s.(ex := ExFree), Wants(SetIn(a)))) else Some(Out(s, Idle))
    case StopNotifies(g) => Some(Out(s.(w := Notified(s.w)), Joins(g)))
    case Joins(g) => if s.w.Exited? || s.w.NotStarted? then Some(Out(s.(w := NotStarted), Idle)) else None
  }

  /** The next step of the worker; None when it has to wait. */
  function WorkerStep(s: Shared): Option<Shared>
  {
    match s.w
    case NotStarted => None
    case Entering => if s.q == QFree then Some(s.(w := AtTest, q := QWorker)) else None
    case AtTest => if s.core.running then Some(s.(w := Tested)) else Some(s.(w := Exited, q := QFree))
    case Tested => Some(s.(w := if s.core.queue == [] then Sleeping else WantsEx, q := QFree))
    case Sleeping => None
    case Woken => if s.q == QFree then Some(s.(w := AtTest, q := QWorker)) else None
    case WantsEx => if s.ex == ExFree then Some(s.(w := HasEx, ex := ExWorker)) else None
    case HasEx => if s.q == QFree then Some(s.(w := Choosing, q := QWorker)) else None
    case Choosing =>
      if s.core.queue == [] then Some(s.(w := Leaving))
      else
        var t := s.core.queue[0];
        if t.mId != ID_INVALID then Some(s.(w := Taken(t), q := QFree, core := Popped(s.core)))
        else Some(s.(w := Leaving, core := Popped(s.core), removed := s.removed + {t.mData}))
    case Taken(t) => Some(s.(w := Running(t), begun := s.begun + [t.mData]))
    case Running(t) => Some(s.(w := Ended))
    case Ended => if s.q == QFree then Some(s.(w := Leaving, q := QWorker)) else None
    case Leaving => Some(s.(w := AtTest, ex := ExFree))
    case Exited => None
  }

  function Step(s: State, a: Action): Option<State>
  {
    match a
    case Call(t, op) => if At(s, t) == Idle then Some(s.(pcs := s.pcs[t := Entry(op)])) else None
    case Client(t) =>
      var r := ThreadStep(s.sh, t, At(s, t));
      if r.Some? then Some(State(r.value.sh, s.pcs[t := r.value.pc])) else None
    case Work =>
      var r := WorkerStep(s.sh);
      if r.Some? then Some(s.(sh := r.value)) else None
    case SpuriousWake => if s.sh.w == Sleeping then Some(s.(sh := s.sh.(w := Woken))) else None
  }

  /** The state after a sequence of actions, if every one of them is possible. */
  function Exec(s: State, run: seq<Action>): Option<State>
    decreases |run|
  {
    if run == [] then Some(s)
    else
      match Step(s, run[0])
      case Some(s') => Exec(s', run[1..])
      case None => None
  }
}
