/**
 One call of PlayerScheduler, and one round of its worker, that nobody interferes with: what the protocol does then,
 and that it is what the methods of the class do.
 */
module SchedulerSteps {
  import opened Scheduler
  import opened Wrappers

  // ----- steps of one thread in a row -----

  function Clients(t: Tid, n: nat): seq<Action>
  {
    if n == 0 then [] else [Client(t)] + Clients(t, n - 1)
  }

  function Works(n: nat): seq<Action>
  {
    if n == 0 then [] else [Work] + Works(n - 1)
  }

  /** The state after a call and n steps of its thread, with no other step in between. */
  function Alone(s: State, t: Tid, op: Op, n: nat): Option<State>
  {
    Exec(s, [Call(t, op)] + Clients(t, n))
  }

  /** n steps of thread t from pc, on what the threads share. */
  function Thread(s: Shared, t: Tid, pc: Pc, n: nat): Option<Out>
    decreases n
  {
    if n == 0 then Some(Out(s, pc))
    else
      match ThreadStep(s, t, pc)
      case Some(o) => Thread(o.sh, t, o.pc, n - 1)
      case None => None
  }

  lemma {:induction false} ThreadIsExec(s: State, t: Tid, n: nat)
    requires t in s.pcs
    ensures var r := Thread(s.sh, t, s.pcs[t], n);
            r.Some? ==> Exec(s, Clients(t, n)) == Some(State(r.value.sh, s.pcs[t := r.value.pc]))
    decreases n
  {
    hide ThreadStep;
    if n == 0 {
      assert s.pcs[t := s.pcs[t]] == s.pcs;
    } else {
      var o := ThreadStep(s.sh, t, s.pcs[t]);
      if o.Some? {
        var s' := State(o.value.sh, s.pcs[t := o.value.pc]);
        assert Step(s, Client(t)) == Some(s');
        assert Clients(t, n)[1..] == Clients(t, n - 1);
        ThreadIsExec(s', t, n - 1);
        var r := Thread(s.sh, t, s.pcs[t], n);
        if r.Some? {
          assert s'.pcs[t := r.value.pc] == s.pcs[t := r.value.pc];
        }
      }
    }
  }

  lemma {:induction false} AloneIsThread(s: State, t: Tid, op: Op, n: nat)
    requires At(s, t) == Idle
    ensures var r := Thread(s.sh, t, Entry(op), n);
            r.Some? ==> Alone(s, t, op, n) == Some(State(r.value.sh, s.pcs[t := r.value.pc]))
  {
    hide ThreadStep, Entry, Thread;
    var s' := s.(pcs := s.pcs[t := Entry(op)]);
    assert Step(s, Call(t, op)) == Some(s');
    assert ([Call(t, op)] + Clients(t, n))[1..] == Clients(t, n);
    ThreadIsExec(s', t, n);
    var r := Thread(s.sh, t, Entry(op), n);
    if r.Some? {
      assert s'.pcs[t := r.value.pc] == s.pcs[t := r.value.pc];
    }
  }

  /** m steps and then n more. */
  lemma {:induction false} ThreadOn(s: Shared, t: Tid, pc: Pc, m: nat, n: nat)
    ensures var r := Thread(s, t, pc, m);
            r.Some? ==> Thread(s, t, pc, m + n) == Thread(r.value.sh, t, r.value.pc, n)
    decreases m
  {
    hide ThreadStep;
    if m > 0 {
      var o := ThreadStep(s, t, pc);
      if o.Some? {
        ThreadOn(o.value.sh, t, o.value.pc, m - 1, n);
      }
    }
  }

  // ----- what each call does when nobody interferes -----

  /** The worker after a notification. */
  function Awoken(w: Worker): (r: Worker)
    ensures w.Sleeping? ==> r.Woken?
    ensures !w.Sleeping? ==> r == w
  {
    Notified(w)
  }

  /** A scheduler that is not running, or is locked out, accepts nothing: neither queue nor id changes. */
  lemma {:induction false} ScheduleRefused(s: State, t: Tid)
    requires At(s, t) == Idle && s.sh.q == QFree && (!s.sh.core.running || s.sh.core.lockOut)
    ensures Alone(s, t, ScheduleTask, if s.sh.core.running then 3 else 1) == Some(s.(pcs := s.pcs[t := Idle]))
  {
    AloneIsThread(s, t, ScheduleTask, if s.sh.core.running then 3 else 1);
    var s1 := s.sh.(q := QClient(t));
    if s.sh.core.running {
      assert Thread(s.sh, t, Reads, 3) == Thread(s.sh, t, Wants(Accept), 2) == Thread(s1, t, Inside(Accept), 1);
      assert s1.(q := QFree) == s.sh;
      assert Thread(s.sh, t, Idle, 0) == Some(Out(s.sh, Idle));
    } else {
      assert Thread(s.sh, t, Reads, 1) == Thread(s.sh, t, Idle, 0);
    }
  }

  /** One that runs and is open appends the task under the next id and wakes the worker. */
  lemma {:induction false} ScheduleAccepted(s: State, t: Tid)
    requires At(s, t) == Idle && s.sh.q == QFree && s.sh.core.running && !s.sh.core.lockOut
    ensures var was, task := s.sh.core, Task(s.sh.core.nextId, |s.sh.accepted|);
            Alone(s, t, ScheduleTask, 4) ==
            Some(State(s.sh.(core := Core(was.queue + [task], if was.nextId < 0x7fff_fffe then was.nextId + 1 else 1,
                                          was.currentId, false, true),
                             accepted := s.sh.accepted + [task], w := Awoken(s.sh.w)),
                       s.pcs[t := Idle]))
  {
    AloneIsThread(s, t, ScheduleTask, 4);
    var s1 := s.sh.(q := QClient(t));
    var o := InSection(s1, Accept).value;
    assert o.pc == Notifies;
    var s3 := o.sh.(q := QFree, w := Notified(s.sh.w));
    assert Thread(s.sh, t, Reads, 4) == Thread(s.sh, t, Wants(Accept), 3) == Thread(s1, t, Inside(Accept), 2) ==
           Thread(o.sh, t, Notifies, 1);
    assert Thread(o.sh, t, Notifies, 1) == Thread(s3, t, Idle, 0);
  }

  /** RemoveTask takes out the first queued task with the id. */
  lemma {:induction false} RemoveErases(s: State, t: Tid, id: int, i: nat)
    requires At(s, t) == Idle && s.sh.q == QFree && id != 0 && s.sh.core.currentId != id
    requires i < |s.sh.core.queue| && s.sh.core.queue[i].mId == id
    requires forall j :: 0 <= j < i ==> s.sh.core.queue[j].mId != id
    ensures var was := s.sh.core.queue;
            Alone(s, t, RemoveTask(id), 2) ==
            Some(State(s.sh.(core := s.sh.core.(queue := was[..i] + was[i + 1..]), removed := s.sh.removed + {was[i].mData}),
                       s.pcs[t := Idle]))
  {
    AloneIsThread(s, t, RemoveTask(id), 2);
    var s1 := s.sh.(q := QClient(t));
    assert HasId(s.sh.core.queue, id) && FirstWithId(s.sh.core.queue, id) == i;
    assert Thread(s.sh, t, Wants(Erase(id)), 2) == Thread(s1, t, Inside(Erase(id)), 1);
    assert Thread(s1, t, Inside(Erase(id)), 1) == Thread(InSection(s1, Erase(id)).value.sh, t, Idle, 0);
  }

  /** It changes nothing for the invalid id, the current one, and one that no queued task has. */
  lemma {:induction false} RemoveFindsNone(s: State, t: Tid, id: int)
    requires At(s, t) == Idle && s.sh.q == QFree
    requires id == 0 || s.sh.core.currentId == id || forall j :: 0 <= j < |s.sh.core.queue| ==> s.sh.core.queue[j].mId != id
    ensures Alone(s, t, RemoveTask(id), 2) == Some(s.(pcs := s.pcs[t := Idle]))
  {
    AloneIsThread(s, t, RemoveTask(id), 2);
    var s1 := s.sh.(q := QClient(t));
    assert Thread(s.sh, t, Wants(Erase(id)), 2) == Thread(s1, t, Inside(Erase(id)), 1);
    var o := InSection(s1, Erase(id)).value;
    assert o.sh.removed == s.sh.removed;
    assert o.sh == s.sh;
    assert Thread(s1, t, Inside(Erase(id)), 1) == Thread(s.sh, t, Idle, 0);
  }

  lemma {:induction false} RemoveAllEmpties(s: State, t: Tid)
    requires At(s, t) == Idle && s.sh.q == QFree
    ensures var r := Alone(s, t, RemoveAllTasks, 2);
            r.Some? && r.value.pcs == s.pcs[t := Idle] &&
            r.value.sh == s.sh.(core := s.sh.core.(queue := []), removed := r.value.sh.removed) &&
            forall k :: k in r.value.sh.removed <==>
              k in s.sh.removed || exists i :: 0 <= i < |s.sh.core.queue| && s.sh.core.queue[i].mData == k
  {
    AloneIsThread(s, t, RemoveAllTasks, 2);
    var s1 := s.sh.(q := QClient(t));
    assert Thread(s.sh, t, Wants(Clear(Return)), 2) == Thread(s1, t, Inside(Clear(Return)), 1);
    var o := InSection(s1, Clear(Return)).value;
    assert Thread(s1, t, Inside(Clear(Return)), 1) == Thread(o.sh, t, Idle, 0);
  }

  /** SuspendScheduler takes mExLock and locks scheduling out; it throws when the lock is owned already. */
  lemma {:induction false} SuspendLocks(s: State, t: Tid)
    requires At(s, t) == Idle && s.sh.q == QFree && s.sh.ex != ExWorker
    ensures s.sh.ex == ExFree ==>
              Alone(s, t, SuspendScheduler, 4) ==
              Some(State(s.sh.(core := s.sh.core.(lockOut := true), ex := ExSuspended), s.pcs[t := Idle]))
    ensures s.sh.ex == ExSuspended ==> Alone(s, t, SuspendScheduler, 1) == Some(s.(pcs := s.pcs[t := Idle]))
  {
    if s.sh.ex == ExFree {
      AloneIsThread(s, t, SuspendScheduler, 4);
      SetsOut(s.sh, t, Return, 0);
    } else {
      AloneIsThread(s, t, SuspendScheduler, 1);
      assert Thread(s.sh, t, Locks(Return), 1) == Thread(s.sh, t, Idle, 0);
    }
  }

  lemma {:induction false} SetsOut(s: Shared, t: Tid, a: After, n: nat)
    requires s.q == QFree && s.ex == ExFree
    ensures Thread(s, t, Locks(a), 4 + n) ==
            Thread(s.(core := s.core.(lockOut := true), ex := ExSuspended), t, if a.Stop? then Wants(Clear(a)) else Idle, n)
  {
    var s1 := s.(ex := ExSuspended);
    var s2 := s1.(q := QClient(t));
    assert Thread(s, t, Locks(a), 4 + n) == Thread(s, t, Waits(a), 3 + n) == Thread(s1, t, Wants(SetOut(a)), 2 + n) ==
           Thread(s2, t, Inside(SetOut(a)), 1 + n);
    var o := InSection(s2, SetOut(a)).value;
    assert Thread(s2, t, Inside(SetOut(a)), 1 + n) == Thread(o.sh, t, o.pc, n);
  }

  /** ResumeScheduler gives mExLock up and lets scheduling in; it throws when the lock is not owned. */
  lemma {:induction false} ResumeUnlocks(s: State, t: Tid)
    requires At(s, t) == Idle && s.sh.q == QFree
    ensures s.sh.ex == ExSuspended ==>
              Alone(s, t, ResumeScheduler, 3) ==
              Some(State(s.sh.(core := s.sh.core.(lockOut := false), ex := ExFree), s.pcs[t := Idle]))
    ensures s.sh.ex != ExSuspended ==> Alone(s, t, ResumeScheduler, 1) == Some(s.(pcs := s.pcs[t := Idle]))
  {
    if s.sh.ex == ExSuspended {
      AloneIsThread(s, t, ResumeScheduler, 3);
      SetsIn(s.sh, t, Return, 0);
    } else {
      AloneIsThread(s, t, ResumeScheduler, 1);
      assert Thread(s.sh, t, Unlocks(Return), 1) == Thread(s.sh, t, Idle, 0);
    }
  }

  lemma {:induction false} SetsIn(s: Shared, t: Tid, a: After, n: nat)
    requires s.q == QFree && s.ex == ExSuspended
    ensures Thread(s, t, Unlocks(a), 3 + n) ==
            Thread(s.(core := s.core.(lockOut := false), ex := ExFree), t, if a.Stop? then StopNotifies(a.g) else Idle, n)
  {
    var s1 := s.(ex := ExFree);
    var s2 := s1.(q := QClient(t));
    assert Thread(s, t, Unlocks(a), 3 + n) == Thread(s1, t, Wants(SetIn(a)), 2 + n) == Thread(s2, t, Inside(SetIn(a)), 1 + n);
    var o := InSection(s2, SetIn(a)).value;
    assert Thread(s2, t, Inside(SetIn(a)), 1 + n) == Thread(o.sh, t, o.pc, n);
  }

  /** EnableScheduleTask lets scheduling in, and mExLock stays as it is. */
  lemma {:induction false} EnableLetsIn(s: State, t: Tid)
    requires At(s, t) == Idle && s.sh.q == QFree
    ensures Alone(s, t, EnableScheduleTask, 2) ==
            Some(State(s.sh.(core := s.sh.core.(lockOut := false)), s.pcs[t := Idle]))
  {
    AloneIsThread(s, t, EnableScheduleTask, 2);
    var s1 := s.sh.(q := QClient(t));
    assert Thread(s.sh, t, Wants(Enable), 2) == Thread(s1, t, Inside(Enable), 1);
    assert Thread(s1, t, Inside(Enable), 1) == Thread(InSection(s1, Enable).value.sh, t, Idle, 0);
  }

  /** StartScheduler makes the worker's thread and sets the flag. */
  lemma {:induction false} StartLaunches(s: State, t: Tid)
    requires At(s, t) == Idle && s.sh.q == QFree && s.sh.w == NotStarted
    ensures Alone(s, t, StartScheduler, 3) ==
            Some(State(s.sh.(core := s.sh.core.(running := true), w := Entering, epoch := s.sh.epoch + 1, stopped := false),
                       s.pcs[t := Idle]))
  {
    AloneIsThread(s, t, StartScheduler, 3);
    var s1 := s.sh.(q := QClient(t));
    var s2 := s1.(w := Entering, stopped := false);
    assert Thread(s.sh, t, Wants(Launch), 3) == Thread(s1, t, Inside(Launch), 2) == Thread(s2, t, Launching, 1);
    assert Thread(s2, t, Launching, 1) ==
           Thread(s2.(q := QFree, core := s2.core.(running := true), epoch := s2.epoch + 1), t, Idle, 0);
  }

  // ----- StopScheduler -----

  lemma {:induction false} Clears(s: Shared, t: Tid, g: nat, n: nat)
    requires s.q == QFree
    ensures Thread(s, t, Wants(Clear(Stop(g))), 2 + n) ==
            Thread(s.(core := s.core.(queue := []), removed := s.removed + Serials(s.core.queue)), t, Unlocks(Stop(g)), n)
  {
    var s1 := s.(q := QClient(t));
    var k := Clear(Stop(g));
    assert Thread(s, t, Wants(k), 2 + n) == Thread(s1, t, Inside(k), 1 + n);
    var o := InSection(s1, k).value;
    assert Thread(s1, t, Inside(k), 1 + n) == Thread(o.sh, t, Unlocks(Stop(g)), n);
  }

  /** What a StopScheduler leaves that goes through: an empty, stopped, open scheduler, and a worker that is awake. */
  function Stopped(s: Shared): (r: Shared)
    ensures r.core == Core([], s.core.nextId, s.core.currentId, false, false) && r.ex == ExFree && r.q == s.q
    ensures s.w.Sleeping? ==> r.w.Woken?
    ensures !s.w.Sleeping? ==> r.w == s.w
    ensures forall k :: k in r.removed <==>
              k in s.removed || exists i :: 0 <= i < |s.core.queue| && s.core.queue[i].mData == k
    ensures r.accepted == s.accepted && r.begun == s.begun && r.epoch == s.epoch && r.stopped
  {
    s.(core := Core([], s.core.nextId, s.core.currentId, false, false), ex := ExFree, w := Notified(s.w),
       removed := s.removed + Serials(s.core.queue), stopped := true)
  }

  /** From RemoveAllTasks on, with mExLock owned. */
  lemma {:induction false} StopTail(s: Shared, t: Tid, g: nat)
    requires s.q == QFree && s.ex == ExSuspended && !s.core.running && s.stopped
    ensures Thread(s, t, Wants(Clear(Stop(g))), 6) == Some(Out(Stopped(s), Joins(g)))
  {
    Clears(s, t, g, 4);
    var s1 := s.(core := s.core.(queue := []), removed := s.removed + Serials(s.core.queue));
    SetsIn(s1, t, Stop(g), 1);
    var s2 := s1.(core := s1.core.(lockOut := false), ex := ExFree);
    assert Thread(s2, t, StopNotifies(g), 1) == Thread(s2.(w := Notified(s2.w)), t, Joins(g), 0);
  }

  lemma {:induction false} StopStarts(s: Shared, t: Tid, n: nat)
    ensures var s' := s.(core := s.core.(running := false), stopped := true);
            Thread(s, t, ClearsFlag, 2 + n) ==
            Thread(s', t, if s.core.lockOut then Wants(Clear(Stop(s.epoch))) else Locks(Stop(s.epoch)), n)
  {
    var s' := s.(core := s.core.(running := false), stopped := true);
    assert Thread(s, t, ClearsFlag, 2 + n) == Thread(s', t, ReadsLockOut(s.epoch), 1 + n);
  }

  /** When the lock-out flag agrees with mExLock, StopScheduler gets to its join. */
  lemma {:induction false} StopGoesThrough(s: State, t: Tid)
    requires At(s, t) == Idle && s.sh.q == QFree && s.sh.ex == if s.sh.core.lockOut then ExSuspended else ExFree
    ensures Alone(s, t, StopScheduler, if s.sh.core.lockOut then 8 else 12) ==
            Some(State(Stopped(s.sh), s.pcs[t := Joins(s.sh.epoch)]))
  {
    hide Thread;
    var s1 := s.sh.(core := s.sh.core.(running := false), stopped := true);
    var g := s.sh.epoch;
    if s.sh.core.lockOut {
      AloneIsThread(s, t, StopScheduler, 8);
      StopStarts(s.sh, t, 6);
      StopTail(s1, t, g);
    } else {
      AloneIsThread(s, t, StopScheduler, 12);
      StopStarts(s.sh, t, 10);
      SetsOut(s1, t, Stop(g), 6);
      StopTail(s1.(core := s1.core.(lockOut := true), ex := ExSuspended), t, g);
    }
  }

  /** When it does not, a call throws: SuspendScheduler at once, or ResumeScheduler with the queue emptied. */
  lemma {:induction false} StopThrows(s: State, t: Tid)
    requires At(s, t) == Idle && s.sh.q == QFree
    ensures !s.sh.core.lockOut && s.sh.ex == ExSuspended ==>
              Alone(s, t, StopScheduler, 3) ==
              Some(State(s.sh.(core := s.sh.core.(running := false), stopped := true), s.pcs[t := Idle]))
    ensures s.sh.core.lockOut && s.sh.ex != ExSuspended ==>
              Alone(s, t, StopScheduler, 5) ==
              Some(State(s.sh.(core := s.sh.core.(running := false, queue := []),
                               removed := s.sh.removed + Serials(s.sh.core.queue), stopped := true),
                         s.pcs[t := Idle]))
  {
    var s1 := s.sh.(core := s.sh.core.(running := false), stopped := true);
    var g := s.sh.epoch;
    hide Thread;
    if !s.sh.core.lockOut && s.sh.ex == ExSuspended {
      AloneIsThread(s, t, StopScheduler, 3);
      StopStarts(s.sh, t, 1);
      Throws(s1, t, Locks(Stop(g)));
    } else if s.sh.core.lockOut && s.sh.ex != ExSuspended {
      AloneIsThread(s, t, StopScheduler, 5);
      StopStarts(s.sh, t, 3);
      Clears(s1, t, g, 1);
      Throws(s1.(core := s1.core.(queue := []), removed := s1.removed + Serials(s1.core.queue)), t, Unlocks(Stop(g)));
    }
  }

  lemma Throws(s: Shared, t: Tid, pc: Pc)
    requires (pc.Locks? && s.ex == ExSuspended) || (pc.Unlocks? && s.ex != ExSuspended)
    ensures Thread(s, t, pc, 1) == Some(Out(s, Idle))
  {
    assert Thread(s, t, pc, 1) == Thread(s, t, Idle, 0);
  }

  /** And the join returns as soon as the worker is gone. */
  lemma {:induction false} JoinReturns(s: State, t: Tid)
    requires At(s, t).Joins?
    ensures Step(s, Client(t)) == if s.sh.w.Exited? || s.sh.w.NotStarted?
                                  then Some(State(s.sh.(w := NotStarted), s.pcs[t := Idle])) else None
  {
  }

  // ----- one round of the worker -----

  /** n steps of the worker. */
  function Round(s: Shared, n: nat): Option<Shared>
    decreases n
  {
    if n == 0 then Some(s)
    else
      match WorkerStep(s)
      case Some(s') => Round(s', n - 1)
      case None => None
  }

  lemma {:induction false} RoundIsExec(s: State, n: nat)
    ensures var r := Round(s.sh, n);
            r.Some? ==> Exec(s, Works(n)) == Some(s.(sh := r.value))
    decreases n
  {
    hide WorkerStep;
    if n > 0 {
      var o := WorkerStep(s.sh);
      if o.Some? {
        assert Step(s, Work) == Some(s.(sh := o.value));
        assert Works(n)[1..] == Works(n - 1);
        RoundIsExec(s.(sh := o.value), n - 1);
      }
    }
  }

  /** The worker takes the front task under both mutexes, runs its body with the queue free, and comes round again. */
  lemma {:induction false} RoundRuns(s: State)
    requires s.sh.w == AtTest && s.sh.q == QWorker && s.sh.ex == ExFree && s.sh.core.running
    requires s.sh.core.queue != [] && s.sh.core.queue[0].mId != 0
    ensures var c, task := s.sh.core, s.sh.core.queue[0];
            var c' := Core(c.queue[1..], c.nextId, task.mId, c.lockOut, true);
            Exec(s, Works(6)) ==
            Some(s.(sh := s.sh.(core := c', q := QFree, ex := ExWorker, w := Running(task), begun := s.sh.begun + [task.mData]))) &&
            Exec(s, Works(9)) == Some(s.(sh := s.sh.(core := c', begun := s.sh.begun + [task.mData])))
  {
    hide Round, WorkerStep;
    RoundIsExec(s, 6);
    RoundIsExec(s, 9);
    Takes(s.sh, 2);
    Takes(s.sh, 5);
    var task := s.sh.core.queue[0];
    var c' := s.sh.core.(queue := s.sh.core.queue[1..], currentId := task.mId);
    var r := s.sh.(w := Choosing, ex := ExWorker);
    Begins(r, 0);
    Begins(r, 3);
    ComesRound(r.(w := Running(task), q := QFree, core := c', begun := r.begun + [task.mData]));
  }

  lemma {:induction false} Takes(s: Shared, n: nat)
    requires s.w == AtTest && s.q == QWorker && s.ex == ExFree && s.core.running && s.core.queue != []
    ensures Round(s, 4 + n) == Round(s.(w := Choosing, ex := ExWorker), n)
  {
    var s2 := s.(w := WantsEx, q := QFree);
    var s3 := s2.(w := HasEx, ex := ExWorker);
    assert Round(s, 4 + n) == Round(s.(w := Tested), 3 + n) == Round(s2, 2 + n) == Round(s3, 1 + n);
    assert Round(s3, 1 + n) == Round(s.(w := Choosing, ex := ExWorker), n);
  }

  lemma {:induction false} Begins(s: Shared, n: nat)
    requires s.w == Choosing && s.core.queue != [] && s.core.queue[0].mId != 0
    ensures var task := s.core.queue[0];
            Round(s, 2 + n) ==
            Round(s.(w := Running(task), q := QFree, core := s.core.(queue := s.core.queue[1..], currentId := task.mId),
                     begun := s.begun + [task.mData]), n)
  {
    var task := s.core.queue[0];
    var s1 := s.(w := Taken(task), q := QFree, core := s.core.(queue := s.core.queue[1..], currentId := task.mId));
    assert Round(s, 2 + n) == Round(s1, 1 + n) == Round(s1.(w := Running(task), begun := s.begun + [task.mData]), n);
  }

  lemma {:induction false} ComesRound(s: Shared)
    requires s.w.Running? && s.q == QFree
    ensures Round(s, 0) == Some(s) && Round(s, 3) == Some(s.(w := AtTest, q := QWorker, ex := ExFree))
  {
    var s1 := s.(w := Ended);
    var s2 := s1.(w := Leaving, q := QWorker);
    assert Round(s, 3) == Round(s1, 2) == Round(s2, 1) == Round(s2.(w := AtTest, ex := ExFree), 0);
  }

  /** A task with the invalid id is dropped and does not become the current one. */
  lemma {:induction false} RoundSkips(s: State)
    requires s.sh.w == AtTest && s.sh.q == QWorker && s.sh.ex == ExFree && s.sh.core.running
    requires s.sh.core.queue != [] && s.sh.core.queue[0].mId == 0
    ensures var c := s.sh.core;
            Exec(s, Works(6)) == Some(s.(sh := s.sh.(core := c.(queue := c.queue[1..]), removed := s.sh.removed + {c.queue[0].mData})))
  {
    RoundIsExec(s, 6);
    hide Round, WorkerStep;
    Takes(s.sh, 2);
    Drops(s.sh.(w := Choosing, ex := ExWorker));
  }

  lemma {:induction false} Drops(s: Shared)
    requires s.w == Choosing && s.core.queue != [] && s.core.queue[0].mId == 0
    ensures var c' := s.core.(queue := s.core.queue[1..]);
            Round(s, 2) == Some(s.(w := AtTest, ex := ExFree, core := c', removed := s.removed + {s.core.queue[0].mData}))
  {
    var s1 := s.(w := Leaving, core := Popped(s.core), removed := s.removed + {s.core.queue[0].mData});
    assert Round(s, 2) == Round(s1, 1) == Round(s1.(w := AtTest, ex := ExFree), 0);
  }

  /** With nothing queued it sleeps, the queue mutex free; with the flag unset it ends. */
  lemma {:induction false} RoundRests(s: State)
    requires s.sh.w == AtTest && s.sh.q == QWorker
    ensures s.sh.core.running && s.sh.core.queue == [] ==> Exec(s, Works(2)) == Some(s.(sh := s.sh.(w := Sleeping, q := QFree)))
    ensures !s.sh.core.running ==> Exec(s, Works(1)) == Some(s.(sh := s.sh.(w := Exited, q := QFree)))
  {
    RoundIsExec(s, 2);
    RoundIsExec(s, 1);
    if s.sh.core.running {
      assert Round(s.sh, 2) == Round(s.sh.(w := Tested), 1);
      if s.sh.core.queue == [] {
        assert Round(s.sh.(w := Tested), 1) == Round(s.sh.(w := Sleeping, q := QFree), 0);
      }
    } else {
      assert Round(s.sh, 1) == Round(s.sh.(w := Exited, q := QFree), 0);
    }
  }

  /** A sleeping worker can wake at any time, and then tests the flag and the queue again under the queue mutex. */
  lemma {:induction false} SleeperCanWake(s: State)
    requires s.sh.w == Sleeping && s.sh.q == QFree
    ensures Exec(s, [SpuriousWake, Work]) == Some(s.(sh := s.sh.(w := AtTest, q := QWorker)))
  {
    var s1 := Step(s, SpuriousWake).value;
    assert Exec(s, [SpuriousWake, Work]) == Exec(s1, [Work]);
    assert Exec(s1, [Work]) == Exec(Step(s1, Work).value, []);
  }

  // ----- the protocol and the object -----

  /** The object has the fields of s, and mExLock is owned in s exactly when it is owned there. */
  ghost predicate Shows(p: PlayerScheduler, s: State)
    reads p
  {
    p.View() == s.sh.core && (p.mExLockOwns <==> s.sh.ex == ExSuspended)
  }

  /** A call that nobody interferes with leaves in the protocol what the method of the class leaves in the object. */
  method CallAlone(p: PlayerScheduler, data: nat, op: Op, ghost s: State, ghost t: Tid)
    returns (id: int, ret: bool, ghost u: State)
    requires Shows(p, s) && At(s, t) == Idle && s.sh.q == QFree && s.sh.ex != ExWorker && data == |s.sh.accepted|
    requires op.StartScheduler? ==> s.sh.w == NotStarted
    modifies p
    ensures exists n :: Alone(s, t, op, n) == Some(u)
    ensures Shows(p, u) && u.pcs == s.pcs[t := At(u, t)]
    ensures op.ScheduleTask? ==>
              u.sh.accepted ==
              s.sh.accepted + (if s.sh.core.running && !s.sh.core.lockOut then [Task(id, data)] else [])
    ensures op.RemoveTask? ==> (ret <==> |u.sh.core.queue| < |s.sh.core.queue|)
    ensures op.StopScheduler? ==> (ret <==> At(u, t).Joins?)
    ensures !op.StopScheduler? ==> At(u, t) == Idle
  {
    hide Alone, ThreadStep, Exec, Entry, Serials, Step;
    id, ret := 0, false;
    match op
    case ScheduleTask =>
      id := p.ScheduleTask(data);
      if s.sh.core.running && !s.sh.core.lockOut {
        ScheduleAccepted(s, t);
        u := Alone(s, t, op, 4).value;
      } else {
        ScheduleRefused(s, t);
        u := s.(pcs := s.pcs[t := Idle]);
      }
    case RemoveTask(gone) =>
      ret, u := RemoveAlone(p, gone, s, t);
    case RemoveAllTasks =>
      p.RemoveAllTasks();
      RemoveAllEmpties(s, t);
      u := Alone(s, t, op, 2).value;
    case SuspendScheduler =>
      ret := p.SuspendScheduler();
      SuspendLocks(s, t);
      u := Alone(s, t, op, if ret then 4 else 1).value;
    case ResumeScheduler =>
      ret := p.ResumeScheduler();
      ResumeUnlocks(s, t);
      u := Alone(s, t, op, if ret then 3 else 1).value;
    case EnableScheduleTask =>
      p.EnableScheduleTask();
      EnableLetsIn(s, t);
      u := Alone(s, t, op, 2).value;
    case StartScheduler =>
      p.StartScheduler();
      StartLaunches(s, t);
      u := Alone(s, t, op, 3).value;
    case StopScheduler =>
      ret, u := StopAlone(p, s, t);
  }

  method RemoveAlone(p: PlayerScheduler, id: int, ghost s: State, ghost t: Tid) returns (ret: bool, ghost u: State)
    requires Shows(p, s) && At(s, t) == Idle && s.sh.q == QFree
    modifies p
    ensures Alone(s, t, Op.RemoveTask(id), 2) == Some(u)
    ensures Shows(p, u) && u.pcs == s.pcs[t := Idle]
    ensures ret <==> |u.sh.core.queue| < |s.sh.core.queue|
  {
    hide Alone, ThreadStep, Exec, Entry, Serials, Step;
    ret := p.RemoveTask(id);
    if ret {
      RemoveErases(s, t, id, FirstWithId(s.sh.core.queue, id));
    } else {
      RemoveFindsNone(s, t, id);
    }
    u := Alone(s, t, Op.RemoveTask(id), 2).value;
  }

  method StopAlone(p: PlayerScheduler, ghost s: State, ghost t: Tid) returns (ret: bool, ghost u: State)
    requires Shows(p, s) && At(s, t) == Idle && s.sh.q == QFree && s.sh.ex != ExWorker
    modifies p
    ensures exists n :: Alone(s, t, Op.StopScheduler, n) == Some(u)
    ensures Shows(p, u) && u.pcs == s.pcs[t := At(u, t)]
    ensures ret <==> At(u, t).Joins?
  {
    hide Alone, ThreadStep, Exec, Entry, Serials, Step;
    var held := p.mLockOut;
    ret := p.StopScheduler();
    if ret {
      StopGoesThrough(s, t);
      u := Alone(s, t, Op.StopScheduler, if held then 8 else 12).value;
    } else {
      StopThrows(s, t);
      u := Alone(s, t, Op.StopScheduler, if held then 5 else 3).value;
    }
  }

  // ----- lock-out over a run -----

  /** Scheduling is locked out in every state of the run but perhaps the last. */
  predicate LockedOut(s: State, run: seq<Action>)
    decreases |run|
  {
    run == [] || (s.sh.core.lockOut && (Step(s, run[0]).Some? ==> LockedOut(Step(s, run[0]).value, run[1..])))
  }

  /** While scheduling is locked out nothing is accepted, whatever the threads do. */
  lemma {:induction false} NothingAccepted(s: State, run: seq<Action>)
    requires Exec(s, run).Some? && LockedOut(s, run)
    ensures Exec(s, run).value.sh.accepted == s.sh.accepted
    ensures Exec(s, run).value.sh.core.nextId == s.sh.core.nextId
    decreases |run|
  {
    if run != [] {
      LockedStep(s, run[0]);
      NothingAccepted(Step(s, run[0]).value, run[1..]);
    }
  }

  lemma LockedStep(s: State, a: Action)
    requires Step(s, a).Some? && s.sh.core.lockOut
    ensures Step(s, a).value.sh.accepted == s.sh.accepted
    ensures Step(s, a).value.sh.core.nextId == s.sh.core.nextId
  {
    hide ThreadStep, WorkerStep;
    match a
    case Client(t) => LockedThread(s.sh, t, At(s, t));
    case Work => LockedWorker(s.sh);
    case _ =>
  }

  lemma LockedThread(s: Shared, t: Tid, pc: Pc)
    requires ThreadStep(s, t, pc).Some? && s.core.lockOut
    ensures ThreadStep(s, t, pc).value.sh.accepted == s.accepted
    ensures ThreadStep(s, t, pc).value.sh.core.nextId == s.core.nextId
  {
  }

  lemma LockedWorker(s: Shared)
    requires WorkerStep(s).Some?
    ensures WorkerStep(s).value.accepted == s.accepted
    ensures WorkerStep(s).value.core.nextId == s.core.nextId
  {
  }
}
