/**
 Every interleaving of any number of clients and the worker: what is always true of the locks, the
 sleeping worker and a stop in progress, and what follows for whole runs.
 */
module SchedulerLaws {
  import opened Scheduler
  import opened SchedulerLedger
  import opened Wrappers

  // ----- the locks -----

  predicate HoldsQ(pc: Pc)
  {
    pc.Inside? || pc.Notifies? || pc.Launching?
  }

  predicate WorkerHoldsQ(w: Worker)
  {
    w.AtTest? || w.Tested? || w.Choosing? || w.Leaving?
  }

  predicate WorkerHoldsEx(w: Worker)
  {
    w.HasEx? || w.Choosing? || w.Taken? || w.Running? || w.Ended? || w.Leaving?
  }

  /** Thread t at pc agrees with the owner of the queue mutex. */
  predicate OwnsAsAt(s: Shared, t: Tid, pc: Pc)
  {
    s.q == QClient(t) <==> HoldsQ(pc)
  }

  predicate WorkerLocks(s: Shared)
  {
    (s.q == QWorker <==> WorkerHoldsQ(s.w)) && (s.ex == ExWorker <==> WorkerHoldsEx(s.w))
  }

  ghost predicate LocksAgree(s: State)
  {
    (forall t :: OwnsAsAt(s.sh, t, At(s, t))) && WorkerLocks(s.sh)
  }

  // ----- sleeping and stopping -----

  /** The worker sleeps beside a queue that is not empty only until the client that filled it notifies. */
  predicate SleepsInTime(s: State)
  {
    s.sh.w == Sleeping && s.sh.core.queue != [] ==> s.sh.q.QClient? && At(s, s.sh.q.t).Notifies?
  }

  /** The flag is unset beside a thread only while StartScheduler is about to set it, or after a stop. */
  predicate FlagInTime(s: State)
  {
    s.sh.w != NotStarted && !s.sh.core.running && !s.sh.stopped ==> s.sh.q.QClient? && At(s, s.sh.q.t).Launching?
  }

  function StopPart(a: After): Option<nat>
  {
    if a.Stop? then Some(a.g) else None
  }

  /** For a thread inside StopScheduler: how many starts had set the flag when it cleared it. */
  function StopOf(pc: Pc): Option<nat>
  {
    match pc
    case ReadsLockOut(g) => Some(g)
    case StopNotifies(g) => Some(g)
    case Joins(g) => Some(g)
    case Locks(a) => StopPart(a)
    case Waits(a) => StopPart(a)
    case Unlocks(a) => StopPart(a)
    case Wants(k) => if k.Clear? || k.SetOut? || k.SetIn? then StopPart(k.then_) else None
    case Inside(k) => if k.Clear? || k.SetOut? || k.SetIn? then StopPart(k.then_) else None
    case _ => None
  }

  /** A stop that has entered the critical section of RemoveAllTasks. */
  predicate Late(pc: Pc)
  {
    pc.StopNotifies? || pc.Joins? || pc.Unlocks? || (pc.Wants? && pc.k.SetIn?) ||
    (pc.Inside? && (pc.k.SetIn? || pc.k.Clear?))
  }

  /** While no start has set the flag again: it is unset, and the worker cannot go to sleep, or stay asleep, any more. */
  predicate StopInTime(s: Shared, pc: Pc)
  {
    StopOf(pc).Some? ==>
      StopOf(pc).value <= s.epoch &&
      (StopOf(pc).value == s.epoch ==>
         !s.core.running && (Late(pc) ==> s.w != Tested) && (pc.Joins? ==> s.w != Sleeping))
  }

  ghost predicate StopsInTime(s: State)
  {
    forall t :: StopInTime(s.sh, At(s, t))
  }

  predicate RunningIsLast(s: Shared)
  {
    s.w.Running? ==> s.begun != [] && s.begun[|s.begun| - 1] == s.w.task.mData
  }

  ghost predicate Inv(s: State)
  {
    LedgerInv(LedgerOf(s.sh)) && LocksAgree(s) && SleepsInTime(s) && FlagInTime(s) && StopsInTime(s) && RunningIsLast(s.sh)
  }

  lemma InitInv()
    ensures Inv(Init())
  {
    assert forall t: Tid :: At(Init(), t) == Idle;
  }

  // ----- client steps -----

  /** How a step of thread t from pc to pc' can change what the other threads see. */
  predicate Shape(s: Shared, t: Tid, pc: Pc, s': Shared, pc': Pc)
  {
    (if HoldsQ(pc') then s'.q == QClient(t) && (HoldsQ(pc) || s.q == QFree)
     else s'.q == (if HoldsQ(pc) then QFree else s.q)) &&
    (s'.ex == s.ex || (s.ex == ExFree && s'.ex == ExSuspended) || (s.ex == ExSuspended && s'.ex == ExFree)) &&
    (s'.w == s.w || (s.w == Sleeping && s'.w == Woken) ||
     (s.w == NotStarted && s'.w == Entering && pc'.Launching? && !s'.stopped) ||
     (s.w == Exited && s'.w == NotStarted)) &&
    (s'.core.queue == s.core.queue || s'.core.queue == [] || (HoldsQ(pc) && (pc'.Notifies? || s.core.queue != []))) &&
    (s'.core.running == s.core.running || pc.Launching? || (pc.ClearsFlag? && !s'.core.running)) &&
    s'.epoch == (if pc.Launching? then s.epoch + 1 else s.epoch) && s'.begun == s.begun &&
    (s'.stopped == s.stopped || s'.stopped || pc'.Launching?) && (pc.ClearsFlag? ==> s'.stopped) &&
    (pc.Launching? ==> s'.core.running) && (pc.Notifies? ==> s'.w != Sleeping)
  }

  lemma {:induction false} SectionShape(s: Shared, t: Tid, k: Section)
    requires s.q == QClient(t) && InSection(s, k).Some?
    ensures var r := InSection(s, k).value; Shape(s, t, Inside(k), r.sh, r.pc)
  {
    hide Serials, FirstWithId, HasId, NextId;
    if k.Erase? && s.core.queue == [] {
      NoneToErase(s.core, k.id);
    }
  }

  lemma NoneToErase(c: Core, id: int)
    requires c.queue == []
    ensures !Erases(c, id)
  {
  }

  lemma {:induction false} ThreadShape(s: Shared, t: Tid, pc: Pc)
    requires OwnsAsAt(s, t, pc) && ThreadStep(s, t, pc).Some?
    ensures var r := ThreadStep(s, t, pc).value; Shape(s, t, pc, r.sh, r.pc)
  {
    hide InSection;
    if pc.Inside? {
      SectionShape(s, t, pc.k);
    }
  }

  /** The locks, seen from the moving thread and from any other. */
  lemma ShapeLocks(s: Shared, t: Tid, pc: Pc, s': Shared, pc': Pc, u: Tid, other: Pc)
    requires Shape(s, t, pc, s', pc') && OwnsAsAt(s, t, pc) && WorkerLocks(s)
    ensures OwnsAsAt(s', t, pc') && WorkerLocks(s')
    ensures u != t && OwnsAsAt(s, u, other) ==> OwnsAsAt(s', u, other)
  {
  }

  /** Another thread's stop is not disturbed. */
  lemma ShapeStops(s: Shared, t: Tid, pc: Pc, s': Shared, pc': Pc, other: Pc)
    requires Shape(s, t, pc, s', pc') && StopInTime(s, other)
    ensures StopInTime(s', other)
  {
  }

  /** The moving thread's own stop. */
  lemma {:induction false} OwnStop(s: Shared, t: Tid, pc: Pc)
    requires OwnsAsAt(s, t, pc) && WorkerLocks(s) && StopInTime(s, pc) && ThreadStep(s, t, pc).Some?
    ensures var r := ThreadStep(s, t, pc).value; StopInTime(r.sh, r.pc)
  {
    hide Serials, FirstWithId, HasId, Erases, Accepted, Erased;
  }

  lemma {:induction false} ClientKeeps(s: State, t: Tid)
    requires LocksAgree(s) && SleepsInTime(s) && FlagInTime(s) && StopsInTime(s) && RunningIsLast(s.sh)
    requires Step(s, Client(t)).Some?
    ensures var s' := Step(s, Client(t)).value;
            LocksAgree(s') && SleepsInTime(s') && FlagInTime(s') && StopsInTime(s') && RunningIsLast(s'.sh)
  {
    hide ThreadStep, StopInTime, StopOf, Late;
    var pc, r, s' := At(s, t), ThreadStep(s.sh, t, At(s, t)).value, Step(s, Client(t)).value;
    assert OwnsAsAt(s.sh, t, pc) && StopInTime(s.sh, pc);
    ThreadShape(s.sh, t, pc);
    OwnStop(s.sh, t, pc);
    forall u
      ensures OwnsAsAt(s'.sh, u, At(s', u)) && StopInTime(s'.sh, At(s', u))
    {
      assert OwnsAsAt(s.sh, u, At(s, u)) && StopInTime(s.sh, At(s, u));
      ShapeLocks(s.sh, t, pc, r.sh, r.pc, u, At(s, u));
      ShapeStops(s.sh, t, pc, r.sh, r.pc, At(s, u));
    }
    ShapeLocks(s.sh, t, pc, r.sh, r.pc, t, pc);
  }

  // ----- worker steps, calls, and runs -----

  lemma {:induction false} WorkerKeeps(s: State)
    requires LocksAgree(s) && SleepsInTime(s) && FlagInTime(s) && StopsInTime(s) && RunningIsLast(s.sh)
    requires Step(s, Work).Some?
    ensures var s' := Step(s, Work).value;
            LocksAgree(s') && SleepsInTime(s') && FlagInTime(s') && StopsInTime(s') && RunningIsLast(s'.sh)
  {
    hide StopInTime, WorkerStep;
    var s' := Step(s, Work).value;
    WorkerShape(s.sh);
    forall u
      ensures OwnsAsAt(s'.sh, u, At(s', u)) && StopInTime(s'.sh, At(s', u))
    {
      assert OwnsAsAt(s.sh, u, At(s, u)) && StopInTime(s.sh, At(s, u));
      WorkerStops(s.sh, At(s, u));
    }
  }

  lemma WorkerStops(s: Shared, pc: Pc)
    requires StopInTime(s, pc) && WorkerStep(s).Some?
    ensures StopInTime(WorkerStep(s).value, pc)
  {
  }

  /** What a worker step leaves of the locks and flags. */
  lemma {:induction false} WorkerShape(s: Shared)
    requires WorkerLocks(s) && RunningIsLast(s) && WorkerStep(s).Some?
    ensures var s' := WorkerStep(s).value;
            WorkerLocks(s') && RunningIsLast(s') && (s'.q == s.q || (!s.q.QClient? && !s'.q.QClient?)) &&
            (s'.w == Sleeping ==> s'.core.queue == []) && s'.w != NotStarted && s.w != NotStarted &&
            s'.core.running == s.core.running && s'.stopped == s.stopped
  {
  }

  lemma {:induction false} CallKeeps(s: State, t: Tid, op: Op)
    requires LocksAgree(s) && SleepsInTime(s) && FlagInTime(s) && StopsInTime(s) && Step(s, Call(t, op)).Some?
    ensures var s' := Step(s, Call(t, op)).value;
            LocksAgree(s') && SleepsInTime(s') && FlagInTime(s') && StopsInTime(s')
  {
    var s' := Step(s, Call(t, op)).value;
    forall u
      ensures OwnsAsAt(s'.sh, u, At(s', u)) && StopInTime(s'.sh, At(s', u))
    {
      assert OwnsAsAt(s.sh, u, At(s, u)) && StopInTime(s.sh, At(s, u));
    }
  }

  lemma {:induction false} WakeKeeps(s: State)
    requires LocksAgree(s) && SleepsInTime(s) && FlagInTime(s) && StopsInTime(s) && Step(s, SpuriousWake).Some?
    ensures var s' := Step(s, SpuriousWake).value;
            LocksAgree(s') && SleepsInTime(s') && FlagInTime(s') && StopsInTime(s')
  {
    hide StopOf, Late;
    var s' := Step(s, SpuriousWake).value;
    forall u
      ensures OwnsAsAt(s'.sh, u, At(s', u)) && StopInTime(s'.sh, At(s', u))
    {
      assert OwnsAsAt(s.sh, u, At(s, u)) && StopInTime(s.sh, At(s, u));
    }
  }

  /** Every step keeps the invariant. */
  lemma {:induction false} StepKeeps(s: State, a: Action)
    requires Inv(s) && Step(s, a).Some?
    ensures Inv(Step(s, a).value)
  {
    hide Step, LedgerInv, LocksAgree, SleepsInTime, FlagInTime, StopsInTime, Move;
    LedgerParts(LedgerOf(s.sh));
    StepMoves(s, a);
    MoveKeeps(LedgerOf(s.sh), LedgerOf(Step(s, a).value.sh));
    match a
    case Call(t, op) =>
      CallKeeps(s, t, op);
      SameShared(s, a);
    case Client(t) => ClientKeeps(s, t);
    case Work => WorkerKeeps(s);
    case SpuriousWake =>
      WakeKeeps(s);
      SameShared(s, a);
  }

  lemma LedgerParts(l: Ledger)
    requires LedgerInv(l)
    ensures Ids(l) && Conserved(l) && Current(l)
  {
  }

  lemma SameShared(s: State, a: Action)
    requires (a.Call? || a.SpuriousWake?) && Step(s, a).Some?
    ensures var w := Step(s, a).value.sh.w; Step(s, a).value.sh == s.sh.(w := w) && (w == s.sh.w || w == Woken)
  {
  }

  /** Every run keeps the invariant: it holds in every reachable state. */
  lemma {:induction false} RunKeeps(s: State, run: seq<Action>)
    requires Inv(s) && Exec(s, run).Some?
    ensures Inv(Exec(s, run).value)
    decreases |run|
  {
    hide Step, Inv;
    if run != [] {
      StepKeeps(s, run[0]);
      RunKeeps(Step(s, run[0]).value, run[1..]);
    }
  }
}
