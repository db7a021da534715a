/**
 Handlers behind HANDLER_CONTROL_HELPER against threads in waitForDone, in every interleaving.
 */
module HandlerDrain {
  import opened HandlerControl
  import opened Wrappers

  type Tid = nat

  /** Where a thread is. A handler owns a count from Counted to Leaving; a drainer counts for nothing. */
  datatype Pc = Idle | Counted | InBody | Leaving | Draining | Drained(result: bool)

  datatype State = State(enabled: bool, count: int, pcs: map<Tid, Pc>)

  /** What a thread may do next. */
  datatype Turn =
    | Enter    // getScopeHelper
    | Guard    // returnStraightAway reads the flag
    | Finish   // the body returns
    | Signal   // the helper's destructor calls handlerEnd
    | Drain    // waitForDone calls disable
    | Observe  // waitForDone holds the mutex and reads the count
    | TimeOut  // it reads the count once more after its deadline
    | Return

  datatype Action = Act(t: Tid, turn: Turn) | Enable | Disable

  function At(s: State, t: Tid): Pc
  {
    if t in s.pcs then s.pcs[t] else Idle
  }

  function Init(): State
  {
    State(true, 0, map[])
  }

  datatype Out = Out(enabled: bool, count: int, pc: Pc)

  /** One turn of a thread at pc; None when it is not its turn. */
  function ThreadStep(enabled: bool, count: int, pc: Pc, turn: Turn): Option<Out>
  {
    match turn
    case Enter => if pc == Idle then Some(Out(enabled, count + 1, Counted)) else None
    case Guard => if pc == Counted then Some(Out(enabled, count, if enabled then InBody else Leaving)) else None
    case Finish => if pc == InBody then Some(Out(enabled, count, Leaving)) else None
    case Signal => if pc == Leaving then Some(Out(enabled, Decremented(count), Idle)) else None
    case Drain => if pc == Idle then Some(Out(false, count, Draining)) else None
    case Observe => if pc == Draining then Some(Out(enabled, count, if count == 0 then Drained(true) else pc)) else None
    case TimeOut => if pc == Draining then Some(Out(enabled, count, Drained(count == 0))) else None
    case Return => if pc.Drained? then Some(Out(enabled, count, Idle)) else None
  }

  function Step(s: State, a: Action): Option<State>
  {
    match a
    case Act(t, turn) =>
      var r := ThreadStep(s.enabled, s.count, At(s, t), turn);
      if r.Some? then Some(State(r.value.enabled, r.value.count, s.pcs[t := r.value.pc])) else None
    case Enable => Some(s.(enabled := true))
    case Disable => Some(s.(enabled := false))
  }

  function Exec(s: State, run: seq<Action>): Option<State>
    decreases |run|
  {
    if run == [] then Some(s)
    else
      match Step(s, run[0])
      case Some(s') => Exec(s', run[1..])
      case None => None
  }

  predicate Owns(pc: Pc)
  {
    pc.Counted? || pc.InBody? || pc.Leaving?
  }

  /** The threads that own a count, and those past their guard. */
  function Owners(pcs: map<Tid, Pc>): set<Tid>
  {
    set t | t in pcs && Owns(pcs[t])
  }

  function Bodies(s: State): set<Tid>
  {
    set t | t in s.pcs && s.pcs[t] == InBody
  }

  predicate Inv(s: State)
  {
    s.count == |Owners(s.pcs)|
  }

  ghost predicate Reachable(s: State)
  {
    exists run :: Exec(Init(), run) == Some(s)
  }

  lemma OwnersAt(s: State, t: Tid, pc: Pc)
    ensures Owners(s.pcs[t := pc]) == if Owns(pc) then Owners(s.pcs) + {t} else Owners(s.pcs) - {t}
    ensures t in Owners(s.pcs) <==> Owns(At(s, t))
  {
  }

  function Weight(pc: Pc): nat
  {
    if Owns(pc) then 1 else 0
  }

  lemma Recount(owners: set<Tid>, t: Tid, pc: Pc, pc': Pc)
    requires t in owners <==> Owns(pc)
    ensures |if Owns(pc') then owners + {t} else owners - {t}| == |owners| + Weight(pc') - Weight(pc)
    ensures |owners| >= Weight(pc)
  {
    if t in owners {
      CountOne(owners, t);
      assert owners + {t} == owners;
    } else {
      assert owners - {t} == owners;
    }
  }

  /** A turn moves the count by what it changes in the thread's own share of it. */
  lemma TurnCounts(enabled: bool, count: int, pc: Pc, turn: Turn)
    requires Weight(pc) <= count && ThreadStep(enabled, count, pc, turn).Some?
    ensures var r := ThreadStep(enabled, count, pc, turn).value;
            r.count == count + Weight(r.pc) - Weight(pc)
  {
  }

  lemma {:induction false} StepKeeps(s: State, a: Action)
    requires Inv(s) && Step(s, a).Some?
    ensures Inv(Step(s, a).value)
  {
    hide Owners, At, Owns, Weight, ThreadStep;
    if a.Act? {
      var pc := At(s, a.t);
      var pc' := ThreadStep(s.enabled, s.count, pc, a.turn).value.pc;
      OwnersAt(s, a.t, pc');
      Recount(Owners(s.pcs), a.t, pc, pc');
      TurnCounts(s.enabled, s.count, pc, a.turn);
    }
  }

  lemma {:induction false} RunKeeps(s: State, run: seq<Action>)
    requires Inv(s) && Exec(s, run).Some?
    ensures Inv(Exec(s, run).value)
    decreases |run|
  {
    hide Step, Inv;
    if run != [] {
      StepKeeps(s, run[0]);
      RunKeeps(Step(s, run[0]).value, run[1..]);
    }
  }

  /** The count is exactly the number of handlers that own one: it never goes negative, so it is never repaired. */
  lemma {:induction false} CountIsOwners(s: State)
    requires Reachable(s)
    ensures s.count == |Owners(s.pcs)| && forall t :: At(s, t) == Leaving ==> Decremented(s.count) == s.count - 1
  {
    hide Step, Exec;
    var run :| Exec(Init(), run) == Some(s);
    assert Owners(Init().pcs) == {};
    RunKeeps(Init(), run);
    forall t | At(s, t) == Leaving
      ensures Decremented(s.count) == s.count - 1
    {
      CountOne(Owners(s.pcs), t);
    }
  }

  // ----- drain safety -----

  predicate NoEnable(run: seq<Action>)
  {
    Enable !in run
  }

  lemma {:induction false} StepShrinks(s: State, a: Action)
    requires !s.enabled && a != Enable && Step(s, a).Some?
    ensures !Step(s, a).value.enabled && Bodies(Step(s, a).value) <= Bodies(s)
  {
  }

  /** From a disable to the next enable the flag stays clear and the set of running bodies only shrinks. */
  lemma {:induction false} BodiesOnlyShrink(s: State, run: seq<Action>)
    requires !s.enabled && NoEnable(run) && Exec(s, run).Some?
    ensures !Exec(s, run).value.enabled && Bodies(Exec(s, run).value) <= Bodies(s)
    decreases |run|
  {
    hide Step, Bodies;
    if run != [] {
      StepShrinks(s, run[0]);
      BodiesOnlyShrink(Step(s, run[0]).value, run[1..]);
    }
  }

  /** Nothing is past its guard in s, nor can be in any later state before the next enable. */
  ghost predicate QuietUntilEnable(s: State)
  {
    forall run :: NoEnable(run) && Exec(s, run).Some? ==> Bodies(Exec(s, run).value) == {}
  }

  /** What waitForDone learns from a zero count: quiet until the next enable, if and only if the flag is still clear. */
  lemma {:induction false} ZeroIsQuietIffDisabled(s: State)
    requires Reachable(s) && s.count == 0
    ensures QuietUntilEnable(s) <==> !s.enabled
  {
    hide Reachable, Exec, Step;
    CountIsOwners(s);
    assert Bodies(s) <= Owners(s.pcs);
    if !s.enabled {
      forall run | NoEnable(run) && Exec(s, run).Some?
        ensures Bodies(Exec(s, run).value) == {}
      {
        BodiesOnlyShrink(s, run);
      }
    } else {
      EntersWhenEnabled(s);
    }
  }

  /** A thread that is idle can get past its guard while the flag is set. */
  lemma {:induction false} EntersWhenEnabled(s: State)
    requires s.enabled
    ensures !QuietUntilEnable(s)
  {
    var t := Fresh(s.pcs.Keys);
    var run := [Act(t, Enter), Act(t, Guard)];
    var s1 := Step(s, Act(t, Enter)).value;
    var s2 := Step(s1, Act(t, Guard)).value;
    assert t in Bodies(s2);
    Then(s1, Act(t, Guard), []);
    Then(s, Act(t, Enter), [Act(t, Guard)]);
    assert [Act(t, Guard)] + [] == [Act(t, Guard)] && [Act(t, Enter)] + [Act(t, Guard)] == run;
    assert NoEnable(run);
  }

  lemma Then(s: State, a: Action, rest: seq<Action>)
    requires Step(s, a).Some?
    ensures Exec(s, [a] + rest) == Exec(Step(s, a).value, rest)
  {
    hide Step;
    assert ([a] + rest)[1..] == rest;
  }

  /** Some handler is between getScopeHelper and the end of handlerEnd. */
  ghost predicate SomeHandler(s: State)
  {
    exists t: Tid :: At(s, t) == Counted || At(s, t) == InBody || At(s, t) == Leaving
  }

  lemma {:induction false} ZeroIffNone(s: State)
    requires Inv(s)
    ensures s.count == 0 <==> !SomeHandler(s)
    ensures s.count >= 0
  {
    forall t | t in Owners(s.pcs)
      ensures SomeHandler(s)
    {
      assert Owns(At(s, t));
    }
    if SomeHandler(s) {
      var t: Tid :| At(s, t) == Counted || At(s, t) == InBody || At(s, t) == Leaving;
      assert t in Owners(s.pcs);
    } else {
      assert Owners(s.pcs) == {};
    }
  }

  /** A handler goes past its guard exactly if the flag is set, and gives its count back at the end in either case. */
  lemma {:induction false} HandlerAlone(s: State, t: Tid)
    requires At(s, t) == Idle && s.count >= 0
    ensures var entered := Exec(s, [Act(t, Enter), Act(t, Guard)]);
            entered == Some(State(s.enabled, s.count + 1, s.pcs[t := if s.enabled then InBody else Leaving]))
    ensures var turns := [Act(t, Enter), Act(t, Guard)] + (if s.enabled then [Act(t, Finish)] else []) + [Act(t, Signal)];
            Exec(s, turns) == Some(s.(pcs := s.pcs[t := Idle]))
  {
    hide Exec;
    var e, g, f, n := Act(t, Enter), Act(t, Guard), Act(t, Finish), Act(t, Signal);
    var s1 := Step(s, e).value;
    var s2 := Step(s1, g).value;
    assert s2.pcs == s.pcs[t := if s.enabled then InBody else Leaving];
    Nothing(s2);
    Then(s1, g, []);
    Then(s, e, [g]);
    assert [g] + [] == [g] && [e] + [g] == [e, g];
    var tail := if s.enabled then [f, n] else [n];
    var s3 := if s.enabled then Step(s2, f).value else s2;
    var s4 := Step(s3, n).value;
    assert s4.pcs == s.pcs[t := Idle];
    Nothing(s4);
    Then(s3, n, []);
    assert [n] + [] == [n] && [f] + [n] == [f, n];
    if s.enabled {
      Then(s2, f, [n]);
    }
    Then(s1, g, tail);
    Then(s, e, [g] + tail);
    assert [e, g] + (if s.enabled then [f] else []) + [n] == [e] + ([g] + tail);
  }

  /** A handler that comes after a disable turns round at its guard; one that comes after an enable runs its body. */
  lemma {:induction false} GuardFollowsFlag(s: State, t: Tid)
    requires At(s, t) == Idle
    ensures Exec(s, [Disable, Act(t, Enter), Act(t, Guard)]) == Some(State(false, s.count + 1, s.pcs[t := Leaving]))
    ensures Exec(s, [Enable, Act(t, Enter), Act(t, Guard)]) == Some(State(true, s.count + 1, s.pcs[t := InBody]))
  {
    hide Exec;
    var guarded := [Act(t, Enter), Act(t, Guard)];
    forall a | a == Disable || a == Enable
      ensures Exec(s, [a] + guarded) == Exec(Step(s, a).value, guarded)
      ensures var on := a == Enable;
              Exec(Step(s, a).value, guarded) == Some(State(on, s.count + 1, s.pcs[t := if on then InBody else Leaving]))
    {
      var u := Step(s, a).value;
      var v := Step(u, Act(t, Enter)).value;
      var w := Step(v, Act(t, Guard)).value;
      assert w.pcs == s.pcs[t := if a == Enable then InBody else Leaving];
      Nothing(w);
      Then(v, Act(t, Guard), []);
      Then(u, Act(t, Enter), [Act(t, Guard)]);
      Then(s, a, guarded);
      assert [Act(t, Guard)] + [] == [Act(t, Guard)] && [Act(t, Enter)] + [Act(t, Guard)] == guarded;
    }
    assert [Disable] + guarded == [Disable, Act(t, Enter), Act(t, Guard)];
    assert [Enable] + guarded == [Enable, Act(t, Enter), Act(t, Guard)];
  }

  lemma Nothing(s: State)
    ensures Exec(s, []) == Some(s)
  {
  }

  /**
   The answer of waitForDone is the truth at that moment: on waking it is true if no handler is left and otherwise no
   answer, at the deadline it says whether none is left.
   */
  lemma {:induction false} AnswerIsTrue(s: State, d: Tid, turn: Turn)
    requires Reachable(s) && At(s, d) == Draining && Step(s, Act(d, turn)).Some?
    ensures turn == Observe || turn == TimeOut
    ensures At(Step(s, Act(d, turn)).value, d) ==
            if !SomeHandler(s) then Drained(true) else if turn == TimeOut then Drained(false) else Draining
  {
    hide Reachable;
    ReachableInv(s);
    ZeroIffNone(s);
  }

  /** While the flag stays clear, a thread that has been told true has nothing behind its back. */
  lemma {:induction false} ToldIsQuiet(s: State, d: Tid, run: seq<Action>)
    requires Inv(s) && !s.enabled && NoEnable(run) && Exec(s, run).Some?
    requires At(s, d) == Drained(true) ==> Bodies(s) == {}
    ensures Inv(Exec(s, run).value) && !Exec(s, run).value.enabled
    ensures At(Exec(s, run).value, d) == Drained(true) ==> Bodies(Exec(s, run).value) == {}
    decreases |run|
  {
    hide Step, Inv, Bodies, At;
    if run != [] {
      var a, u := run[0], Step(s, run[0]).value;
      StepKeeps(s, a);
      StepShrinks(s, a);
      ToldNow(s, d, a);
      ToldIsQuiet(u, d, run[1..]);
    }
  }

  /** The answer true is only given with no handler left. */
  lemma {:induction false} ToldNow(s: State, d: Tid, a: Action)
    requires Inv(s) && !s.enabled && a != Enable && Step(s, a).Some?
    requires At(s, d) == Drained(true) ==> Bodies(s) == {}
    ensures At(Step(s, a).value, d) == Drained(true) ==> Bodies(Step(s, a).value) == {}
  {
    hide Inv, Bodies;
    StepShrinks(s, a);
    if s.count == 0 {
      NoOwnersNoBodies(s);
    }
  }

  /**
   Drain safety. A run starts with the disable of waitForDone in thread d and has no enable. If d has been told true at
   its end, nothing is past its guard there, nor from there on until the next enable.
   */
  lemma {:induction false} DrainSafety(s: State, d: Tid, run: seq<Action>, later: seq<Action>)
    requires Reachable(s) && Step(s, Act(d, Drain)).Some? && NoEnable(run) && NoEnable(later)
    requires var s1 := Step(s, Act(d, Drain)).value;
             Exec(s1, run).Some? && At(Exec(s1, run).value, d) == Drained(true)
    requires Exec(Exec(Step(s, Act(d, Drain)).value, run).value, later).Some?
    ensures Bodies(Exec(Step(s, Act(d, Drain)).value, run).value) == {}
    ensures Bodies(Exec(Exec(Step(s, Act(d, Drain)).value, run).value, later).value) == {}
  {
    hide Reachable, Exec, Bodies, Inv;
    var s1 := Step(s, Act(d, Drain)).value;
    var u := Exec(s1, run).value;
    ReachableInv(s);
    StepKeeps(s, Act(d, Drain));
    ToldIsQuiet(s1, d, run);
    BodiesOnlyShrink(u, later);
  }

  lemma {:induction false} ReachableInv(s: State)
    requires Reachable(s)
    ensures Inv(s)
  {
    hide Step, Inv;
    var run :| Exec(Init(), run) == Some(s);
    InitInv();
    RunKeeps(Init(), run);
  }

  lemma InitInv()
    ensures Inv(Init())
  {
    assert Owners(Init().pcs) == {};
  }

  lemma NoOwnersNoBodies(s: State)
    requires Inv(s) && s.count == 0
    ensures Bodies(s) == {}
  {
    assert Bodies(s) <= Owners(s.pcs);
  }

  /**
   An enable between the disable and the zero defeats it: thread 0 drains, the flag is set again, thread 0 is told
   that all is done, and thread 1 runs its body with no further enable.
   */
  lemma {:induction false} EnableWhileDraining()
    ensures var run := [Act(0, Drain), Enable, Act(0, Observe), Act(1, Enter), Act(1, Guard)];
            Exec(Init(), run).Some? && At(Exec(Init(), run).value, 0) == Drained(true) &&
            At(Exec(Init(), run).value, 1) == InBody
  {
  }
}
