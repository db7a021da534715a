/**
 What the scheduler does to tasks, apart from who holds which lock: every step of the protocol is one
 of five moves of a ledger, or leaves the ledger alone. Order, conservation and ids are properties of
 the ledger.
 */
module SchedulerLedger {
  import opened Scheduler
  import opened Wrappers

  datatype Ledger = Ledger(queue: seq<Task>, nextId: int, currentId: int, accepted: seq<Task>, begun: seq<nat>,
                           taken: seq<Task>, removed: set<nat>)

  function LedgerOf(s: Shared): Ledger
  {
    Ledger(s.core.queue, s.core.nextId, s.core.currentId, s.accepted, s.begun,
           if s.w.Taken? then [s.w.task] else [], s.removed)
  }

  // ----- the moves -----

  predicate AcceptMove(l: Ledger, m: Ledger)
  {
    var task := Task(l.nextId, |l.accepted|);
    m == l.(queue := l.queue + [task], accepted := l.accepted + [task], nextId := NextId(l.nextId))
  }

  predicate RemoveMove(l: Ledger, m: Ledger, i: nat)
    requires i < |l.queue|
  {
    m == l.(queue := l.queue[..i] + l.queue[i + 1..], removed := l.removed + {l.queue[i].mData})
  }

  predicate ClearMove(l: Ledger, m: Ledger)
  {
    m == l.(queue := [], removed := l.removed + Serials(l.queue))
  }

  predicate TakeMove(l: Ledger, m: Ledger)
  {
    l.queue != [] && l.taken == [] &&
    m == l.(queue := l.queue[1..], taken := [l.queue[0]], currentId := l.queue[0].mId)
  }

  predicate BeginMove(l: Ledger, m: Ledger)
  {
    |l.taken| == 1 && m == l.(begun := l.begun + [l.taken[0].mData], taken := [])
  }

  ghost predicate Move(l: Ledger, m: Ledger)
  {
    m == l || AcceptMove(l, m) || (exists i: nat | i < |l.queue| :: RemoveMove(l, m, i)) || ClearMove(l, m) ||
    TakeMove(l, m) || BeginMove(l, m)
  }

  // ----- the invariant -----

  /** The id the k-th accepted task gets: 1, 2, ..., INT_MAX - 1, and again from 1. */
  function IdOf(k: nat): (id: int)
  {
    k % (ID_MAX - 1) + 1
  }

  function Numbers(q: seq<Task>): (n: seq<nat>)
    ensures |n| == |q| && forall i :: 0 <= i < |q| ==> n[i] == q[i].mData
  {
    seq(|q|, i requires 0 <= i < |q| => q[i].mData)
  }

  /** The tasks that began or are about to, then those still queued. */
  function Started(l: Ledger): seq<nat>
  {
    l.begun + Numbers(l.taken)
  }

  function Line(l: Ledger): seq<nat>
  {
    Started(l) + Numbers(l.queue)
  }

  ghost predicate Increasing(n: seq<nat>)
  {
    forall i, j :: 0 <= i < j < |n| ==> n[i] < n[j]
  }

  ghost predicate Numbered(q: seq<Task>, accepted: seq<Task>)
  {
    forall i :: 0 <= i < |q| ==> q[i].mData < |accepted| && q[i] == accepted[q[i].mData]
  }

  ghost predicate Ids(l: Ledger)
  {
    l.nextId == IdOf(|l.accepted|) && |l.taken| <= 1 &&
    (forall k :: 0 <= k < |l.accepted| ==> l.accepted[k] == Task(IdOf(k), k)) &&
    Numbered(l.queue, l.accepted) && Numbered(l.taken, l.accepted)
  }

  /** Every accepted task is in exactly one place, and the order of acceptance is kept. */
  ghost predicate Conserved(l: Ledger)
  {
    Increasing(Line(l)) &&
    (forall k: nat :: (k in Line(l) || k in l.removed) <==> k < |l.accepted|) &&
    (forall k: nat :: !(k in Line(l) && k in l.removed))
  }

  predicate Current(l: Ledger)
  {
    l.currentId == if Started(l) == [] then ID_INVALID else IdOf(Started(l)[|Started(l)| - 1])
  }

  ghost predicate LedgerInv(l: Ledger)
  {
    Ids(l) && Conserved(l) && Current(l)
  }

  lemma NextIdOf(k: nat)
    ensures NextId(IdOf(k)) == IdOf(k + 1) && ID_DEFAULT <= IdOf(k) < ID_MAX
  {
  }

  lemma {:induction false} AcceptKeeps(l: Ledger, m: Ledger)
    requires LedgerInv(l) && AcceptMove(l, m)
    ensures LedgerInv(m)
  {
    hide IdOf, NextId;
    var n := |l.accepted|;
    NextIdOf(n);
    assert Line(m) == Line(l) + [n];
    assert forall i :: 0 <= i < |Line(l)| ==> Line(l)[i] in Line(l);
    assert Started(m) == Started(l);
    assert forall k: nat :: k in Line(m) <==> k in Line(l) || k == n;
  }

  lemma {:induction false} RemoveKeeps(l: Ledger, m: Ledger, i: nat)
    requires LedgerInv(l) && i < |l.queue| && RemoveMove(l, m, i)
    ensures LedgerInv(m)
  {
    hide IdOf;
    var at, n := |Started(l)| + i, l.queue[i].mData;
    assert Started(m) == Started(l);
    assert Line(l)[at] == n;
    assert Line(m) == Line(l)[..at] + Line(l)[at + 1..];
    WithoutOne(Line(l), at);
  }

  lemma {:induction false} WithoutOne(n: seq<nat>, at: nat)
    requires at < |n| && Increasing(n)
    ensures var w := n[..at] + n[at + 1..];
            Increasing(w) && forall k: nat :: k in w <==> k in n && k != n[at]
  {
    var w := n[..at] + n[at + 1..];
    forall k: nat | k in n && k != n[at]
      ensures k in w
    {
      var j :| 0 <= j < |n| && n[j] == k;
      assert w[if j < at then j else j - 1] == k;
    }
    forall k: nat | k in w
      ensures k in n && k != n[at]
    {
      var j :| 0 <= j < |w| && w[j] == k;
      assert n[if j < at then j else j + 1] == k;
    }
  }

  lemma {:induction false} ClearKeeps(l: Ledger, m: Ledger)
    requires LedgerInv(l) && ClearMove(l, m)
    ensures LedgerInv(m)
  {
    hide IdOf;
    assert Started(m) == Started(l);
    assert Line(m) == Started(l) == Line(l)[..|Started(l)|];
    forall k: nat
      ensures k in Line(l) <==> k in Started(l) || k in Serials(l.queue)
      ensures !(k in Started(l) && k in Serials(l.queue))
    {
      InLine(l, k);
    }
  }

  lemma {:induction false} InLine(l: Ledger, k: nat)
    requires Increasing(Line(l))
    ensures k in Line(l) <==> k in Started(l) || k in Serials(l.queue)
    ensures !(k in Started(l) && k in Serials(l.queue))
  {
    var line, c := Line(l), |Started(l)|;
    if k in Serials(l.queue) {
      var j :| 0 <= j < |l.queue| && l.queue[j].mData == k;
      assert line[c + j] == k;
      assert forall i :: 0 <= i < c ==> Started(l)[i] == line[i];
    }
    if k in Line(l) && k !in Started(l) {
      var j :| 0 <= j < |line| && line[j] == k;
      assert j >= c && l.queue[j - c].mData == k;
    }
  }

  lemma {:induction false} TakeKeeps(l: Ledger, m: Ledger)
    requires LedgerInv(l) && TakeMove(l, m)
    ensures LedgerInv(m)
  {
    hide IdOf;
    assert Line(m) == Line(l);
    assert Started(m) == l.begun + [l.queue[0].mData];
  }

  lemma {:induction false} BeginKeeps(l: Ledger, m: Ledger)
    requires LedgerInv(l) && BeginMove(l, m)
    ensures LedgerInv(m)
  {
    hide IdOf;
    assert Started(m) == Started(l);
    assert Line(m) == Line(l);
  }

  lemma {:induction false} MoveKeeps(l: Ledger, m: Ledger)
    requires LedgerInv(l) && Move(l, m)
    ensures LedgerInv(m)
  {
    hide LedgerInv, AcceptMove, RemoveMove, ClearMove, TakeMove, BeginMove;
    if AcceptMove(l, m) {
      AcceptKeeps(l, m);
    } else if i: nat :| i < |l.queue| && RemoveMove(l, m, i) {
      RemoveKeeps(l, m, i);
    } else if ClearMove(l, m) {
      ClearKeeps(l, m);
    } else if TakeMove(l, m) {
      TakeKeeps(l, m);
    } else if BeginMove(l, m) {
      BeginKeeps(l, m);
    }
  }

  // ----- the protocol moves the ledger -----

  lemma {:induction false} SectionMoves(s: Shared, k: Section)
    requires InSection(s, k).Some?
    ensures Move(LedgerOf(s), LedgerOf(InSection(s, k).value.sh))
  {
    hide Serials, NextId;
    var l, m := LedgerOf(s), LedgerOf(InSection(s, k).value.sh);
    match k
    case Accept => assert m == l || AcceptMove(l, m);
    case Erase(id) =>
      if Erases(s.core, id) {
        assert RemoveMove(l, m, FirstWithId(s.core.queue, id));
      }
    case Clear(a) => assert ClearMove(l, m);
    case _ =>
  }

  lemma {:induction false} ThreadMoves(s: Shared, t: Tid, pc: Pc)
    requires ThreadStep(s, t, pc).Some?
    ensures Move(LedgerOf(s), LedgerOf(ThreadStep(s, t, pc).value.sh))
  {
    hide InSection, Move;
    var l, m := LedgerOf(s), LedgerOf(ThreadStep(s, t, pc).value.sh);
    if pc.Inside? {
      SectionMoves(s, pc.k);
    } else {
      assert m == l;
      Stays(l);
    }
  }

  lemma Stays(l: Ledger)
    ensures Move(l, l)
  {
  }

  lemma {:induction false} WorkerMoves(s: Shared)
    requires Ids(LedgerOf(s)) && WorkerStep(s).Some?
    ensures Move(LedgerOf(s), LedgerOf(WorkerStep(s).value))
  {
    hide Move;
    var l, m := LedgerOf(s), LedgerOf(WorkerStep(s).value);
    if s.w == Choosing && l.queue != [] {
      NextIdOf(l.queue[0].mData);
      assert l.queue[0].mId != ID_INVALID;
      assert TakeMove(l, m);
      TakeIsMove(l, m);
    } else if s.w.Taken? {
      assert BeginMove(l, m);
      BeginIsMove(l, m);
    } else {
      assert m == l;
      Stays(l);
    }
  }

  lemma TakeIsMove(l: Ledger, m: Ledger)
    requires TakeMove(l, m)
    ensures Move(l, m)
  {
  }

  lemma BeginIsMove(l: Ledger, m: Ledger)
    requires BeginMove(l, m)
    ensures Move(l, m)
  {
  }

  /** Every step of the protocol is a move of the ledger. */
  lemma {:induction false} StepMoves(s: State, a: Action)
    requires Ids(LedgerOf(s.sh)) && Step(s, a).Some?
    ensures Move(LedgerOf(s.sh), LedgerOf(Step(s, a).value.sh))
  {
    hide Ids, ThreadStep, WorkerStep, Move;
    match a
    case Client(t) => ThreadMoves(s.sh, t, At(s, t));
    case Work => WorkerMoves(s.sh);
    case _ =>
      assert LedgerOf(Step(s, a).value.sh) == LedgerOf(s.sh);
      Stays(LedgerOf(s.sh));
  }
}
