/**
 Whole runs of the session manager: what a session that is handed out as ready was made for.
 */
module DrmRuns {
  import opened DrmSessions
  import opened DrmStates
  import opened Wrappers

  /** A request, a session changing its state or being deleted, a failure mark, or the clearing of failed keys. */
  datatype Event =
    | Serves(r: Request)
    | Changes(slot: nat, state: KeyState)
    | Deletes(slot: nat)
    | Fails(slot: nat)
    | Clears

  datatype Manager = Manager(slots: seq<KeyID>, contexts: seq<DrmSessionContext>)

  predicate Sized(m: Manager)
  {
    |m.slots| == |m.contexts|
  }

  function After(m: Manager, e: Event): (n: Manager)
    requires Sized(m)
    ensures Sized(n)
  {
    match e
    case Serves(r) =>
      var a := Serve(m.slots, m.contexts, r);
      Manager(a.slots, a.contexts)
    case Changes(i, state) =>
      if i < |m.contexts| && m.contexts[i].drmSession.Some? then
        m.(contexts := m.contexts[i :=
          m.contexts[i].(drmSession := Some(DrmSession(m.contexts[i].drmSession.value.keySystem, state)))])
      else m
    case Deletes(i) => if i < |m.contexts| then m.(contexts := m.contexts[i := m.contexts[i].(drmSession := None)]) else m
    case Fails(i) => if i < |m.slots| then m.(slots := MarkedFailed(m.slots, i)) else m
    case Clears => m.(slots := Cleared(m.slots))
  }

  function AfterAll(m: Manager, es: seq<Event>): (n: Manager)
    requires Sized(m)
    ensures Sized(n)
    decreases |es|
  {
    if es == [] then m else AfterAll(After(m, es[0]), es[1..])
  }

  /** The key and system of every request. */
  function Asked(es: seq<Event>): set<(Key, string)>
  {
    set e | e in es && e.Serves? :: (e.r.key, e.r.system)
  }

  /** The requested key is one of the keys that come with it. */
  predicate Proper(r: Request)
  {
    r.key in Group(r.key, r.keys)
  }

  predicate AllProper(es: seq<Event>)
  {
    forall e :: e in es && e.Serves? ==> Proper(e.r)
  }

  /** Every session was asked for, and its key is in the group of its slot unless that was cleared. */
  predicate Fitting(m: Manager, asked: set<(Key, string)>)
    requires Sized(m)
  {
    forall i :: 0 <= i < |m.contexts| && m.contexts[i].drmSession.Some? ==>
      (m.contexts[i].data, m.contexts[i].drmSession.value.keySystem) in asked &&
      (m.slots[i].data != [] ==> m.contexts[i].data in m.slots[i].data)
  }

  lemma {:induction false} OpenedFits(m: Manager, asked: set<(Key, string)>, i: nat, r: Request)
    requires Sized(m) && i < |m.slots| && r.key in m.slots[i].data
    requires forall j :: 0 <= j < |m.contexts| && m.contexts[j].drmSession.Some? ==>
               (m.contexts[j].data, m.contexts[j].drmSession.value.keySystem) in asked &&
               (j != i && m.slots[j].data != [] ==> m.contexts[j].data in m.slots[j].data)
    ensures var a := Opened(m.slots, m.contexts, i, r);
            Fitting(Manager(a.slots, a.contexts), asked + {(r.key, r.system)})
  {
  }

  lemma {:induction false} ServeFits(m: Manager, asked: set<(Key, string)>, r: Request)
    requires Sized(m) && Fitting(m, asked) && Proper(r)
    ensures var a := Serve(m.slots, m.contexts, r);
            Fitting(Manager(a.slots, a.contexts), asked + {(r.key, r.system)})
  {
    hide Opened;
    var s := Select(m.slots, r.key);
    if r.key != [] && (s.Cached? || s.Evict?) {
      var stamped := Stamped(m.slots, s, Group(r.key, r.keys), r.now, r.isPrimary);
      CachedHolds(m.slots, r.key);
      OpenedFits(Manager(stamped, m.contexts), asked, s.slot, r);
    }
  }

  lemma CachedHolds(slots: seq<KeyID>, key: Key)
    ensures Select(slots, key).Cached? ==> key in slots[Select(slots, key).slot].data
  {
  }

  lemma {:induction false} EventFits(m: Manager, asked: set<(Key, string)>, e: Event)
    requires Sized(m) && Fitting(m, asked) && (e.Serves? ==> Proper(e.r))
    ensures Fitting(After(m, e), if e.Serves? then asked + {(e.r.key, e.r.system)} else asked)
  {
    hide Serve;
    if e.Serves? {
      ServeFits(m, asked, e.r);
    }
  }

  lemma {:induction false} RunFits(m: Manager, asked: set<(Key, string)>, es: seq<Event>)
    requires Sized(m) && Fitting(m, asked) && AllProper(es)
    ensures Fitting(AfterAll(m, es), asked + Asked(es))
    decreases |es|
  {
    hide After, Fitting;
    if es == [] {
      assert asked + Asked(es) == asked;
    } else {
      var e := es[0];
      EventFits(m, asked, e);
      var more := if e.Serves? then asked + {(e.r.key, e.r.system)} else asked;
      RunFits(After(m, e), more, es[1..]);
      assert es == [e] + es[1..];
      assert more + Asked(es[1..]) == asked + Asked(es);
    }
  }

  /** A manager as its constructor leaves it. */
  predicate IsNew(m: Manager)
  {
    Sized(m) && forall i :: 0 <= i < |m.slots| ==> m.slots[i] == EMPTY_SLOT && m.contexts[i] == DrmSessionContext([], None)
  }

  /**
   After any run in which each requested key is among the keys that come with it: a request answered KEY_READY names a
   slot, not failed, whose group holds the requested key, and whose session is ready, of the requested system, and was
   made on a request for that system and a key of the same group.
   */
  lemma {:induction false} ReadyWasAskedFor(m: Manager, es: seq<Event>, r: Request)
    requires IsNew(m) && AllProper(es) && Proper(r)
    ensures var n := AfterAll(m, es);
            var a := Serve(n.slots, n.contexts, r);
            a.code == KEY_READY ==>
              a.slot.Some? && a.slot.value < |a.slots| == |a.contexts| &&
              var k, c := a.slots[a.slot.value], a.contexts[a.slot.value];
              !k.isFailedKeyId && r.key in k.data && c.drmSession == Some(DrmSession(r.system, KEY_READY)) &&
              c.data in k.data && (c.data, r.system) in Asked(es) + {(r.key, r.system)}
  {
    hide AfterAll;
    RunFits(m, {}, es);
    assert {} + Asked(es) == Asked(es);
    var n := AfterAll(m, es);
    ServeFits(n, Asked(es), r);
    ReadyAnswer(n, r);
  }

  lemma {:induction false} ReadyAnswer(n: Manager, r: Request)
    requires Sized(n) && Proper(r)
    ensures var a := Serve(n.slots, n.contexts, r);
            a.code == KEY_READY ==>
              a.slot.Some? && a.slot.value < |a.slots| == |a.contexts| &&
              var k, c := a.slots[a.slot.value], a.contexts[a.slot.value];
              !k.isFailedKeyId && r.key in k.data && c.drmSession == Some(DrmSession(r.system, KEY_READY))
  {
    CachedHolds(n.slots, r.key);
  }

  // ----- what the next request is told -----

  /** Slot i is the first with the key and has a session of the system for a key of its group. */
  predicate Bound(m: Manager, i: nat, r: Request)
    requires Sized(m)
  {
    i < |m.slots| && r.key != [] && r.key in m.slots[i].data && (forall j :: 0 <= j < i ==> r.key !in m.slots[j].data) &&
    m.contexts[i].drmSession.Some? && m.contexts[i].drmSession.value.keySystem == r.system &&
    m.contexts[i].data in m.slots[i].data
  }

  lemma {:induction false} BoundSelects(m: Manager, i: nat, r: Request)
    requires Sized(m) && Bound(m, i, r)
    ensures Select(m.slots, r.key) == if m.slots[i].isFailedKeyId then Failed(i) else Cached(i)
  {
    assert HoldsAt(m.slots, i, r.key);
  }

  /**
   A session's change of state, its deletion, a failure and the clearing of failed keys, each as the next request for
   a key of its slot sees it.
   */
  lemma {:induction false} EventThenRequest(m: Manager, i: nat, r: Request, state: KeyState)
    requires Sized(m) && Bound(m, i, r) && !m.slots[i].isFailedKeyId
    ensures var n := After(m, Changes(i, state));
            var a := Serve(n.slots, n.contexts, r);
            a.slot == Some(i) && a.code == (match state
                                            case KEY_READY => KEY_READY
                                            case KEY_INIT => KEY_INIT
                                            case KEY_PENDING => if r.waited then KEY_READY else KEY_ERROR
                                            case _ => KEY_ERROR)
    ensures var n := After(m, Deletes(i));
            var a := Serve(n.slots, n.contexts, r);
            a.slot == Some(i) && a.code == if r.made.Some? then r.made.value else KEY_ERROR
    ensures var n := After(m, Fails(i));
            var a := Serve(n.slots, n.contexts, r);
            a.slot == None && a.code == KEY_ERROR && a.contexts == m.contexts
    ensures var n := After(After(m, Fails(i)), Clears);
            n.slots[i] == KeyID([], 0, false, false) && n.contexts == m.contexts
  {
    hide Select, FirstWith;
    BoundSelects(After(m, Changes(i, state)), i, r);
    BoundSelects(After(m, Deletes(i)).(contexts := m.contexts), i, r);
    BoundSelects(After(m, Fails(i)), i, r);
  }

  /** No event but a request touches any other slot, apart from clearing. */
  lemma {:induction false} EventElsewhere(m: Manager, e: Event, j: nat)
    requires Sized(m) && j < |m.slots| && !e.Serves? && !e.Clears? && e.slot != j
    ensures After(m, e).slots[j] == m.slots[j] && After(m, e).contexts[j] == m.contexts[j]
  {
  }
}
