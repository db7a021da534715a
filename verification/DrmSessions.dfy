/**
 DrmSessionManager: a fixed number of slots, each with a group of key ids, a time stamp, a failure
 mark and a session. getDrmSession picks a slot for a key and decides whether its session can be reused.
 */
module DrmSessions {
  import opened Wrappers
  import opened DrmStates

  type Key = seq<int>

  datatype KeyID = KeyID(data: seq<Key>, creationTime: int, isFailedKeyId: bool, isPrimaryKeyId: bool)

  const EMPTY_SLOT := KeyID([], 0, false, false)

  datatype DrmSession = DrmSession(keySystem: string, state: KeyState)

  datatype DrmSessionContext = DrmSessionContext(data: Key, drmSession: Option<DrmSession>)

  datatype DrmError = NoError | FailedToGetKeyId | DrmInitFailed

  // ----- slot selection -----

  predicate HoldsAt(slots: seq<KeyID>, i: nat, key: Key)
    requires i < |slots|
  {
    key in slots[i].data
  }

  /** The first slot that caches the key; |slots| if there is none. */
  ghost predicate IsFirstWith(slots: seq<KeyID>, key: Key, i: nat)
  {
    i <= |slots| && (i < |slots| ==> HoldsAt(slots, i, key)) && forall j :: 0 <= j < i ==> !HoldsAt(slots, j, key)
  }

  /** The leftmost of the oldest slots among those from f on. */
  ghost predicate IsOldestFrom(slots: seq<KeyID>, f: nat, v: nat)
  {
    f <= v < |slots| && forall j :: f <= j < |slots| ==>
      (if j < v then slots[v].creationTime < slots[j].creationTime else slots[v].creationTime <= slots[j].creationTime)
  }

  function FirstWith(slots: seq<KeyID>, key: Key, from: nat): (i: nat)
    requires from <= |slots|
    ensures from <= i <= |slots| && (i < |slots| ==> HoldsAt(slots, i, key))
    ensures forall j :: from <= j < i ==> !HoldsAt(slots, j, key)
    decreases |slots| - from
  {
    if from == |slots| || HoldsAt(slots, from, key) then from else FirstWith(slots, key, from + 1)
  }

  function FirstFree(slots: seq<KeyID>, from: nat): (i: nat)
    requires from <= |slots|
    ensures from <= i <= |slots| && (i < |slots| ==> !slots[i].isPrimaryKeyId)
    ensures forall j :: from <= j < i ==> slots[j].isPrimaryKeyId
    decreases |slots| - from
  {
    if from == |slots| || !slots[from].isPrimaryKeyId then from else FirstFree(slots, from + 1)
  }

  function Oldest(slots: seq<KeyID>, f: nat): (v: nat)
    requires f < |slots|
    ensures IsOldestFrom(slots, f, v)
    decreases |slots| - f
  {
    if f + 1 == |slots| then f
    else
      var v := Oldest(slots, f + 1);
      if slots[v].creationTime < slots[f].creationTime then v else f
  }

  datatype Selection = Cached(slot: nat) | Failed(slot: nat) | Evict(slot: nat) | Full

  function Select(slots: seq<KeyID>, key: Key): (s: Selection)
    ensures !s.Full? ==> s.slot < |slots|
  {
    var i := FirstWith(slots, key, 0);
    if i < |slots| then if slots[i].isFailedKeyId then Failed(i) else Cached(i)
    else
      var f := FirstFree(slots, 0);
      if f == |slots| then Full else Evict(Oldest(slots, f))
  }

  function Group(key: Key, keys: seq<Key>): (g: seq<Key>)
  {
    if keys == [] then [key] else keys
  }

  /** The slots after the selection for a request. */
  function Stamped(slots: seq<KeyID>, s: Selection, group: seq<Key>, now: int, primary: bool): (t: seq<KeyID>)
    requires !s.Full? ==> s.slot < |slots|
    ensures |t| == |slots|
  {
    match s
    case Cached(i) => slots[i := slots[i].(creationTime := now, isPrimaryKeyId := primary)]
    case Evict(i) => slots[i := KeyID(group, now, false, primary)]
    case _ => slots
  }

  function MarkedFailed(slots: seq<KeyID>, i: nat): (t: seq<KeyID>)
    requires i < |slots|
    ensures |t| == |slots|
  {
    slots[i := slots[i].(isFailedKeyId := true)]
  }

  function ClearedSlot(k: KeyID): KeyID
  {
    if k.isFailedKeyId then EMPTY_SLOT else k.(isPrimaryKeyId := false)
  }

  function Cleared(slots: seq<KeyID>): (t: seq<KeyID>)
    ensures |t| == |slots| && forall i :: 0 <= i < |slots| ==> t[i] == ClearedSlot(slots[i])
  {
    seq(|slots|, i requires 0 <= i < |slots| => ClearedSlot(slots[i]))
  }

  // ----- session reuse -----

  datatype Reuse = Ready | Init | Waited | GaveUp | Broken | Replace

  /** What getDrmSession does with the session it finds in the slot; waited is the outcome of waitForState. */
  function ReuseOf(c: DrmSessionContext, group: seq<Key>, system: string, waited: bool): Reuse
  {
    if c.drmSession == None || c.drmSession.value.keySystem != system || c.data !in group then Replace
    else
      match c.drmSession.value.state
      case KEY_READY => Ready
      case KEY_INIT => Init
      case KEY_PENDING => if waited then Waited else GaveUp
      case _ => Broken
  }

  /**
   What a caller of getDrmSession brings, and what it cannot decide itself: the clock, whether a pending session becomes
   ready in time, and the state of the session the factory makes (None if it makes none).
   */
  datatype Request = Request(key: Key, keys: seq<Key>, system: string, isPrimary: bool, now: int, waited: bool,
                             made: Option<KeyState>)

  datatype Answer = Answer(code: KeyState, slot: Option<nat>, err: DrmError, slots: seq<KeyID>,
                           contexts: seq<DrmSessionContext>)

  /** The session part of getDrmSession, for slot i. */
  function Opened(slots: seq<KeyID>, contexts: seq<DrmSessionContext>, i: nat, r: Request): Answer
    requires i < |slots| == |contexts|
  {
    var c := contexts[i];
    match ReuseOf(c, slots[i].data, r.system, r.waited)
    case Ready => Answer(KEY_READY, Some(i), NoError, slots, contexts)
    case Init => Answer(KEY_INIT, Some(i), NoError, slots, contexts)
    case Waited =>
      Answer(KEY_READY, Some(i), NoError, slots, contexts[i := c.(drmSession := Some(DrmSession(r.system, KEY_READY)))])
    case Replace =>
      if r.made == None then Answer(KEY_ERROR, Some(i), DrmInitFailed, slots, contexts[i := c.(drmSession := None)])
      else
        Answer(r.made.value, Some(i), NoError, slots,
               contexts[i := DrmSessionContext(r.key, Some(DrmSession(r.system, r.made.value)))])
    case _ => Answer(KEY_ERROR, Some(i), NoError, MarkedFailed(slots, i), contexts)
  }

  function Serve(slots: seq<KeyID>, contexts: seq<DrmSessionContext>, r: Request): (a: Answer)
    requires |slots| == |contexts|
    ensures |a.slots| == |a.contexts| == |slots|
  {
    if r.key == [] then Answer(KEY_ERROR, None, FailedToGetKeyId, slots, contexts)
    else
      var s := Select(slots, r.key);
      var stamped := Stamped(slots, s, Group(r.key, r.keys), r.now, r.isPrimary);
      if s.Cached? || s.Evict? then Opened(stamped, contexts, s.slot, r)
      else Answer(KEY_ERROR, None, NoError, stamped, contexts)
  }

  // ----- the same, slot by slot -----

  /** Some slot caches the key. */
  ghost predicate SomeSlotHas(slots: seq<KeyID>, key: Key)
  {
    exists i :: 0 <= i < |slots| && key in slots[i].data
  }

  /** The first slot with the key has failed, or none has it and every slot is primary. */
  ghost predicate Refused(slots: seq<KeyID>, key: Key)
  {
    (exists i: nat :: i < |slots| && key in slots[i].data && slots[i].isFailedKeyId &&
                      forall j :: 0 <= j < i ==> key !in slots[j].data) ||
    (!SomeSlotHas(slots, key) && forall i :: 0 <= i < |slots| ==> slots[i].isPrimaryKeyId)
  }

  /** Slot i serves the key: the first with it, not failed, or else the oldest from the first that is not primary on. */
  ghost predicate Chosen(slots: seq<KeyID>, key: Key, i: nat)
  {
    i < |slots| &&
    if SomeSlotHas(slots, key) then
      key in slots[i].data && !slots[i].isFailedKeyId && forall j :: 0 <= j < i ==> key !in slots[j].data
    else
      exists f: nat :: f < |slots| && !slots[f].isPrimaryKeyId && (forall j :: 0 <= j < f ==> slots[j].isPrimaryKeyId) &&
                       IsOldestFrom(slots, f, i)
  }

  /**
   What becomes of a request that slot i serves, the slot stamped already. A session of that system and a key of the
   slot's group answers by its state: ready and initial ones are left alone, a pending one is waited for, any other
   fails the slot. Without such a session a new one takes its place.
   */
  ghost predicate Outcome(slots: seq<KeyID>, contexts: seq<DrmSessionContext>, i: nat, r: Request, code: KeyState,
                          err: DrmError, slots': seq<KeyID>, contexts': seq<DrmSessionContext>)
    requires i < |slots| == |contexts|
  {
    var k, c := slots[i], contexts[i];
    if c.drmSession.Some? && c.drmSession.value.keySystem == r.system && c.data in k.data then
      err == NoError &&
      match c.drmSession.value.state
      case KEY_READY => code == KEY_READY && slots' == slots && contexts' == contexts
      case KEY_INIT => code == KEY_INIT && slots' == slots && contexts' == contexts
      case KEY_PENDING =>
        if r.waited then
          code == KEY_READY && slots' == slots &&
          contexts' == contexts[i := DrmSessionContext(c.data, Some(DrmSession(r.system, KEY_READY)))]
        else code == KEY_ERROR && slots' == slots[i := k.(isFailedKeyId := true)] && contexts' == contexts
      case _ => code == KEY_ERROR && slots' == slots[i := k.(isFailedKeyId := true)] && contexts' == contexts
    else
      slots' == slots &&
      match r.made
      case Some(state) =>
        code == state && err == NoError && contexts' == contexts[i := DrmSessionContext(r.key, Some(DrmSession(r.system, state)))]
      case None => code == KEY_ERROR && err == DrmInitFailed && contexts' == contexts[i := DrmSessionContext(c.data, None)]
  }

  lemma OpenedOutcome(slots: seq<KeyID>, contexts: seq<DrmSessionContext>, i: nat, r: Request)
    requires i < |slots| == |contexts|
    ensures var a := Opened(slots, contexts, i, r);
            a.slot == Some(i) && Outcome(slots, contexts, i, r, a.code, a.err, a.slots, a.contexts)
  {
  }

  /** The selection, told slot by slot. */
  lemma {:induction false} SelectedBy(slots: seq<KeyID>, r: Request)
    ensures var s := Select(slots, r.key);
            (Refused(slots, r.key) <==> s.Failed? || s.Full?) &&
            (s.Failed? || s.Full? ==> Stamped(slots, s, Group(r.key, r.keys), r.now, r.isPrimary) == slots) &&
            (s.Cached? || s.Evict? ==>
               var i := s.slot;
               var data := if r.key in slots[i].data then slots[i].data else if r.keys == [] then [r.key] else r.keys;
               Chosen(slots, r.key, i) &&
               Stamped(slots, s, Group(r.key, r.keys), r.now, r.isPrimary) == slots[i := KeyID(data, r.now, false, r.isPrimary)])
  {
    var i := FirstWith(slots, r.key, 0);
    NotBefore(slots, r.key, i);
    if i < |slots| {
      assert HoldsAt(slots, i, r.key);
      assert SomeSlotHas(slots, r.key);
    } else {
      assert !SomeSlotHas(slots, r.key);
    }
  }

  lemma {:induction false} NotBefore(slots: seq<KeyID>, key: Key, i: nat)
    requires i <= |slots| && forall j :: 0 <= j < i ==> !HoldsAt(slots, j, key)
    ensures forall j :: 0 <= j < i ==> key !in slots[j].data
  {
    forall j: nat | j < i
      ensures key !in slots[j].data
    {
      assert !HoldsAt(slots, j, key);
    }
  }

  /** The whole answer, by whether there is a slot. */
  lemma ServeCases(slots: seq<KeyID>, contexts: seq<DrmSessionContext>, r: Request)
    requires |slots| == |contexts|
    ensures var a, s := Serve(slots, contexts, r), Select(slots, r.key);
            var stamped := Stamped(slots, s, Group(r.key, r.keys), r.now, r.isPrimary);
            if r.key != [] && (s.Cached? || s.Evict?) then a == Opened(stamped, contexts, s.slot, r)
            else
              a == Answer(KEY_ERROR, None, if r.key == [] then FailedToGetKeyId else NoError,
                          if r.key == [] then slots else stamped, contexts)
  {
    hide Opened, Select, Stamped;
  }

  class DrmSessionManager {
    const mMaxDRMSessions: nat
    const cachedKeyIDs: array<KeyID>
    const drmSessionContexts: array<DrmSessionContext>

    ghost predicate Valid()
    {
      cachedKeyIDs.Length == drmSessionContexts.Length == mMaxDRMSessions
    }

    constructor (maxSessions: nat)
      ensures Valid() && mMaxDRMSessions == maxSessions && fresh(cachedKeyIDs) && fresh(drmSessionContexts)
      ensures forall i :: 0 <= i < maxSessions ==>
                cachedKeyIDs[i] == EMPTY_SLOT && drmSessionContexts[i] == DrmSessionContext([], None)
    {
      mMaxDRMSessions := maxSessions;
      cachedKeyIDs := new KeyID[maxSessions](i => EMPTY_SLOT);
      drmSessionContexts := new DrmSessionContext[maxSessions](i => DrmSessionContext([], None));
    }

    /** The loop shared by getDrmSession and IsKeyIdProcessed. */
    method FindKey(key: Key) returns (sessionSlot: nat)
      requires Valid()
      ensures sessionSlot == FirstWith(cachedKeyIDs[..], key, 0) && IsFirstWith(cachedKeyIDs[..], key, sessionSlot)
    {
      sessionSlot := 0;
      while sessionSlot < mMaxDRMSessions
        invariant 0 <= sessionSlot <= mMaxDRMSessions
        invariant FirstWith(cachedKeyIDs[..], key, 0) == FirstWith(cachedKeyIDs[..], key, sessionSlot)
      {
        if key in cachedKeyIDs[sessionSlot].data {
          break;
        }
        sessionSlot := sessionSlot + 1;
      }
    }

    method IsKeyIdProcessed(key: Key) returns (processed: bool, status: bool)
      requires Valid()
      ensures processed <==> exists i :: 0 <= i < mMaxDRMSessions && HoldsAt(cachedKeyIDs[..], i, key)
      ensures processed ==> exists i: nat :: i < mMaxDRMSessions && IsFirstWith(cachedKeyIDs[..], key, i) &&
                                             status == !cachedKeyIDs[i].isFailedKeyId
    {
      var i := FindKey(key);
      processed, status := i < mMaxDRMSessions, false;
      if processed {
        assert HoldsAt(cachedKeyIDs[..], i, key);
        status := !cachedKeyIDs[i].isFailedKeyId;
      }
    }

    method clearFailedKeyIds()
      requires Valid()
      modifies cachedKeyIDs
      ensures cachedKeyIDs[..] == Cleared(old(cachedKeyIDs[..]))
      ensures forall i :: 0 <= i < mMaxDRMSessions ==>
                cachedKeyIDs[i] == if old(cachedKeyIDs[i].isFailedKeyId) then KeyID([], 0, false, false)
                                   else old(cachedKeyIDs[i]).(isPrimaryKeyId := false)
    {
      for i := 0 to mMaxDRMSessions
        invariant forall j :: 0 <= j < i ==> cachedKeyIDs[j] == ClearedSlot(old(cachedKeyIDs[j]))
        invariant forall j :: i <= j < mMaxDRMSessions ==> cachedKeyIDs[j] == old(cachedKeyIDs[j])
      {
        if cachedKeyIDs[i].isFailedKeyId {
          cachedKeyIDs[i] := cachedKeyIDs[i].(data := [], isFailedKeyId := false, creationTime := 0);
        }
        cachedKeyIDs[i] := cachedKeyIDs[i].(isPrimaryKeyId := false);
      }
    }

    /** The two scans that pick a slot for a key that is not cached; mMaxDRMSessions when every slot is primary. */
    method FindSlot() returns (sessionSlot: nat)
      requires Valid()
      ensures var f := FirstFree(cachedKeyIDs[..], 0);
              sessionSlot == if f < mMaxDRMSessions then Oldest(cachedKeyIDs[..], f) else mMaxDRMSessions
    {
      ghost var slots := cachedKeyIDs[..];
      var index := 0;
      while index < mMaxDRMSessions
        invariant 0 <= index <= mMaxDRMSessions && FirstFree(slots, 0) == FirstFree(slots, index)
      {
        if !cachedKeyIDs[index].isPrimaryKeyId {
          break;
        }
        index := index + 1;
      }
      if index == mMaxDRMSessions {
        return mMaxDRMSessions;
      }
      ghost var f := index;
      sessionSlot := index;
      index := index + 1;
      while index < mMaxDRMSessions
        invariant f <= sessionSlot < index <= mMaxDRMSessions
        invariant forall j :: f <= j < index ==>
          (if j < sessionSlot then slots[sessionSlot].creationTime < slots[j].creationTime
           else slots[sessionSlot].creationTime <= slots[j].creationTime)
      {
        if cachedKeyIDs[index].creationTime < cachedKeyIDs[sessionSlot].creationTime {
          sessionSlot := index;
        }
        index := index + 1;
      }
      OldestUnique(slots, f, sessionSlot, Oldest(slots, f));
    }

    /** The first half of getDrmSession: under cachedKeyMutex, select a slot and stamp it. */
    method SelectSlot(key: Key, keys: seq<Key>, isPrimarySession: bool, now: int) returns (s: Selection)
      requires Valid()
      modifies cachedKeyIDs
      ensures s == Select(old(cachedKeyIDs[..]), key)
      ensures cachedKeyIDs[..] == Stamped(old(cachedKeyIDs[..]), s, Group(key, keys), now, isPrimarySession)
    {
      var sessionSlot := FindKey(key);
      if sessionSlot == mMaxDRMSessions {
        sessionSlot := FindSlot();
        if sessionSlot == mMaxDRMSessions {
          return Full;
        }
        s := Evict(sessionSlot);
        cachedKeyIDs[sessionSlot] := cachedKeyIDs[sessionSlot].(data := Group(key, keys), isFailedKeyId := false);
      } else if cachedKeyIDs[sessionSlot].isFailedKeyId {
        return Failed(sessionSlot);
      } else {
        s := Cached(sessionSlot);
      }
      cachedKeyIDs[sessionSlot] := cachedKeyIDs[sessionSlot].(creationTime := now, isPrimaryKeyId := isPrimarySession);
    }

    /** The second half of getDrmSession: under mDrmSessionLock, reuse, wait for or replace the session of the slot. */
    method OpenSession(sessionSlot: nat, r: Request) returns (code: KeyState, err: DrmError)
      requires Valid() && sessionSlot < mMaxDRMSessions
      modifies cachedKeyIDs, drmSessionContexts
      ensures Answer(code, Some(sessionSlot), err, cachedKeyIDs[..], drmSessionContexts[..]) ==
              Opened(old(cachedKeyIDs[..]), old(drmSessionContexts[..]), sessionSlot, r)
      ensures Outcome(old(cachedKeyIDs[..]), old(drmSessionContexts[..]), sessionSlot, r, code, err, cachedKeyIDs[..],
                      drmSessionContexts[..])
    {
      OpenedOutcome(cachedKeyIDs[..], drmSessionContexts[..], sessionSlot, r);
      hide Outcome;
      code, err := KEY_ERROR, NoError;
      var context := drmSessionContexts[sessionSlot];
      if context.drmSession != None {
        var session := context.drmSession.value;
        if session.keySystem == r.system && context.data in cachedKeyIDs[sessionSlot].data {
          if session.state == KEY_READY {
            code := KEY_READY;
            return;
          }
          if session.state == KEY_INIT {
            code := KEY_INIT;
            return;
          } else if session.state == KEY_PENDING {
            if r.waited {
              drmSessionContexts[sessionSlot] := context.(drmSession := Some(DrmSession(r.system, KEY_READY)));
              code := KEY_READY;
              return;
            }
            cachedKeyIDs[sessionSlot] := cachedKeyIDs[sessionSlot].(isFailedKeyId := true);
            return;
          } else {
            cachedKeyIDs[sessionSlot] := cachedKeyIDs[sessionSlot].(isFailedKeyId := true);
            return;
          }
        }
        drmSessionContexts[sessionSlot] := context.(drmSession := None);
      }
      if r.made != None {
        drmSessionContexts[sessionSlot] := DrmSessionContext(r.key, Some(DrmSession(r.system, r.made.value)));
        code := r.made.value;
      } else {
        err := DrmInitFailed;
      }
    }

    /**
     Every branch of getDrmSession is Serve, and a KEY_READY comes with a session that fits the request.
     */
    method getDrmSession(r: Request) returns (code: KeyState, selectedSlot: Option<nat>, err: DrmError)
      requires Valid()
      modifies cachedKeyIDs, drmSessionContexts
      ensures Answer(code, selectedSlot, err, cachedKeyIDs[..], drmSessionContexts[..]) ==
              Serve(old(cachedKeyIDs[..]), old(drmSessionContexts[..]), r)
      ensures code == KEY_READY ==>
              selectedSlot.Some? && selectedSlot.value < mMaxDRMSessions &&
              FitsRequest(cachedKeyIDs[selectedSlot.value], drmSessionContexts[selectedSlot.value], r)
      ensures selectedSlot == None <==> r.key == [] || Refused(old(cachedKeyIDs[..]), r.key)
      ensures selectedSlot == None ==>
              code == KEY_ERROR && err == (if r.key == [] then FailedToGetKeyId else NoError) &&
              cachedKeyIDs[..] == old(cachedKeyIDs[..]) && drmSessionContexts[..] == old(drmSessionContexts[..])
      ensures selectedSlot.Some? ==>
              var i, slots := selectedSlot.value, old(cachedKeyIDs[..]);
              Chosen(slots, r.key, i) &&
              var data := if r.key in slots[i].data then slots[i].data else if r.keys == [] then [r.key] else r.keys;
              Outcome(slots[i := KeyID(data, r.now, false, r.isPrimary)], old(drmSessionContexts[..]), i, r, code, err,
                      cachedKeyIDs[..], drmSessionContexts[..])
    {
      code, selectedSlot, err := KEY_ERROR, None, NoError;
      ReadyFits(cachedKeyIDs[..], drmSessionContexts[..], r);
      SelectedBy(cachedKeyIDs[..], r);
      hide Opened, Select, Stamped, Outcome, Refused, Chosen, Serve, Group;
      ServeCases(cachedKeyIDs[..], drmSessionContexts[..], r);
      if r.key == [] {
        err := FailedToGetKeyId;
        return;
      }
      var s := SelectSlot(r.key, r.keys, r.isPrimary, r.now);
      if s.Full? || s.Failed? {
        return;
      }
      selectedSlot := Some(s.slot);
      code, err := OpenSession(s.slot, r);
    }
  }

  /**
   A ready session of the requested system in a slot that has not failed. It was made for a key of the slot's group,
   unless it is new and the requested key is not among the keys that came with it.
   */
  predicate FitsRequest(k: KeyID, c: DrmSessionContext, r: Request)
  {
    c.drmSession == Some(DrmSession(r.system, KEY_READY)) && !k.isFailedKeyId &&
    (c.data in k.data || (r.made == Some(KEY_READY) && c.data == r.key && r.key !in Group(r.key, r.keys)))
  }

  lemma ReadyFits(slots: seq<KeyID>, contexts: seq<DrmSessionContext>, r: Request)
    requires |slots| == |contexts|
    ensures var a := Serve(slots, contexts, r);
            a.code == KEY_READY ==>
              a.slot.Some? && a.slot.value < |slots| && FitsRequest(a.slots[a.slot.value], a.contexts[a.slot.value], r)
  {
    hide Opened;
    var s := Select(slots, r.key);
    if r.key != [] && (s.Cached? || s.Evict?) {
      OpenedReady(Stamped(slots, s, Group(r.key, r.keys), r.now, r.isPrimary), contexts, s.slot, r);
    }
  }

  lemma OpenedReady(slots: seq<KeyID>, contexts: seq<DrmSessionContext>, i: nat, r: Request)
    requires i < |slots| == |contexts| && !slots[i].isFailedKeyId
    requires r.key in slots[i].data || r.key !in Group(r.key, r.keys)
    ensures var a := Opened(slots, contexts, i, r);
            a.code == KEY_READY ==> a.slot == Some(i) && FitsRequest(a.slots[i], a.contexts[i], r)
  {
  }

  lemma OldestUnique(slots: seq<KeyID>, f: nat, v: nat, w: nat)
    requires IsOldestFrom(slots, f, v) && IsOldestFrom(slots, f, w)
    ensures v == w
  {
    assert slots[v].creationTime <= slots[w].creationTime && slots[w].creationTime <= slots[v].creationTime;
  }
}
