/**
 The slots refine a least-recently-used list of key groups.
 */
module DrmLru {
  import opened DrmSessions
  import opened Wrappers
  import opened DrmStates

  /** One line of the list: the slot, its group of keys (empty when unused) and its failure mark. */
  datatype Entry = Entry(slot: nat, data: seq<Key>, failed: bool)

  /** Least recently requested first. */
  type Lru = seq<Entry>

  // ----- the list -----

  /** The entry of the lowest slot that caches the key. */
  ghost predicate IsHit(c: Lru, key: Key, i: nat)
  {
    i < |c| && key in c[i].data && forall j :: 0 <= j < |c| && key in c[j].data ==> c[i].slot <= c[j].slot
  }

  ghost predicate IsMiss(c: Lru, key: Key)
  {
    forall j :: 0 <= j < |c| ==> key !in c[j].data
  }

  /** A hit moves to the back; a miss evicts the front; a failed key is refused and nothing moves. */
  ghost predicate LruRequest(c: Lru, key: Key, group: seq<Key>, s: Selection, d: Lru)
  {
    match s
    case Cached(k) => exists i: nat :: IsHit(c, key, i) && !c[i].failed && c[i].slot == k && d == c[..i] + c[i + 1..] + [c[i]]
    case Failed(k) => exists i: nat :: IsHit(c, key, i) && c[i].failed && c[i].slot == k && d == c
    case Evict(k) => IsMiss(c, key) && c != [] && c[0].slot == k && d == c[1..] + [Entry(k, group, false)]
    case Full => IsMiss(c, key) && c == [] && d == c
  }

  function Kept(c: Lru): Lru
  {
    if c == [] then []
    else (if c[0].data != [] && !c[0].failed then [c[0]] else []) + Kept(c[1..])
  }

  function SlotsOf(c: Lru): set<nat>
  {
    set i | 0 <= i < |c| :: c[i].slot
  }

  /**
   The failed groups are dropped: the unused slots come first, by number, then the others in their old order. The slots
   are the same.
   */
  ghost predicate LruClear(c: Lru, d: Lru)
  {
    var u := |c| - |Kept(c)|;
    SlotsOf(d) == SlotsOf(c) && |d| == |c| && u >= 0 && d[u..] == Kept(c) && (forall i :: 0 <= i < u ==> d[i] == Entry(d[i].slot, [], false)) &&
    forall i, j :: 0 <= i < j < u ==> d[i].slot < d[j].slot
  }

  ghost predicate LruMark(c: Lru, k: nat, d: Lru)
  {
    |d| == |c| && forall i :: 0 <= i < |c| ==> d[i] == if c[i].slot == k then c[i].(failed := true) else c[i]
  }

  // ----- the refinement -----

  predicate Older(slots: seq<KeyID>, a: nat, b: nat)
    requires a < |slots| && b < |slots|
  {
    slots[a].creationTime < slots[b].creationTime || (slots[a].creationTime == slots[b].creationTime && a < b)
  }

  /** order lists every slot once, by time stamp, equal stamps by slot number. */
  ghost predicate IsOrder(slots: seq<KeyID>, order: seq<nat>)
  {
    (forall i :: 0 <= i < |order| ==> order[i] < |slots|) &&
    (forall i, j :: 0 <= i < j < |order| ==> Older(slots, order[i], order[j])) &&
    (forall k: nat :: k < |slots| ==> k in order)
  }

  function Abs(slots: seq<KeyID>, order: seq<nat>): (c: Lru)
    requires forall i :: 0 <= i < |order| ==> order[i] < |slots|
    ensures |c| == |order|
    ensures forall i :: 0 <= i < |c| ==> c[i] == Entry(order[i], slots[order[i]].data, slots[order[i]].isFailedKeyId)
  {
    seq(|order|, i requires 0 <= i < |order| =>
      Entry(order[i], slots[order[i]].data, slots[order[i]].isFailedKeyId))
  }

  /** No stamp is ahead of the clock, none is negative, and only unused slots have stamp 0; no slot is primary. */
  predicate Timed(slots: seq<KeyID>, clock: int)
  {
    clock >= 0 && forall i :: 0 <= i < |slots| ==>
      0 <= slots[i].creationTime <= clock && (slots[i].creationTime == 0 <==> slots[i].data == []) &&
      !slots[i].isPrimaryKeyId
  }

  /** Unused slots fill first. */
  lemma UnusedFirst(slots: seq<KeyID>, clock: int, key: Key, k: nat)
    requires Timed(slots, clock) && k < |slots| && slots[k].data == [] && Select(slots, key).Evict?
    ensures slots[Select(slots, key).slot].data == []
  {
    assert FirstFree(slots, 0) == 0;
    var v := Oldest(slots, 0);
    assert slots[v].creationTime <= slots[k].creationTime;
  }

  lemma {:induction false} HitAgrees(slots: seq<KeyID>, order: seq<nat>, key: Key, p: nat)
    requires IsOrder(slots, order) && p < |order| && FirstWith(slots, key, 0) == order[p]
    ensures IsHit(Abs(slots, order), key, p)
  {
    var c := Abs(slots, order);
    assert HoldsAt(slots, order[p], key);
    forall j | 0 <= j < |c| && key in c[j].data
      ensures c[p].slot <= c[j].slot
    {
      assert HoldsAt(slots, order[j], key);
    }
  }

  lemma {:induction false} MissAgrees(slots: seq<KeyID>, order: seq<nat>, key: Key)
    requires IsOrder(slots, order) && FirstWith(slots, key, 0) == |slots|
    ensures IsMiss(Abs(slots, order), key)
  {
    var c := Abs(slots, order);
    forall j | 0 <= j < |c|
      ensures key !in c[j].data
    {
      assert !HoldsAt(slots, order[j], key);
    }
  }

  /** With no primary slot the scan finds the front of the list. */
  lemma {:induction false} OldestIsFront(slots: seq<KeyID>, order: seq<nat>)
    requires IsOrder(slots, order) && slots != []
    ensures order != [] && Oldest(slots, 0) == order[0]
  {
    var v := Oldest(slots, 0);
    assert v in order;
    var p :| 0 <= p < |order| && order[p] == v;
    var first := order[0];
    assert slots[v].creationTime <= slots[first].creationTime && (first < v ==> slots[v].creationTime < slots[first].creationTime);
    assert p == 0 || Older(slots, order[0], order[p]);
  }

  lemma Inside(slots: seq<KeyID>, order: seq<nat>)
    requires IsOrder(slots, order)
    ensures forall i :: 0 <= i < |order| ==> order[i] < |slots|
    ensures forall k: nat :: k < |slots| ==> k in order
  {
  }

  /** Restamping the slot at position p of the order moves it to the end. */
  lemma {:induction false} Restamp(slots: seq<KeyID>, order: seq<nat>, p: nat, k: KeyID)
    requires IsOrder(slots, order) && p < |order|
    requires forall i :: 0 <= i < |slots| ==> slots[i].creationTime < k.creationTime
    ensures var t, o := slots[order[p] := k], order[..p] + order[p + 1..] + [order[p]];
            IsOrder(t, o) &&
            Abs(t, o) == Abs(slots, order)[..p] + Abs(slots, order)[p + 1..] +
                         [Entry(order[p], k.data, k.isFailedKeyId)]
  {
    hide Older;
    var t, o := slots[order[p] := k], order[..p] + order[p + 1..] + [order[p]];
    Distinct(slots, order);
    RestampOrder(slots, order, p, k);
    forall m: nat | m < |t|
      ensures m in o
    {
      assert m in order;
      var q :| 0 <= q < |order| && order[q] == m;
      assert o[if q < p then q else if q == p then |o| - 1 else q - 1] == m;
    }
    assert Abs(t, o) == Abs(slots, order)[..p] + Abs(slots, order)[p + 1..] +
                        [Entry(order[p], k.data, k.isFailedKeyId)];
  }

  lemma {:induction false} RestampOrder(slots: seq<KeyID>, order: seq<nat>, p: nat, k: KeyID)
    requires IsOrder(slots, order) && p < |order|
    requires forall i :: 0 <= i < |slots| ==> slots[i].creationTime < k.creationTime
    ensures var t, o := slots[order[p] := k], order[..p] + order[p + 1..] + [order[p]];
            (forall i :: 0 <= i < |o| ==> o[i] < |t|) && forall i, j :: 0 <= i < j < |o| ==> Older(t, o[i], o[j])
  {
    var t, o := slots[order[p] := k], order[..p] + order[p + 1..] + [order[p]];
    Distinct(slots, order);
    forall i: nat, j: nat | i < j < |o|
      ensures Older(t, o[i], o[j])
    {
      var i', j' := if i < p then i else i + 1, if j < p then j else j + 1;
      if j < |o| - 1 {
        assert o[i] == order[i'] && o[j] == order[j'];
        assert Older(slots, order[i'], order[j']);
      }
    }
  }

  lemma {:induction false} Distinct(slots: seq<KeyID>, order: seq<nat>)
    requires IsOrder(slots, order)
    ensures forall i, j :: 0 <= i < |order| && 0 <= j < |order| && order[i] == order[j] ==> i == j
  {
    forall i: nat, j: nat | i < |order| && j < |order| && i != j
      ensures order[i] != order[j]
    {
      if i < j {
        assert Older(slots, order[i], order[j]);
      } else {
        assert Older(slots, order[j], order[i]);
      }
    }
  }

  lemma {:induction false} HitRefines(slots: seq<KeyID>, order: seq<nat>, key: Key, group: seq<Key>, now: int)
    returns (next: seq<nat>)
    requires IsOrder(slots, order) && FirstWith(slots, key, 0) < |slots|
    requires forall i :: 0 <= i < |slots| ==> slots[i].creationTime < now
    ensures var s := Select(slots, key);
            var t := Stamped(slots, s, group, now, false);
            IsOrder(t, next) && LruRequest(Abs(slots, order), key, group, s, Abs(t, next))
  {
    hide IsOrder, Older, IsHit, IsMiss, Abs;
    Inside(slots, order);
    var c, i := Abs(slots, order), FirstWith(slots, key, 0);
    assert i in order;
    var p :| 0 <= p < |order| && order[p] == i;
    HitAgrees(slots, order, key, p);
    next := order;
    if !slots[i].isFailedKeyId {
      next := order[..p] + order[p + 1..] + [order[p]];
      Restamp(slots, order, p, slots[i].(creationTime := now, isPrimaryKeyId := false));
    }
  }

  lemma {:induction false} MissRefines(slots: seq<KeyID>, order: seq<nat>, key: Key, group: seq<Key>, now: int)
    returns (next: seq<nat>)
    requires IsOrder(slots, order) && FirstWith(slots, key, 0) == |slots|
    requires forall i :: 0 <= i < |slots| ==> slots[i].creationTime < now && !slots[i].isPrimaryKeyId
    ensures var s := Select(slots, key);
            var t := Stamped(slots, s, group, now, false);
            IsOrder(t, next) && LruRequest(Abs(slots, order), key, group, s, Abs(t, next))
  {
    hide IsOrder, Older, IsHit, IsMiss, Abs;
    Inside(slots, order);
    var c := Abs(slots, order);
    MissAgrees(slots, order, key);
    next := order;
    if slots != [] {
      OldestIsFront(slots, order);
      next := order[..0] + order[0 + 1..] + [order[0]];
      Restamp(slots, order, 0, KeyID(group, now, false, false));
      assert c[..0] + c[0 + 1..] == c[1..];
    } else {
      OrderLength(slots, order);
    }
  }

  lemma StampedTimed(slots: seq<KeyID>, clock: int, key: Key, group: seq<Key>, now: int)
    requires Timed(slots, clock) && clock < now && group != []
    ensures Timed(Stamped(slots, Select(slots, key), group, now, false), now)
  {
    var i := FirstWith(slots, key, 0);
    assert i < |slots| ==> HoldsAt(slots, i, key);
  }

  /** One request: the slots do what the list does. */
  lemma {:induction false} RequestRefines(slots: seq<KeyID>, order: seq<nat>, clock: int, key: Key, group: seq<Key>, now: int)
    returns (next: seq<nat>)
    requires Timed(slots, clock) && clock < now && IsOrder(slots, order) && group != []
    ensures var s := Select(slots, key);
            var t := Stamped(slots, s, group, now, false);
            Timed(t, now) && IsOrder(t, next) && LruRequest(Abs(slots, order), key, group, s, Abs(t, next))
  {
    hide IsOrder, Abs, LruRequest, Select, Stamped;
    StampedTimed(slots, clock, key, group, now);
    if FirstWith(slots, key, 0) < |slots| {
      next := HitRefines(slots, order, key, group, now);
    } else {
      next := MissRefines(slots, order, key, group, now);
    }
  }

  // ----- the other operations -----

  lemma {:induction false} MarkRefines(slots: seq<KeyID>, order: seq<nat>, clock: int, k: nat)
    requires Timed(slots, clock) && IsOrder(slots, order) && k < |slots|
    ensures var t := MarkedFailed(slots, k);
            Timed(t, clock) && IsOrder(t, order) && LruMark(Abs(slots, order), k, Abs(t, order))
  {
    var t := MarkedFailed(slots, k);
    forall i: nat, j: nat | i < j < |order|
      ensures Older(t, order[i], order[j])
    {
      assert Older(slots, order[i], order[j]);
    }
  }

  predicate Stays(slots: seq<KeyID>, k: nat)
  {
    k < |slots| && slots[k].data != [] && !slots[k].isFailedKeyId
  }

  /** The unused and failed slots from n on, by number. */
  function Dropped(slots: seq<KeyID>, n: nat): seq<nat>
    requires n <= |slots|
    decreases |slots| - n
  {
    if n == |slots| then []
    else (if Stays(slots, n) then [] else [n]) + Dropped(slots, n + 1)
  }

  function Remaining(slots: seq<KeyID>, order: seq<nat>): seq<nat>
  {
    if order == [] then [] else (if Stays(slots, order[0]) then [order[0]] else []) + Remaining(slots, order[1..])
  }

  ghost predicate Ascending(q: seq<nat>)
  {
    forall i, j :: 0 <= i < j < |q| ==> q[i] < q[j]
  }

  lemma {:induction false} DroppedList(slots: seq<KeyID>, n: nat)
    requires n <= |slots|
    ensures forall k :: k in Dropped(slots, n) <==> n <= k < |slots| && !Stays(slots, k)
    ensures Ascending(Dropped(slots, n))
    decreases |slots| - n
  {
    hide Stays, Ascending;
    if n == |slots| {
      AscendingCons([], n);
    } else {
      DroppedList(slots, n + 1);
      var rest := Dropped(slots, n + 1);
      AscendingCons(rest, n);
      assert Dropped(slots, n) == if Stays(slots, n) then rest else [n] + rest;
    }
  }

  lemma AscendingCons(q: seq<nat>, n: nat)
    requires Ascending(q) && forall k :: k in q ==> n < k
    ensures Ascending([n] + q) && Ascending([])
  {
    assert forall i :: 0 <= i < |q| ==> q[i] in q;
  }

  lemma {:induction false} RemainingIn(slots: seq<KeyID>, order: seq<nat>)
    ensures forall k :: k in Remaining(slots, order) <==> k in order && Stays(slots, k)
  {
    hide Stays;
    if order != [] {
      RemainingIn(slots, order[1..]);
      assert order == [order[0]] + order[1..];
    }
  }

  lemma {:induction false} RemainingList(slots: seq<KeyID>, order: seq<nat>)
    requires forall i :: 0 <= i < |order| ==> order[i] < |slots|
    requires forall i, j :: 0 <= i < j < |order| ==> Older(slots, order[i], order[j])
    ensures var r := Remaining(slots, order);
            (forall k: nat :: k in r <==> k in order && Stays(slots, k)) &&
            (forall i :: 0 <= i < |r| ==> r[i] < |slots| && Stays(slots, r[i])) &&
            (forall i, j :: 0 <= i < j < |r| ==> Older(slots, r[i], r[j]))
  {
    hide Stays, Older;
    RemainingIn(slots, order);
    var r := Remaining(slots, order);
    assert forall i :: 0 <= i < |r| ==> r[i] in r;
    if order != [] {
      var rest := Remaining(slots, order[1..]);
      RemainingList(slots, order[1..]);
      forall j: nat | j < |rest|
        ensures Older(slots, order[0], rest[j])
      {
        assert rest[j] in order[1..];
        var q :| 0 < q < |order| && order[q] == rest[j];
        assert Older(slots, order[0], order[q]);
      }
      assert r == (if Stays(slots, order[0]) then [order[0]] else []) + rest;
    }
  }

  lemma {:induction false} RemainingAbs(slots: seq<KeyID>, order: seq<nat>)
    requires forall i :: 0 <= i < |order| ==> order[i] < |slots|
    ensures forall i :: 0 <= i < |Remaining(slots, order)| ==> Remaining(slots, order)[i] < |slots|
    ensures Abs(slots, Remaining(slots, order)) == Kept(Abs(slots, order))
  {
    if order != [] {
      var rest := Remaining(slots, order[1..]);
      RemainingAbs(slots, order[1..]);
      var c := Abs(slots, order);
      assert c[1..] == Abs(slots, order[1..]);
      if Stays(slots, order[0]) {
        assert Abs(slots, [order[0]] + rest) == [c[0]] + Abs(slots, rest);
      }
    }
  }

  function Elements(q: seq<nat>): set<nat>
  {
    set k | k in q
  }

  lemma {:induction false} DistinctCount(q: seq<nat>)
    requires forall i, j :: 0 <= i < j < |q| ==> q[i] != q[j]
    ensures |Elements(q)| == |q|
  {
    if q != [] {
      DistinctCount(q[1..]);
      assert q[0] !in Elements(q[1..]);
      assert Elements(q) == Elements(q[1..]) + {q[0]};
    }
  }

  function UpTo(n: nat): (s: set<nat>)
    ensures |s| == n && forall k: nat :: k in s <==> k < n
  {
    if n == 0 then {} else UpTo(n - 1) + {n - 1}
  }

  lemma {:induction false} OrderLength(slots: seq<KeyID>, order: seq<nat>)
    requires IsOrder(slots, order)
    ensures |order| == |slots|
  {
    Distinct(slots, order);
    DistinctCount(order);
    assert Elements(order) == UpTo(|slots|);
  }

  lemma ClearedTime(slots: seq<KeyID>, clock: int, k: nat)
    requires Timed(slots, clock) && k < |slots|
    ensures Cleared(slots)[k].creationTime == if Stays(slots, k) then slots[k].creationTime else 0
    ensures Stays(slots, k) ==> slots[k].creationTime > 0
  {
  }

  lemma {:induction false} ClearedOrder(slots: seq<KeyID>, order: seq<nat>, clock: int)
    requires Timed(slots, clock) && IsOrder(slots, order)
    ensures Timed(Cleared(slots), clock) && IsOrder(Cleared(slots), Dropped(slots, 0) + Remaining(slots, order))
  {
    hide Dropped, Remaining;
    var t, d, r := Cleared(slots), Dropped(slots, 0), Remaining(slots, order);
    DroppedList(slots, 0);
    RemainingList(slots, order);
    var o := d + r;
    forall i: nat | i < |o|
      ensures o[i] < |slots| && (i < |d| <==> !Stays(slots, o[i]))
    {
      if i < |d| {
        assert o[i] == d[i] && d[i] in d;
      } else {
        var k := r[i - |d|];
        assert o[i] == k && Stays(slots, k);
      }
    }
    forall i: nat, j: nat | i < j < |o|
      ensures Older(t, o[i], o[j])
    {
      ClearedTime(slots, clock, o[i]);
      ClearedTime(slots, clock, o[j]);
      if i >= |d| {
        assert Older(slots, r[i - |d|], r[j - |d|]);
      } else if j < |d| {
        assert d[i] < d[j];
      }
    }
    forall k: nat | k < |slots|
      ensures k in o
    {
      assert k in order;
    }
  }

  lemma {:induction false} ClearRefines(slots: seq<KeyID>, order: seq<nat>, clock: int) returns (next: seq<nat>)
    requires Timed(slots, clock) && IsOrder(slots, order)
    ensures var t := Cleared(slots);
            Timed(t, clock) && IsOrder(t, next) && LruClear(Abs(slots, order), Abs(t, next))
  {
    hide Dropped, Remaining, Stays, Older, Cleared, Timed, Kept, SlotsOf, UpTo;
    var t, d, r := Cleared(slots), Dropped(slots, 0), Remaining(slots, order);
    next := d + r;
    ClearedOrder(slots, order, clock);
    DroppedList(slots, 0);
    RemainingList(slots, order);
    RemainingAbs(slots, order);
    OrderLength(slots, order);
    OrderLength(t, next);
    ClearedAbs(slots, order, d, r);
    AllSlots(slots, order);
    AllSlots(t, next);
  }

  /** The list of an order names every slot. */
  lemma {:induction false} AllSlots(slots: seq<KeyID>, order: seq<nat>)
    requires IsOrder(slots, order)
    ensures SlotsOf(Abs(slots, order)) == UpTo(|slots|)
  {
    hide Older;
    var c := Abs(slots, order);
    forall k: nat | k < |slots|
      ensures k in SlotsOf(c)
    {
      assert k in order;
      var i :| 0 <= i < |order| && order[i] == k;
      assert c[i].slot == k;
    }
  }

  lemma ClearedEntry(slots: seq<KeyID>, k: nat)
    requires k < |slots|
    ensures var e := Cleared(slots)[k];
            !e.isFailedKeyId && e.data == if Stays(slots, k) then slots[k].data else []
    ensures Stays(slots, k) ==> !slots[k].isFailedKeyId
  {
  }

  lemma {:induction false} ClearedAbs(slots: seq<KeyID>, order: seq<nat>, d: seq<nat>, r: seq<nat>)
    requires forall k :: k in d ==> k < |slots| && !Stays(slots, k)
    requires forall i :: 0 <= i < |r| ==> r[i] < |slots| && Stays(slots, r[i])
    ensures forall i :: 0 <= i < |d + r| ==> (d + r)[i] < |slots|
    ensures var c := Abs(Cleared(slots), d + r);
            c[|d|..] == Abs(slots, r) && forall i :: 0 <= i < |d| ==> c[i] == Entry(d[i], [], false)
  {
    hide Stays, Cleared;
    forall i: nat | i < |d + r|
      ensures (d + r)[i] < |slots| && (i < |d| ==> !Stays(slots, (d + r)[i]))
    {
      if i < |d| {
        assert d[i] in d;
      }
    }
    var t := Cleared(slots);
    var c := Abs(t, d + r);
    forall i: nat | i < |d + r|
      ensures c[i] == if i < |d| then Entry(d[i], [], false) else Abs(slots, r)[i - |d|]
    {
      ClearedEntry(slots, (d + r)[i]);
    }
    assert c[|d|..] == Abs(slots, r);
  }

  // ----- whole runs -----

  /** A request, the failure of the session in a slot, or the clearing of failed keys. */
  datatype Op = Request(key: Key, keys: seq<Key>, now: int) | Fail(slot: nat) | ClearFailed

  function After(slots: seq<KeyID>, op: Op): (t: seq<KeyID>)
    ensures |t| == |slots|
  {
    match op
    case Request(key, keys, now) => Stamped(slots, Select(slots, key), Group(key, keys), now, false)
    case Fail(k) => if k < |slots| then MarkedFailed(slots, k) else slots
    case ClearFailed => Cleared(slots)
  }

  function Clock(clock: int, op: Op): int
  {
    if op.Request? then op.now else clock
  }

  function AfterAll(slots: seq<KeyID>, ops: seq<Op>): (t: seq<KeyID>)
    ensures |t| == |slots|
    decreases |ops|
  {
    if ops == [] then slots else AfterAll(After(slots, ops[0]), ops[1..])
  }

  predicate Ticks(clock: int, ops: seq<Op>)
    decreases |ops|
  {
    ops == [] || ((ops[0].Request? ==> clock < ops[0].now) && Ticks(Clock(clock, ops[0]), ops[1..]))
  }

  /** What the list does on one operation when the slots make the selection s (which only a request makes). */
  ghost predicate LruStep(c: Lru, op: Op, s: Selection, d: Lru)
  {
    match op
    case Request(key, keys, now) => LruRequest(c, key, Group(key, keys), s, d)
    case Fail(k) => LruMark(c, k, d)
    case ClearFailed => LruClear(c, d)
  }

  function Selected(slots: seq<KeyID>, op: Op): Selection
  {
    if op.Request? then Select(slots, op.key) else Full
  }

  /** The selections the slots make along a run. */
  function Selections(slots: seq<KeyID>, ops: seq<Op>): seq<Selection>
    decreases |ops|
  {
    if ops == [] then [] else [Selected(slots, ops[0])] + Selections(After(slots, ops[0]), ops[1..])
  }

  /** The list goes from c to d on the operations, with these selections. */
  ghost predicate LruRun(c: Lru, ops: seq<Op>, out: seq<Selection>, d: Lru)
    decreases |ops|
  {
    if ops == [] then out == [] && c == d
    else out != [] && exists e :: LruStep(c, ops[0], out[0], e) && LruRun(e, ops[1..], out[1..], d)
  }

  lemma {:induction false} StepRefines(slots: seq<KeyID>, order: seq<nat>, clock: int, op: Op) returns (next: seq<nat>)
    requires Timed(slots, clock) && IsOrder(slots, order) && (op.Request? ==> clock < op.now)
    ensures Timed(After(slots, op), Clock(clock, op)) && IsOrder(After(slots, op), next)
    ensures LruStep(Abs(slots, order), op, Selected(slots, op), Abs(After(slots, op), next))
  {
    hide IsOrder, Abs, LruRequest, LruClear, LruMark, Timed, Select, Stamped, Cleared, MarkedFailed;
    match op
    case Request(key, keys, now) => next := RequestRefines(slots, order, clock, key, Group(key, keys), now);
    case Fail(k) =>
      next := order;
      if k < |slots| {
        MarkRefines(slots, order, clock, k);
      } else {
        NothingToMark(slots, order, k);
      }
    case ClearFailed => next := ClearRefines(slots, order, clock);
  }

  lemma NothingToMark(slots: seq<KeyID>, order: seq<nat>, k: nat)
    requires IsOrder(slots, order) && k >= |slots|
    ensures LruMark(Abs(slots, order), k, Abs(slots, order))
  {
  }

  /**
   The refinement: for every sequence of requests, failures and clearings, with a clock that advances from request
   to request and no primary session, the slots select what a least-recently-used list selects.
   */
  lemma {:induction false} RunRefines(slots: seq<KeyID>, order: seq<nat>, clock: int, ops: seq<Op>) returns (last: seq<nat>)
    requires Timed(slots, clock) && IsOrder(slots, order) && Ticks(clock, ops)
    ensures IsOrder(AfterAll(slots, ops), last)
    ensures LruRun(Abs(slots, order), ops, Selections(slots, ops), Abs(AfterAll(slots, ops), last))
    decreases |ops|
  {
    hide IsOrder, Abs, LruStep, Timed, After;
    if ops == [] {
      last := order;
    } else {
      var next := StepRefines(slots, order, clock, ops[0]);
      last := RunRefines(After(slots, ops[0]), next, Clock(clock, ops[0]), ops[1..]);
      var out := Selections(slots, ops);
      assert out[0] == Selected(slots, ops[0]) && out[1..] == Selections(After(slots, ops[0]), ops[1..]);
    }
  }

  /** A new manager: every slot unused, so the list is the slots in their order. */
  lemma {:induction false} NewManager(slots: seq<KeyID>) returns (order: seq<nat>)
    requires forall i :: 0 <= i < |slots| ==> slots[i] == EMPTY_SLOT
    ensures Timed(slots, 0) && IsOrder(slots, order)
    ensures |order| == |slots| && forall i :: 0 <= i < |slots| ==> order[i] == i && Abs(slots, order)[i] == Entry(i, [], false)
  {
    order := seq(|slots|, i => i);
    forall k: nat | k < |slots|
      ensures k in order
    {
      assert order[k] == k;
    }
  }

  // ----- failed keys, and primary slots -----

  /** A failed slot stays failed, with its group, until it is evicted or failed keys are cleared; its keys are refused. */
  lemma {:induction false} FailedUntilEvicted(slots: seq<KeyID>, ops: seq<Op>, k: nat, key: Key)
    requires k < |slots| && slots[k].isFailedKeyId && ClearFailed !in ops && Evict(k) !in Selections(slots, ops)
    ensures var t := AfterAll(slots, ops);
            t[k].isFailedKeyId && t[k].data == slots[k].data &&
            (IsFirstWith(t, key, k) ==> Select(t, key) == Failed(k))
    decreases |ops|
  {
    if ops == [] {
      if IsFirstWith(slots, key, k) {
        FirstIsUnique(slots, key, k);
      }
    } else {
      var t, out := After(slots, ops[0]), Selections(slots, ops);
      assert ops[0] in ops && out[0] in out;
      assert t[k].isFailedKeyId && t[k].data == slots[k].data;
      forall s | s in Selections(t, ops[1..])
        ensures s in out
      {
        assert out == [out[0]] + Selections(t, ops[1..]);
      }
      FailedUntilEvicted(t, ops[1..], k, key);
    }
  }

  lemma FirstIsUnique(slots: seq<KeyID>, key: Key, k: nat)
    requires k < |slots| && IsFirstWith(slots, key, k)
    ensures FirstWith(slots, key, 0) == k
  {
  }

  /**
   A primary slot p is not safe: a miss evicts it exactly when a slot before it is free and p is the oldest from
   the first free slot on (leftmost among equals).
   */
  lemma {:induction false} PrimaryEvictedIff(slots: seq<KeyID>, key: Key, p: nat)
    requires p < |slots| && slots[p].isPrimaryKeyId && FirstWith(slots, key, 0) == |slots|
    ensures Select(slots, key) == Evict(p) <==>
            FirstFree(slots, 0) < p && IsOldestFrom(slots, FirstFree(slots, 0), p)
  {
    var f := FirstFree(slots, 0);
    if f < |slots| && IsOldestFrom(slots, f, p) {
      OldestUnique(slots, f, p, Oldest(slots, f));
    }
  }

  lemma PrimaryCanBeEvicted()
    ensures var slots := [KeyID([[1]], 5, false, false), KeyID([[2]], 1, false, true)];
            slots[1].isPrimaryKeyId && Select(slots, [3]) == Evict(1)
  {
    var slots := [KeyID([[1]], 5, false, false), KeyID([[2]], 1, false, true)];
    assert !HoldsAt(slots, 0, [3]) && !HoldsAt(slots, 1, [3]);
    assert FirstFree(slots, 0) == 0 && slots[1].creationTime < slots[0].creationTime;
  }
}
