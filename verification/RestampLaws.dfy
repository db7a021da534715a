/**
 What the two MP4 walkers promise together: restamping moves the times the demuxer reports and
 nothing else, touches only the time field, and acts as a group on fragments with one tfdt.
 */
module RestampLaws {
  import opened Bytes
  import opened Boxes
  import opened Mp4Demux
  import opened Restamp

  /** The tfdt boxes the restamping walk can reach, through containers it descends into. */
  function Reachable(bs: seq<Box>): nat
    decreases bs
  {
    if bs == [] then 0
    else
      var head: nat := match bs[0]
        case Plain(l) => if l.Tfdt? then 1 else 0
        case Container(kind, _, children) => if PureContainer(kind) then Reachable(children) else 0;
      head + Reachable(bs[1..])
  }

  /** All tfdt boxes, including those only the demuxer descends to. */
  function Tfdts(bs: seq<Box>): nat
    decreases bs
  {
    if bs == [] then 0
    else
      var head: nat := match bs[0]
        case Plain(l) => if l.Tfdt? then 1 else 0
        case Container(_, _, children) => Tfdts(children);
      head + Tfdts(bs[1..])
  }

  predicate OneTfdt(bs: seq<Box>)
  {
    Reachable(bs) == 1 && Tfdts(bs) == 1
  }

  /** Whether the walk finds its tfdt in the first box. */
  predicate InHead(bs: seq<Box>)
    requires bs != []
  {
    match bs[0]
    case Plain(l) => l.Tfdt?
    case Container(kind, _, children) => PureContainer(kind) && Reachable(children) > 0
  }

  /** The first tfdt the walk reaches. */
  function FirstTfdt(bs: seq<Box>): (l: Leaf)
    requires Reachable(bs) > 0
    ensures l.Tfdt?
    decreases bs
  {
    if !InHead(bs) then FirstTfdt(bs[1..])
    else if bs[0].Plain? then bs[0].leaf
    else FirstTfdt(bs[0].children)
  }

  // ----- the walk without a tfdt, and its effect on well-formedness -----

  lemma {:induction false} NothingToStamp(bs: seq<Box>, delta: int)
    requires Reachable(bs) == 0
    ensures RestampAll(bs, delta) == bs && Reported(bs, delta) == 0
    decreases bs
  {
    if bs != [] {
      NothingToStamp(bs[1..], delta);
      if bs[0].Container? && PureContainer(bs[0].kind) {
        NothingToStamp(bs[0].children, delta);
      }
    }
  }

  /** One tfdt: the walk rewrites the head it is in, or goes on. */
  lemma {:induction false} OneStep(bs: seq<Box>, delta: int)
    requires Reachable(bs) == 1
    ensures InHead(bs) ==> Reachable(bs[1..]) == 0 && RestampAll(bs, delta) == [RestampHead(bs[0], delta)] + bs[1..]
    ensures InHead(bs) && bs[0].Container? ==> Reachable(bs[0].children) == 1
    ensures !InHead(bs) ==> Reachable(bs[1..]) == 1 && RestampAll(bs, delta) == [bs[0]] + RestampAll(bs[1..], delta)
  {
    NothingToStampRest(bs, delta);
    if bs[0].Container? && PureContainer(bs[0].kind) && !InHead(bs) {
      NothingToStamp(bs[0].children, delta);
    }
  }

  lemma NothingToStampRest(bs: seq<Box>, delta: int)
    requires bs != []
    ensures Reachable(bs[1..]) == 0 ==> RestampAll(bs[1..], delta) == bs[1..]
  {
    if Reachable(bs[1..]) == 0 {
      NothingToStamp(bs[1..], delta);
    }
  }

  // ----- group action -----

  /** Restamping keeps the shape of the tree, so it can be restamped again. */
  lemma {:induction false} StampedShape(bs: seq<Box>, delta: int)
    requires Reachable(bs) == 1
    ensures Reachable(RestampAll(bs, delta)) == 1
    ensures FirstTfdt(RestampAll(bs, delta)) == Stamp(FirstTfdt(bs), delta)
    ensures InHead(RestampAll(bs, delta)) == InHead(bs)
    decreases bs
  {
    OneStep(bs, delta);
    var after := RestampAll(bs, delta);
    if InHead(bs) {
      assert after[0] == RestampHead(bs[0], delta) && after[1..] == bs[1..];
      if bs[0].Container? {
        StampedShape(bs[0].children, delta);
      }
    } else {
      assert after[0] == bs[0] && after[1..] == RestampAll(bs[1..], delta);
      StampedShape(bs[1..], delta);
    }
  }

  lemma AddModWidth(t: int, a: int, b: int, p: int)
    requires p == TWO32 || p == TWO64
    ensures ((t + a) % p + b) % p == (t + (a + b)) % p
  {
  }

  lemma WidthValues(version: byte)
    ensures Pow256(TimeWidth(version)) == if version == 1 then TWO64 else TWO32
  {
    Widths();
  }

  /** Adjusting by a and then by b is adjusting by a + b. */
  lemma {:induction false} RestampAdds(bs: seq<Box>, a: int, b: int)
    requires Reachable(bs) == 1
    ensures RestampAll(RestampAll(bs, a), b) == RestampAll(bs, a + b)
    decreases bs
  {
    hide Pow256;
    var once := RestampAll(bs, a);
    OneStep(bs, a);
    OneStep(bs, a + b);
    StampedShape(bs, a);
    OneStep(once, b);
    if InHead(bs) {
      assert once[0] == RestampHead(bs[0], a) && once[1..] == bs[1..];
      if bs[0].Plain? {
        var l := bs[0].leaf;
        WidthValues(l.version);
        AddModWidth(l.time, a, b, Pow256(TimeWidth(l.version)));
      } else {
        RestampAdds(bs[0].children, a, b);
      }
    } else {
      assert once[0] == bs[0] && once[1..] == RestampAll(bs[1..], a);
      RestampAdds(bs[1..], a, b);
    }
  }

  lemma {:induction false} RestampZero(bs: seq<Box>)
    requires Reachable(bs) == 1 && WellFormedAll(bs)
    ensures RestampAll(bs, 0) == bs
    decreases bs
  {
    hide Pow256, Size;
    OneStep(bs, 0);
    if InHead(bs) {
      if bs[0].Plain? {
        assert bs[0].leaf.time % Pow256(TimeWidth(bs[0].leaf.version)) == bs[0].leaf.time;
      } else {
        RestampZero(bs[0].children);
      }
      assert RestampHead(bs[0], 0) == bs[0];
    } else {
      RestampZero(bs[1..]);
    }
  }

  /** Adjusting by delta and then by -delta restores the fragment. */
  lemma {:induction false} RestampUndone(bs: seq<Box>, delta: int)
    requires Reachable(bs) == 1 && WellFormedAll(bs)
    ensures RestampAll(RestampAll(bs, delta), -delta) == bs
    ensures SerAll(RestampAll(RestampAll(bs, delta), -delta)) == SerAll(bs)
  {
    RestampAdds(bs, delta, -delta);
    assert delta + -delta == 0;
    RestampZero(bs);
  }

  /** Two track fragments, the first starting at time 5 and the second at 7. */
  function TwoTracks(first: nat, second: nat): seq<Box>
  {
    [Container(TRAF, [], [Plain(Tfdt(1, 0, first, []))]), Container(TRAF, [], [Plain(Tfdt(1, 0, second, []))])]
  }

  /**
   With several tfdt boxes the inverse law fails: adjusting by -5 makes the first time 0, so the walk
   goes on to the second, but adjusting by 5 stops at the first.
   */
  lemma {:induction false} TwoTracksNotUndone()
    ensures RestampAll(TwoTracks(5, 7), -5) == TwoTracks(0, 2)
    ensures RestampAll(TwoTracks(0, 2), 5) == TwoTracks(5, 2) != TwoTracks(5, 7)
  {
    TwoTracksStep(5, 7, -5);
    TwoTracksStep(0, 2, 5);
    assert TwoTracks(5, 2)[1].children[0].leaf.time == 2;
    assert TwoTracks(5, 7)[1].children[0].leaf.time == 7;
  }

  lemma {:induction false} TwoTracksStep(first: nat, second: nat, delta: int)
    requires 0 <= first + delta < TWO64 && 0 <= second + delta < TWO64
    ensures RestampAll(TwoTracks(first, second), delta) ==
            TwoTracks(first + delta, if first + delta == 0 then second + delta else second)
  {
    Widths();
    var bs := TwoTracks(first, second);
    var c0, c1 := bs[0].children, bs[1].children;
    assert RestampAll(c0, delta) == [Plain(Stamp(c0[0].leaf, delta))] + c0[1..] == [Plain(Tfdt(1, 0, first + delta, []))];
    assert RestampAll(c1, delta) == [Plain(Stamp(c1[0].leaf, delta))] + c1[1..] == [Plain(Tfdt(1, 0, second + delta, []))];
    assert Reported(c0, delta) == first + delta;
    var rest := bs[1..];
    assert rest == [bs[1]] && rest[1..] == [];
    assert RestampAll([], delta) == [];
    assert RestampAll(rest, delta) == [Container(TRAF, [], RestampAll(c1, delta))];
  }

  // ----- exactly when the inverse holds -----

  /** The tfdt boxes the walk comes to while every time it reports is 0; a tfdt ends the list it is in. */
  function Candidates(bs: seq<Box>): nat
    decreases bs
  {
    if bs == [] then 0
    else match bs[0]
      case Plain(l) => if l.Tfdt? then 1 else Candidates(bs[1..])
      case Container(kind, _, children) =>
        (if PureContainer(kind) then Candidates(children) else 0) + Candidates(bs[1..])
  }

  function First(bs: seq<Box>): (l: Leaf)
    requires Candidates(bs) >= 1
    ensures l.Tfdt?
    decreases bs
  {
    match bs[0]
    case Plain(l) => if l.Tfdt? then l else First(bs[1..])
    case Container(kind, _, children) =>
      if PureContainer(kind) && Candidates(children) >= 1 then First(children) else First(bs[1..])
  }

  function Second(bs: seq<Box>): (l: Leaf)
    requires Candidates(bs) >= 2
    ensures l.Tfdt?
    decreases bs
  {
    match bs[0]
    case Plain(l) => Second(bs[1..])
    case Container(kind, _, children) =>
      var n := if PureContainer(kind) then Candidates(children) else 0;
      if n >= 2 then Second(children) else if n == 1 then First(bs[1..]) else Second(bs[1..])
  }

  /** The walk stops at this tfdt: the time it reports is not 0. */
  predicate Stops(l: Leaf, delta: int)
    requires l.Tfdt?
  {
    (l.time + delta) % TWO64 != 0
  }

  lemma {:induction false} NoCandidate(bs: seq<Box>, delta: int)
    requires Candidates(bs) == 0
    ensures RestampAll(bs, delta) == bs && Reported(bs, delta) == 0
    decreases bs
  {
    if bs != [] {
      NoCandidate(bs[1..], delta);
      if bs[0].Container? && PureContainer(bs[0].kind) {
        NoCandidate(bs[0].children, delta);
      }
    }
  }

  /** The walk in a pure container at the head: what it makes of the list. */
  lemma WalkContainer(bs: seq<Box>, delta: int)
    requires bs != [] && bs[0].Container? && PureContainer(bs[0].kind)
    ensures var c, after := bs[0].children, RestampAll(bs, delta);
            after != [] && after[0] == Container(bs[0].kind, bs[0].prelude, RestampAll(c, delta)) &&
            after[1..] == (if Reported(c, delta) != 0 then bs[1..] else RestampAll(bs[1..], delta)) &&
            Reported(bs, delta) == if Reported(c, delta) != 0 then Reported(c, delta) else Reported(bs[1..], delta)
  {
  }

  /** And at any other head. */
  lemma WalkPlain(bs: seq<Box>, delta: int)
    requires bs != [] && !(bs[0].Container? && PureContainer(bs[0].kind))
    ensures bs[0].Plain? && bs[0].leaf.Tfdt? ==>
            Stamp(bs[0].leaf, delta).Tfdt? &&
            RestampAll(bs, delta) == [Plain(Stamp(bs[0].leaf, delta))] + bs[1..] != [] &&
            Reported(bs, delta) == (bs[0].leaf.time + delta) % TWO64
    ensures !(bs[0].Plain? && bs[0].leaf.Tfdt?) ==>
            RestampAll(bs, delta) == [bs[0]] + RestampAll(bs[1..], delta) &&
            Reported(bs, delta) == Reported(bs[1..], delta)
  {
  }

  /** What one walk does to the first two candidates. */
  lemma {:induction false} WalkEffect(bs: seq<Box>, delta: int)
    ensures Candidates(RestampAll(bs, delta)) == Candidates(bs)
    ensures Candidates(bs) >= 1 ==>
            First(RestampAll(bs, delta)) == Stamp(First(bs), delta) &&
            (Stops(First(bs), delta) ==> Reported(bs, delta) != 0) &&
            (Candidates(bs) == 1 && !Stops(First(bs), delta) ==> Reported(bs, delta) == 0)
    ensures Candidates(bs) >= 2 ==>
            Second(RestampAll(bs, delta)) ==
            if Stops(First(bs), delta) then Second(bs) else Stamp(Second(bs), delta)
    decreases bs
  {
    hide Stamp, RestampAll, Reported;
    if bs == [] {
      NoCandidate(bs, delta);
    } else {
      WalkEffect(bs[1..], delta);
      var after := RestampAll(bs, delta);
      if bs[0].Container? && PureContainer(bs[0].kind) {
        WalkContainer(bs, delta);
        WalkEffect(bs[0].children, delta);
        if Candidates(bs[0].children) == 0 {
          NoCandidate(bs[0].children, delta);
        }
        if Candidates(bs[1..]) == 0 {
          NoCandidate(bs[1..], delta);
        }
      } else {
        WalkPlain(bs, delta);
        assert after == [after[0]] + after[1..];
        assert after[1..] == if bs[0].Plain? && bs[0].leaf.Tfdt? then bs[1..] else RestampAll(bs[1..], delta);
      }
    }
  }

  lemma {:induction false} StampUndone(l: Leaf, delta: int)
    requires l.Tfdt? && WellFormedLeaf(l)
    ensures Stamp(Stamp(l, delta), -delta) == l
  {
    hide Pow256;
    WidthValues(l.version);
    var p := Pow256(TimeWidth(l.version));
    AddModWidth(l.time, delta, -delta, p);
    assert delta + -delta == 0 && l.time % p == l.time;
  }

  /** Stamping changes the stored time unless delta is a multiple of what the field can hold. */
  lemma {:induction false} StampMoves(l: Leaf, delta: int)
    requires l.Tfdt? && WellFormedLeaf(l)
    ensures Stamp(l, delta) != l <==> delta % Pow256(TimeWidth(l.version)) != 0
  {
    hide Pow256;
    WidthValues(l.version);
    SameResidue(l.time, delta, Pow256(TimeWidth(l.version)));
  }

  lemma SameResidue(t: nat, delta: int, p: int)
    requires (p == TWO32 || p == TWO64) && t < p
    ensures (t + delta) % p == t <==> delta % p == 0
  {
  }

  /** The walk stops at this tfdt and leaves it as it is. */
  predicate Inert(l: Leaf, delta: int)
    requires l.Tfdt?
  {
    Stops(l, delta) && Stamp(l, delta) == l
  }

  /** bs with its first candidate stamped. */
  function StampFirst(bs: seq<Box>, delta: int): seq<Box>
    requires Candidates(bs) >= 1
    decreases bs
  {
    match bs[0]
    case Plain(l) => [if l.Tfdt? then Plain(Stamp(l, delta)) else bs[0]] + (if l.Tfdt? then bs[1..] else StampFirst(bs[1..], delta))
    case Container(kind, prelude, children) =>
      if PureContainer(kind) && Candidates(children) >= 1
      then [Container(kind, prelude, StampFirst(children, delta))] + bs[1..]
      else [bs[0]] + StampFirst(bs[1..], delta)
  }

  lemma {:induction false} StampFirstEffect(bs: seq<Box>, delta: int)
    requires Candidates(bs) >= 1
    ensures Candidates(StampFirst(bs, delta)) == Candidates(bs)
    ensures First(StampFirst(bs, delta)) == Stamp(First(bs), delta)
    ensures Candidates(bs) >= 2 ==> Second(StampFirst(bs, delta)) == Second(bs)
    decreases bs
  {
    var after := StampFirst(bs, delta);
    match bs[0]
    case Plain(l) =>
      if !l.Tfdt? {
        StampFirstEffect(bs[1..], delta);
        assert after[1..] == StampFirst(bs[1..], delta);
      }
    case Container(kind, _, children) =>
      if PureContainer(kind) && Candidates(children) >= 1 {
        StampFirstEffect(children, delta);
        assert after[1..] == bs[1..];
      } else {
        StampFirstEffect(bs[1..], delta);
        assert after[1..] == StampFirst(bs[1..], delta);
      }
  }

  lemma {:induction false} StampFirstUndone(bs: seq<Box>, delta: int)
    requires WellFormedAll(bs) && Candidates(bs) >= 1
    ensures Candidates(StampFirst(bs, delta)) >= 1 && StampFirst(StampFirst(bs, delta), -delta) == bs
    decreases bs
  {
    hide Stamp, Size, WellFormedLeaf;
    StampFirstEffect(bs, delta);
    var after := StampFirst(bs, delta);
    assert bs == [bs[0]] + bs[1..];
    match bs[0]
    case Plain(l) =>
      if l.Tfdt? {
        StampUndone(l, delta);
        WalkPlain(bs, delta);
        assert after[1..] == bs[1..];
      } else {
        StampFirstUndone(bs[1..], delta);
        assert after[1..] == StampFirst(bs[1..], delta);
      }
    case Container(kind, _, children) =>
      if PureContainer(kind) && Candidates(children) >= 1 {
        StampFirstUndone(children, delta);
        StampFirstEffect(children, delta);
        assert after[1..] == bs[1..];
      } else {
        StampFirstUndone(bs[1..], delta);
        assert after[1..] == StampFirst(bs[1..], delta);
      }
  }

  lemma {:induction false} InertFirst(bs: seq<Box>, delta: int)
    requires Candidates(bs) >= 1 && Inert(First(bs), delta)
    ensures RestampAll(bs, delta) == bs && Reported(bs, delta) != 0
    decreases bs
  {
    hide Stamp, RestampAll, Reported;
    assert bs == [bs[0]] + bs[1..];
    if bs[0].Container? && PureContainer(bs[0].kind) {
      WalkContainer(bs, delta);
      if Candidates(bs[0].children) >= 1 {
        InertFirst(bs[0].children, delta);
      } else {
        NoCandidate(bs[0].children, delta);
        InertFirst(bs[1..], delta);
      }
      var after := RestampAll(bs, delta);
      assert after == [after[0]] + after[1..];
    } else {
      WalkPlain(bs, delta);
      if !(bs[0].Plain? && bs[0].leaf.Tfdt?) {
        InertFirst(bs[1..], delta);
      }
    }
  }

  /** When the walk stamps its first candidate and nothing else. */
  predicate OneStamp(bs: seq<Box>, delta: int)
    requires Candidates(bs) >= 1
  {
    Candidates(bs) == 1 || Stops(First(bs), delta) || Inert(Second(bs), delta)
  }

  lemma {:induction false} WalkStampsFirst(bs: seq<Box>, delta: int)
    requires Candidates(bs) >= 1 && OneStamp(bs, delta)
    ensures RestampAll(bs, delta) == StampFirst(bs, delta)
    ensures Candidates(bs) >= 2 ==> Reported(bs, delta) != 0
    decreases bs
  {
    hide Stamp, RestampAll, Reported;
    WalkEffect(bs, delta);
    var after := RestampAll(bs, delta);
    if bs[0].Container? && PureContainer(bs[0].kind) {
      var c, rest := bs[0].children, bs[1..];
      WalkContainer(bs, delta);
      if Candidates(c) == 0 {
        NoCandidate(c, delta);
        WalkStampsFirst(rest, delta);
      } else {
        WalkStampsFirst(c, delta);
        WalkEffect(c, delta);
        if Candidates(rest) == 0 {
          NoCandidate(rest, delta);
        } else if Candidates(c) == 1 && !Stops(First(bs), delta) {
          InertFirst(rest, delta);
        }
      }
      assert after == [after[0]] + after[1..];
    } else {
      WalkPlain(bs, delta);
      if !(bs[0].Plain? && bs[0].leaf.Tfdt?) {
        WalkStampsFirst(bs[1..], delta);
      }
    }
  }

  /**
   The inverse law, on any fragment and for every delta an int64_t holds: adjusting by delta and then by -delta
   restores it if and only if the walk has no second tfdt to come to, or stops at the first one both ways, or the
   second one has a 32-bit time and delta is a multiple of 2^32.
   */
  lemma {:induction false} RestampUndoneIff(bs: seq<Box>, delta: int)
    requires WellFormedAll(bs) && Candidates(bs) >= 1 && delta != 0 && -TWO64 / 2 <= delta < TWO64 / 2
    ensures RestampAll(RestampAll(bs, delta), -delta) == bs <==>
            Candidates(bs) == 1 || (Stops(First(bs), delta) && Stops(Stamp(First(bs), delta), -delta)) ||
            (Second(bs).version != 1 && delta % TWO32 == 0)
  {
    hide RestampAll, Candidates, First, Second, WellFormedAll, WellFormedLeaf, StampFirst, Stamp, Stops, Pow256;
    var once := RestampAll(bs, delta);
    if Candidates(bs) == 1 {
      WalkStampsFirst(bs, delta);
      StampFirstEffect(bs, delta);
      WalkStampsFirst(once, -delta);
      StampFirstUndone(bs, delta);
    } else {
      SecondWellFormed(bs);
      var l := Second(bs);
      WideDelta(l, delta);
      if OneStamp(bs, delta) {
        WalkStampsFirst(bs, delta);
        StampFirstEffect(bs, delta);
        if OneStamp(once, -delta) {
          WalkStampsFirst(once, -delta);
          StampFirstUndone(bs, delta);
        }
      }
      WalkEffect(bs, delta);
      WalkEffect(once, -delta);
      if !Stops(First(bs), delta) {
        StampedToZero(First(bs), delta);
      }
    }
  }

  /** When stamping by delta, or by -delta, does nothing to a well-formed tfdt. */
  lemma {:induction false} WideDelta(l: Leaf, delta: int)
    requires l.Tfdt? && WellFormedLeaf(l) && delta != 0 && -TWO64 / 2 <= delta < TWO64 / 2
    ensures l.version != 1 && delta % TWO32 == 0 ==> Inert(l, delta) && Inert(l, -delta)
    ensures !(l.version != 1 && delta % TWO32 == 0) ==> Stamp(l, delta) != l && Stamp(l, -delta) != l
  {
    hide Stamp, Pow256;
    WidthValues(l.version);
    StampMoves(l, delta);
    StampMoves(l, -delta);
    Negated(delta, TWO32);
    Negated(delta, TWO64);
    if l.version != 1 && delta % TWO32 == 0 {
      ShortTimeStops(l.time, delta);
      ShortTimeStops(l.time, -delta);
    }
  }

  lemma Negated(v: int, p: int)
    requires p == TWO32 || p == TWO64
    ensures v % p == 0 <==> -v % p == 0
  {
  }

  /** A 32-bit time and a multiple of 2^32 do not cancel. */
  lemma {:induction false} ShortTimeStops(t: nat, delta: int)
    requires t < TWO32 && delta % TWO32 == 0 && delta != 0 && -TWO64 / 2 <= delta <= TWO64 / 2
    ensures (t + delta) % TWO64 != 0
  {
    if delta > 0 {
      assert (t + delta) % TWO64 == t + delta;
    } else {
      assert t + delta < 0;
      assert (t + delta) % TWO64 == t + delta + TWO64;
    }
  }

  /** A tfdt at which the walk does not stop is left at 0, so the way back stops there. */
  lemma {:induction false} StampedToZero(l: Leaf, delta: int)
    requires l.Tfdt? && !Stops(l, delta) && delta != 0 && -TWO64 / 2 <= delta < TWO64 / 2
    ensures Stamp(l, delta).Tfdt? && Stops(Stamp(l, delta), -delta)
  {
    hide Pow256;
    WidthValues(l.version);
    var v := l.time + delta;
    assert v == TWO64 * (v / TWO64);
    if l.version != 1 {
      DivModUnique(v, TWO32, TWO32 * (v / TWO64), 0);
    }
    assert Stamp(l, delta).time == 0;
  }

  lemma {:induction false} FirstWellFormed(bs: seq<Box>)
    requires WellFormedAll(bs) && Candidates(bs) >= 1
    ensures WellFormedLeaf(First(bs))
    decreases bs
  {
    hide Size, WellFormedLeaf;
    match bs[0]
    case Plain(l) =>
      if !l.Tfdt? {
        FirstWellFormed(bs[1..]);
      }
    case Container(kind, _, children) =>
      if PureContainer(kind) && Candidates(children) >= 1 {
        FirstWellFormed(children);
      } else {
        FirstWellFormed(bs[1..]);
      }
  }

  lemma {:induction false} SecondWellFormed(bs: seq<Box>)
    requires WellFormedAll(bs) && Candidates(bs) >= 2
    ensures WellFormedLeaf(Second(bs))
    decreases bs
  {
    hide Size, WellFormedLeaf;
    match bs[0]
    case Plain(l) => SecondWellFormed(bs[1..]);
    case Container(kind, _, children) =>
      var n := if PureContainer(kind) then Candidates(children) else 0;
      if n >= 2 {
        SecondWellFormed(children);
      } else if n == 1 {
        FirstWellFormed(bs[1..]);
      } else {
        SecondWellFormed(bs[1..]);
      }
  }

  // ----- frame: the bytes that change -----

  /** Offset, within the serialized boxes, of the time field the walk rewrites. */
  function TimeOffset(bs: seq<Box>): nat
    requires Reachable(bs) > 0
    decreases bs
  {
    if !InHead(bs) then Size(bs[0]) + TimeOffset(bs[1..])
    else if bs[0].Plain? then 12
    else 8 + |bs[0].prelude| + TimeOffset(bs[0].children)
  }

  lemma {:induction false} SpliceRight(head: seq<byte>, s: seq<byte>, t: seq<byte>, o: nat, field: seq<byte>)
    requires o + |field| <= |s| && t == s[..o] + field + s[o + |field|..]
    ensures var a := head + s;
            head + t == a[..|head| + o] + field + a[|head| + o + |field|..]
  {
  }

  lemma {:induction false} SpliceLeft(s: seq<byte>, t: seq<byte>, tail: seq<byte>, o: nat, field: seq<byte>)
    requires o + |field| <= |s| && t == s[..o] + field + s[o + |field|..]
    ensures var a := s + tail;
            t + tail == a[..o] + field + a[o + |field|..]
  {
  }

  /** Only the 4 or 8 bytes of the time field change, and they become the new time. */
  lemma {:induction false} RestampIsSplice(bs: seq<Box>, delta: int)
    requires Reachable(bs) == 1
    ensures var s, o, l := SerAll(bs), TimeOffset(bs), FirstTfdt(bs);
            var w := TimeWidth(l.version);
            o + w <= |s| &&
            SerAll(RestampAll(bs, delta)) == s[..o] + ToBE(l.time + delta, w) + s[o + w..]
    decreases bs
  {
    hide Ser, SerAll, ToBE, Body, Kind, Pow256, LeafBytes;
    OneStep(bs, delta);
    SerAllUnfold(bs);
    var l := FirstTfdt(bs);
    var field := ToBE(l.time + delta, TimeWidth(l.version));
    if InHead(bs) {
      BoxIsSplice(bs, delta);
      var b, after := bs[0], RestampHead(bs[0], delta);
      SerAllUnfold([after] + bs[1..]);
      SpliceLeft(Ser(b), Ser(after), SerAll(bs[1..]), TimeOffset(bs), field);
    } else {
      RestampIsSplice(bs[1..], delta);
      SerAllUnfold([bs[0]] + RestampAll(bs[1..], delta));
      SpliceRight(Ser(bs[0]), SerAll(bs[1..]), SerAll(RestampAll(bs[1..], delta)), TimeOffset(bs[1..]), field);
    }
  }

  lemma {:induction false} BoxIsSplice(bs: seq<Box>, delta: int)
    requires Reachable(bs) == 1 && InHead(bs)
    ensures var s, o, l := Ser(bs[0]), TimeOffset(bs), FirstTfdt(bs);
            var w := TimeWidth(l.version);
            o + w <= |s| &&
            Ser(RestampHead(bs[0], delta)) == s[..o] + ToBE(l.time + delta, w) + s[o + w..]
    decreases bs, 0
  {
    hide Ser, SerAll, ToBE, Pow256, LeafBytes, Kind, Body;
    var b, after := bs[0], RestampHead(bs[0], delta);
    var l := FirstTfdt(bs);
    var w := TimeWidth(l.version);
    var field := ToBE(l.time + delta, w);
    RestampHeadSize(b, delta);
    SerSplit(b);
    SerSplit(after);
    var head := ToBE(Size(b), 4) + ToBE(Kind(b), 4);
    if b.Plain? {
      TfdtBytes(l);
      TfdtBytes(Stamp(l, delta));
      PlainBody(b);
      PlainBody(after);
      StoredTime(l, delta);
      var s, t := Body(b), Body(after);
      assert s[..4] == TfdtHead(l) && s[4 + w..] == l.trailing;
      assert t == s[..4] + field + s[4 + w..];
      SpliceRight(head, s, t, 4, field);
    } else {
      OneStep(bs, delta);
      RestampIsSplice(b.children, delta);
      ContainerBody(b);
      ContainerBody(after);
      var o := TimeOffset(b.children);
      SpliceRight(b.prelude, SerAll(b.children), SerAll(after.children), o, field);
      SpliceRight(head, Body(b), Body(after), |b.prelude| + o, field);
    }
  }

  lemma ContainerBody(b: Box)
    requires b.Container?
    ensures Body(b) == b.prelude + SerAll(b.children)
  {
  }

  lemma {:induction false} StoredTime(l: Leaf, delta: int)
    requires l.Tfdt?
    ensures ToBE(Stamp(l, delta).time, TimeWidth(l.version)) == ToBE(l.time + delta, TimeWidth(l.version))
    ensures TfdtHead(Stamp(l, delta)) == TfdtHead(l)
  {
    hide ToBE;
    WidthValues(l.version);
    var p := Pow256(TimeWidth(l.version));
    assert (l.time + delta) % p % p == (l.time + delta) % p;
    ToBECongruent((l.time + delta) % p, l.time + delta, TimeWidth(l.version));
  }

  // ----- restamp commutes with demux -----

  function ShiftSample(s: Sample, delta: int): Sample
  {
    s.(dts := (s.dts + delta) % TWO64, pts := (s.pts + delta) % TWO64)
  }

  /** p2 is p with the decode time off by e and the samples from k on moved by e. */
  ghost predicate Drift(p: Parse, p2: Parse, k: nat, e: int)
  {
    p2.baseMediaDecodeTime == p.baseMediaDecodeTime + e &&
    p2 == p.(baseMediaDecodeTime := p2.baseMediaDecodeTime, samples := p2.samples) &&
    |p2.samples| == |p.samples| && k <= |p.samples| && p2.samples[..k] == p.samples[..k] &&
    forall i :: k <= i < |p.samples| ==> p2.samples[i] == ShiftSample(p.samples[i], e)
  }

  lemma {:induction false} RunDrift(l: Leaf, p: Parse, p2: Parse, k: nat, e: int)
    requires l.Trun? && Drift(p, p2, k, e)
    ensures Drift(p.(samples := p.samples + RunSamples(l, p)), p2.(samples := p2.samples + RunSamples(l, p2)), k, e)
  {
    hide TotalDuration, TotalLength, Bit;
    var r, r2 := RunSamples(l, p), RunSamples(l, p2);
    forall i | 0 <= i < |l.entries|
      ensures r2[i] == ShiftSample(r[i], e)
    {
      var t := p.baseMediaDecodeTime + TotalDuration(l.flags, l.entries[..i], p.defaultDuration);
      var c := if Bit(l.flags, 0x800) then l.entries[i].compositionOffset else 0;
      assert r[i] == SampleAt(l, p, i) && r2[i] == SampleAt(l, p2, i);
      AddMod(t, e);
      AddMod(t + c, e);
    }
  }

  lemma {:induction false} BoxDrift(b: Box, at: int, p: Parse, p2: Parse, k: nat, e: int)
    requires Tfdts([b]) == 0 && Drift(p, p2, k, e)
    ensures Drift(FoldBox(b, at, p), FoldBox(b, at, p2), k, e)
    decreases b, 0
  {
    hide RunSamples;
    match b
    case Plain(l) =>
      if l.Trun? {
        RunDrift(l, p, p2, k, e);
      }
    case Container(kind, prelude, children) =>
      var q := if kind == MOOF then p.(moof := at) else p;
      var q2 := if kind == MOOF then p2.(moof := at) else p2;
      FoldDrift(children, at + 8 + |prelude|, q, q2, k, e);
  }

  /** Without a tfdt in between, a drift in the decode time reaches every later sample and nothing else. */
  lemma {:induction false} FoldDrift(bs: seq<Box>, at: int, p: Parse, p2: Parse, k: nat, e: int)
    requires Tfdts(bs) == 0 && Drift(p, p2, k, e)
    ensures Drift(FoldAll(bs, at, p), FoldAll(bs, at, p2), k, e)
    decreases bs, 1
  {
    hide FoldBox, Drift, Size;
    if bs != [] {
      assert Tfdts([bs[0]]) == 0 by {
        assert [bs[0]][1..] == [];
      }
      BoxDrift(bs[0], at, p, p2, k, e);
      FoldDrift(bs[1..], at + Size(bs[0]), FoldBox(bs[0], at, p), FoldBox(bs[0], at, p2), k, e);
    }
  }

  function SampleCount(bs: seq<Box>): nat
    decreases bs
  {
    if bs == [] then 0
    else
      var head: nat := match bs[0]
        case Plain(l) => if l.Trun? then |l.entries| else 0
        case Container(_, _, children) => SampleCount(children);
      head + SampleCount(bs[1..])
  }

  lemma {:induction false} FoldCounts(bs: seq<Box>, at: int, p: Parse)
    ensures |FoldAll(bs, at, p).samples| == |p.samples| + SampleCount(bs)
    decreases bs
  {
    hide Size, RunSamples, PureContainer;
    if bs != [] {
      var b := bs[0];
      match b {
        case Plain(l) =>
          if l.Trun? {
            RunCount(l, p);
          }
        case Container(kind, prelude, children) =>
          FoldCounts(children, at + 8 + |prelude|, if kind == MOOF then p.(moof := at) else p);
      }
      FoldCounts(bs[1..], at + Size(b), FoldBox(b, at, p));
    }
  }

  lemma RunCount(l: Leaf, p: Parse)
    requires l.Trun?
    ensures |RunSamples(l, p)| == |l.entries|
  {
  }

  /** Samples of the runs that come before the tfdt. */
  function SamplesBefore(bs: seq<Box>): nat
    requires Reachable(bs) > 0
    decreases bs
  {
    if !InHead(bs) then SampleCount([bs[0]]) + SamplesBefore(bs[1..])
    else if bs[0].Plain? then 0
    else SamplesBefore(bs[0].children)
  }

  /** The step of the stored time, which is delta up to the width of the field. */
  function Step(l: Leaf, delta: int): int
    requires l.Tfdt?
  {
    Stamp(l, delta).time - l.time
  }

  lemma {:induction false} RestampDrift(bs: seq<Box>, at: int, p: Parse, delta: int)
    requires OneTfdt(bs)
    ensures Drift(FoldAll(bs, at, p), FoldAll(RestampAll(bs, delta), at, p),
                  |p.samples| + SamplesBefore(bs), Step(FirstTfdt(bs), delta))
    decreases bs
  {
    hide Size, RunSamples, Drift, Pow256, Stamp;
    OneStep(bs, delta);
    var b, rest, after := bs[0], bs[1..], RestampAll(bs, delta);
    var e, k := Step(FirstTfdt(bs), delta), |p.samples| + SamplesBefore(bs);
    var next := at + Size(b);
    if InHead(bs) {
      assert after[0] == RestampHead(b, delta) && after[1..] == rest;
      RestampHeadSize(b, delta);
      ReachableAtMost(bs);
      if b.Plain? {
        DriftStart(b.leaf, p, delta);
        FoldDrift(rest, next, FoldBox(b, at, p), FoldBox(after[0], at, p), k, e);
      } else {
        ReachableAtMost(b.children);
        ReachableAtMost(rest);
        RestampDrift(b.children, at + 8 + |b.prelude|, if b.kind == MOOF then p.(moof := at) else p, delta);
        FoldDrift(rest, next, FoldBox(b, at, p), FoldBox(after[0], at, p), k, e);
      }
    } else {
      assert after[0] == b && after[1..] == RestampAll(rest, delta);
      ReachableAtMost(rest);
      assert FoldAll([b], at, p) == FoldBox(b, at, p) by {
        assert [b][1..] == [];
      }
      FoldCounts([b], at, p);
      RestampDrift(rest, next, FoldBox(b, at, p), delta);
    }
  }

  lemma {:induction false} ReachableAtMost(bs: seq<Box>)
    ensures Reachable(bs) <= Tfdts(bs)
    decreases bs
  {
    if bs != [] {
      ReachableAtMost(bs[1..]);
      if bs[0].Container? {
        ReachableAtMost(bs[0].children);
      }
    }
  }

  lemma DriftStart(l: Leaf, p: Parse, delta: int)
    requires l.Tfdt?
    ensures Drift(StepLeaf(l, p), StepLeaf(Stamp(l, delta), p), |p.samples|, Step(l, delta))
  {
  }

  /** The new time fits the field it is written to. */
  predicate TimeFits(l: Leaf, delta: int)
    requires l.Tfdt?
  {
    l.version == 1 || 0 <= l.time + delta < TWO32
  }

  lemma {:induction false} StepIsDelta(l: Leaf, delta: int, x: nat)
    requires l.Tfdt? && WellFormedLeaf(l) && -TWO64 / 2 <= delta < TWO64 / 2
    ensures (x + Step(l, delta)) % TWO64 == (x + delta) % TWO64 <==> TimeFits(l, delta)
  {
    WidthValues(l.version);
    var p := Pow256(TimeWidth(l.version));
    var q := (l.time + delta) / p;
    assert Step(l, delta) == delta - p * q;
    if l.version != 1 {
      assert TWO32 * q <= l.time + delta < TWO32 * q + TWO32;
      assert -TWO31 <= q <= TWO31;
      if TimeFits(l, delta) {
        assert q == 0;
      } else {
        assert q != 0;
        NotCongruent(x + delta, TWO32 * q);
      }
    } else {
      CongruentByMultiple(x + delta, q);
    }
  }

  lemma {:induction false} CongruentByMultiple(v: int, q: int)
    ensures (v - TWO64 * q) % TWO64 == v % TWO64
  {
    DivModUnique(v - TWO64 * q, TWO64, v / TWO64 - q, v % TWO64);
  }

  lemma NotCongruent(v: int, d: int)
    requires 0 < d < TWO64 || -TWO64 < d < 0
    ensures (v - d) % TWO64 != v % TWO64
  {
  }

  /** The samples from k on are the old ones moved by delta. */
  ghost predicate MovedFrom(before: seq<Sample>, after: seq<Sample>, k: nat, delta: int)
  {
    |after| == |before| && forall i :: k <= i < |before| ==> after[i] == ShiftSample(before[i], delta)
  }

  /**
   Demuxing a restamped fragment: the samples before the tfdt are untouched, and every later sample
   keeps its place, length and duration while its dts and pts move by exactly delta ticks (modulo
   2^64), if and only if the new time fits the field or there is no later sample.
   */
  lemma {:induction false} RestampCommutesWithDemux(bs: seq<Box>, at: int, p: Parse, delta: int)
    requires OneTfdt(bs) && WellFormedLeaf(FirstTfdt(bs)) && -TWO64 / 2 <= delta < TWO64 / 2
    ensures var before := FoldAll(bs, at, p).samples;
            var after := FoldAll(RestampAll(bs, delta), at, p).samples;
            var k := |p.samples| + SamplesBefore(bs);
            k <= |before| == |after| && after[..k] == before[..k] &&
            (MovedFrom(before, after, k, delta) <==> TimeFits(FirstTfdt(bs), delta) || k == |before|)
  {
    hide FoldAll, RestampAll, SamplesBefore, Reachable, Tfdts, FirstTfdt, Step;
    RestampDrift(bs, at, p, delta);
    var l := FirstTfdt(bs);
    var q, q2 := FoldAll(bs, at, p), FoldAll(RestampAll(bs, delta), at, p);
    var k := |p.samples| + SamplesBefore(bs);
    forall i | k <= i < |q.samples|
      ensures q2.samples[i] == ShiftSample(q.samples[i], delta) <==> TimeFits(l, delta)
    {
      StepIsDelta(l, delta, q.samples[i].dts);
      StepIsDelta(l, delta, q.samples[i].pts);
    }
    if k < |q.samples| && !TimeFits(l, delta) {
      assert q2.samples[k] != ShiftSample(q.samples[k], delta);
    }
  }

  /** With the tfdt before every run, all samples move. */
  lemma {:induction false} RestampMovesAllSamples(bs: seq<Box>, at: int, p: Parse, delta: int)
    requires OneTfdt(bs) && WellFormedLeaf(FirstTfdt(bs)) && -TWO64 / 2 <= delta < TWO64 / 2
    requires SamplesBefore(bs) == 0 && p.samples == [] && TimeFits(FirstTfdt(bs), delta)
    ensures MovedFrom(FoldAll(bs, at, p).samples, FoldAll(RestampAll(bs, delta), at, p).samples, 0, delta)
  {
    RestampCommutesWithDemux(bs, at, p, delta);
  }

  lemma {:induction false} WellFormedFirst(bs: seq<Box>)
    requires Reachable(bs) > 0 && WellFormedAll(bs)
    ensures WellFormedLeaf(FirstTfdt(bs))
    decreases bs
  {
    hide Size, Pow256, SerAll;
    if !InHead(bs) {
      WellFormedFirst(bs[1..]);
    } else if bs[0].Container? {
      WellFormedFirst(bs[0].children);
    }
  }

  lemma {:induction false} StampedWellFormed(bs: seq<Box>, delta: int)
    requires WellFormedAll(bs) && ReadyAll(bs)
    ensures WellFormedAll(RestampAll(bs, delta)) && ReadyAll(RestampAll(bs, delta))
    decreases bs
  {
    hide Size, SerAll, Pow256, BE, PreludeLength, PureContainer;
    if bs != [] {
      var after := RestampAll(bs, delta);
      assert after[0] == RestampHead(bs[0], delta);
      assert after[1..] == bs[1..] || after[1..] == RestampAll(bs[1..], delta);
      RestampHeadSize(bs[0], delta);
      StampedWellFormed(bs[1..], delta);
      if bs[0].Container? {
        StampedWellFormed(bs[0].children, delta);
      } else if bs[0].leaf.Tfdt? {
        StampedLeaf(bs[0].leaf, delta);
      }
    }
  }

  lemma StampedLeaf(l: Leaf, delta: int)
    requires l.Tfdt? && WellFormedLeaf(l)
    ensures WellFormedLeaf(Stamp(l, delta))
  {
  }

  /** Both imperative walkers on one buffer: demux, restamp in place, demux again. */
  method DemuxAroundRestamp(buf: array<byte>, delta: int, timescale: nat, junk: Parse, ghost bs: seq<Box>)
    returns (before: seq<Sample>, after: seq<Sample>)
    requires buf[..] == SerAll(bs) && WellFormedAll(bs) && ReadyAll(bs) && OneTfdt(bs)
    requires -TWO64 / 2 <= delta < TWO64 / 2
    modifies buf
    ensures var k := SamplesBefore(bs);
            k <= |before| == |after| && after[..k] == before[..k] &&
            (MovedFrom(before, after, k, delta) <==> TimeFits(FirstTfdt(bs), delta) || k == |before|)
    ensures SameOutside(old(buf[..]), buf[..], TimeOffset(bs), TimeOffset(bs) + TimeWidth(FirstTfdt(bs).version))
  {
    hide FoldAll, RestampAll, SamplesBefore, Reachable, Tfdts, FirstTfdt, WellFormedAll, ReadyAll, SerAll, MovedFrom, TimeFits, TimeOffset, TimeWidth, ToBE, Reported, SameOutside, Stamp;
    var first := new Demuxer(buf[..], timescale, junk, bs);
    before := first.samples;
    assert buf[..][0..buf.Length] == buf[..];
    var reported := AdjustMediaDecodeTime(buf, 0, buf.Length, delta, bs);
    assert buf[..][0..buf.Length] == buf[..];
    StampedWellFormed(bs, delta);
    WellFormedFirst(bs);
    var second := new Demuxer(buf[..], timescale, junk, RestampAll(bs, delta));
    after := second.samples;
    RestampCommutesWithDemux(bs, 0, junk.(timescale := timescale, samples := []), delta);
    RestampIsSplice(bs, delta);
    SpliceOutside(old(buf[..]), buf[..], TimeOffset(bs), ToBE(FirstTfdt(bs).time + delta, TimeWidth(FirstTfdt(bs).version)));
  }

  lemma SpliceOutside(was: seq<byte>, now: seq<byte>, o: nat, field: seq<byte>)
    requires o + |field| <= |was| && now == was[..o] + field + was[o + |field|..]
    ensures SameOutside(was, now, o, o + |field|)
  {
  }
}
