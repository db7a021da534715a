/**
 mp4_AdjustMediaDecodeTime: the second walker, which moves the base media decode time of a
 fragment by a signed delta, in place, and its agreement with the demuxer.
 */
module Restamp {
  import opened Bytes
  import opened Boxes
  import opened Mp4Demux

  // ----- specification over the tree -----

  function Stamp(l: Leaf, delta: int): Leaf
    requires l.Tfdt?
  {
    l.(time := (l.time + delta) % Pow256(TimeWidth(l.version)))
  }

  /** The boxes after the walk, which stops once a walked subtree reports a time other than 0. */
  function RestampAll(bs: seq<Box>, delta: int): seq<Box>
    decreases bs
  {
    if bs == [] then []
    else match bs[0]
      case Plain(l) =>
        if l.Tfdt? then [Plain(Stamp(l, delta))] + bs[1..] else [bs[0]] + RestampAll(bs[1..], delta)
      case Container(kind, prelude, children) =>
        if !PureContainer(kind) then [bs[0]] + RestampAll(bs[1..], delta)
        else
          [Container(kind, prelude, RestampAll(children, delta))] +
          (if Reported(children, delta) != 0 then bs[1..] else RestampAll(bs[1..], delta))
  }

  /** The value the walk returns: the adjusted 64-bit time, 0 when there was none (or it is 0). */
  function Reported(bs: seq<Box>, delta: int): nat
    decreases bs
  {
    if bs == [] then 0
    else match bs[0]
      case Plain(l) => if l.Tfdt? then (l.time + delta) % TWO64 else Reported(bs[1..], delta)
      case Container(kind, prelude, children) =>
        if PureContainer(kind) && Reported(children, delta) != 0 then Reported(children, delta)
        else Reported(bs[1..], delta)
  }

  // ----- byte access of mp4demux.cpp -----

  method WriteBytes(buf: array<byte>, at: nat, n: nat, value: int)
    requires at + n <= buf.Length
    modifies buf
    ensures buf[..][at..at + n] == ToBE(value, n)
    ensures SameOutside(old(buf[..]), buf[..], at, at + n)
  {
    var k, v := n, value;
    assert buf[at + n..at + n] == [];
    while k > 0
      invariant 0 <= k <= n
      invariant ToBE(value, n) == ToBE(v, k) + buf[at + k..at + n]
      invariant forall i :: 0 <= i < at || at + n <= i < buf.Length ==> buf[i] == old(buf[i])
    {
      k := k - 1;
      ghost var tail := buf[at + k + 1..at + n];
      buf[at + k] := v % 256;
      assert buf[at + k..at + n] == [v % 256] + tail;
      v := v / 256;
    }
  }

  method ReadBytes(buf: array<byte>, at: nat, n: nat) returns (rc: nat)
    requires n <= 8 && at + n <= buf.Length
    ensures rc == BE(buf[..][at..at + n])
  {
    rc := 0;
    ghost var s := buf[..];
    assert s[at..at] == [];
    for i := 0 to n
      invariant rc == BE(s[at..at + i])
    {
      BEBound(s[at..at + i]);
      Pow256Monotone(i + 1, 8);
      Widths();
      BESnoc(s, at, at + i);
      rc := rc * 256 % TWO64 + buf[at + i];
    }
  }

  // ----- facts about the specification -----

  lemma {:induction false} RestampLength(bs: seq<Box>, delta: int)
    ensures |SerAll(RestampAll(bs, delta))| == |SerAll(bs)|
    decreases bs
  {
    hide Ser, ToBE, Pow256, LeafBytes, SerAll, Kind;
    if bs == [] {
    } else {
      var after := RestampAll(bs, delta);
      assert after[0] == RestampHead(bs[0], delta);
      assert after[1..] == bs[1..] || after[1..] == RestampAll(bs[1..], delta);
      SerAllUnfold(bs);
      SerAllUnfold(after);
      RestampLength(bs[1..], delta);
      RestampHeadSize(bs[0], delta);
    }
  }

  /** What the walk does to a box it reaches. */
  function RestampHead(b: Box, delta: int): Box
  {
    match b
    case Plain(l) => if l.Tfdt? then Plain(Stamp(l, delta)) else b
    case Container(kind, prelude, children) =>
      if PureContainer(kind) then Container(kind, prelude, RestampAll(children, delta)) else b
  }

  lemma {:induction false} RestampHeadSize(b: Box, delta: int)
    ensures Size(RestampHead(b, delta)) == Size(b) && Kind(RestampHead(b, delta)) == Kind(b)
    decreases b, 0
  {
    match b
    case Plain(l) =>
      if l.Tfdt? {
        TfdtBytes(l);
        TfdtBytes(Stamp(l, delta));
      }
    case Container(kind, prelude, children) =>
      RestampLength(children, delta);
  }

  /** The version and flags of a tfdt, which the walk reads past. */
  function TfdtHead(l: Leaf): seq<byte>
    requires l.Tfdt?
  {
    ToBE(l.version, 1) + ToBE(l.flags, 3)
  }

  lemma {:induction false} TfdtBytes(l: Leaf)
    requires l.Tfdt?
    ensures LeafBytes(l) == TfdtHead(l) + (ToBE(l.time, TimeWidth(l.version)) + l.trailing)
    ensures |TfdtHead(l)| == 4 && TfdtHead(l)[0] == l.version
  {
    hide ToBE;
    var rest := ToBE(l.time, TimeWidth(l.version)) + l.trailing;
    var time := Field(l.time, TimeWidth(l.version), Tail(l.trailing));
    assert Flat(time) == rest;
    assert Flat(Field(l.flags, 3, time)) == ToBE(l.flags, 3) + rest;
    Associative(ToBE(l.version, 1), ToBE(l.flags, 3), rest);
    ToBE1(l.version);
  }

  /** One step of the walk, told from the kind field alone. */
  lemma {:induction false} RestampStep(rest: seq<Box>, delta: int)
    requires rest != [] && WellFormedAll(rest)
    ensures WellFormed(rest[0]) && WellFormedAll(rest[1..])
    ensures var b := rest[0];
            if Kind(b) == TFDT then
              b.Plain? && b.leaf.Tfdt? && WellFormedLeaf(b.leaf) &&
              RestampAll(rest, delta) == [RestampHead(b, delta)] + rest[1..] &&
              Reported(rest, delta) == (b.leaf.time + delta) % TWO64
            else if PureContainer(Kind(b)) then
              b.Container? && WellFormedAll(b.children) && Body(b) == SerAll(b.children) &&
              Body(RestampHead(b, delta)) == SerAll(RestampAll(b.children, delta)) &&
              (var r := Reported(b.children, delta);
               RestampAll(rest, delta) ==
                 [RestampHead(b, delta)] + (if r != 0 then rest[1..] else RestampAll(rest[1..], delta)) &&
               Reported(rest, delta) == if r != 0 then r else Reported(rest[1..], delta))
            else
              RestampHead(b, delta) == b &&
              RestampAll(rest, delta) == [b] + RestampAll(rest[1..], delta) &&
              Reported(rest, delta) == Reported(rest[1..], delta)
  {
    hide Ser, SerAll, LeafBytes, ToBE, Pow256;
    KindIsShape(rest[0]);
    if PureContainer(Kind(rest[0])) {
      var b := rest[0];
      assert b.prelude == [];
      assert [] + SerAll(b.children) == SerAll(b.children);
      assert [] + SerAll(RestampAll(b.children, delta)) == SerAll(RestampAll(b.children, delta));
    }
  }

  /** The state of the walk: boxes already passed, boxes to come. */
  ghost predicate Walked(s: seq<byte>, lo: nat, at: nat, fin: nat, done: seq<Box>, rest: seq<Box>)
  {
    lo <= at <= fin <= |s| && s[lo..at] == SerAll(done) && s[at..fin] == SerAll(rest) && WellFormedAll(rest)
  }

  /** Splicing a box of the same kind and size over the first of the boxes still to walk. */
  lemma {:induction false} Rebuild(was: seq<byte>, now: seq<byte>, lo: nat, at: nat, fin: nat,
                                   done: seq<Box>, after: Box, rest: seq<Box>)
    requires Walked(was, lo, at, fin, done, rest) && rest != []
    requires Size(after) == Size(rest[0]) && Kind(after) == Kind(rest[0]) && at + Size(after) <= fin
    requires SameOutside(was, now, at + 8, at + Size(after)) && now[at + 8..at + Size(after)] == Body(after)
    ensures Walked(now, lo, at + Size(after), fin, done + [after], rest[1..])
  {
    hide ToBE, BE, Pow256, LeafBytes, WellFormed, SerAll, Kind, Body, Ser, SameOutside, Size;
    var next := at + Size(after);
    HeaderFits(rest);
    BoxHeader(was, at, fin, rest);
    SameLength(was, now, at + 8, next);
    SliceOutside(was, now, at + 8, next, next, fin);
    SliceOutside(was, now, at + 8, next, lo, at);
    RebuildBox(was, now, at, rest[0], after);
    SerAllSingle(after);
    SerAllConcat(done, [after]);
    Glue2(now, lo, at, next);
  }

  lemma SameLength(was: seq<byte>, now: seq<byte>, lo: nat, hi: nat)
    requires SameOutside(was, now, lo, hi)
    ensures |was| == |now|
  {
  }

  lemma {:induction false} RebuildBox(was: seq<byte>, now: seq<byte>, at: nat, b: Box, after: Box)
    requires at + Size(b) <= |was| == |now| && was[at..at + Size(b)] == Ser(b)
    requires Size(after) == Size(b) && Kind(after) == Kind(b)
    requires SameOutside(was, now, at + 8, at + Size(b)) && now[at + 8..at + Size(b)] == Body(after)
    ensures now[at..at + Size(b)] == Ser(after)
  {
    hide ToBE, Kind, Body, Ser, SameOutside;
    var next := at + Size(b);
    SerSplit(b);
    SerSplit(after);
    SliceOutside(was, now, at + 8, next, at, at + 8);
    SubSlice(was, at, next, 0, 8);
    assert was[at..next][0..8] == was[at..next][..8];
    Glue2(now, at, at + 8, next);
  }

  lemma SerSplit(b: Box)
    ensures Ser(b) == (ToBE(Size(b), 4) + ToBE(Kind(b), 4)) + Body(b)
    ensures Ser(b)[..8] == ToBE(Size(b), 4) + ToBE(Kind(b), 4)
  {
    hide ToBE, Kind, Body;
    Associative(ToBE(Size(b), 4), ToBE(Kind(b), 4), Body(b));
  }

  lemma SerAllSingle(b: Box)
    ensures SerAll([b]) == Ser(b)
  {
    hide Ser;
    SerAllUnfold([b]);
    assert SerAll([b][1..]) == [];
  }

  lemma {:induction false} Join(s: seq<byte>, lo: nat, mid: nat, fin: nat, done: seq<Box>, rest: seq<Box>)
    requires lo <= mid <= fin <= |s| && s[lo..mid] == SerAll(done) && s[mid..fin] == SerAll(rest)
    ensures s[lo..fin] == SerAll(done + rest)
  {
    hide SerAll;
    SerAllConcat(done, rest);
    assert s[lo..fin] == s[lo..mid] + s[mid..fin];
  }

  // ----- the walk -----

  /** The tfdt branch: the box body is buf[ptr..next). */
  method StampTfdt(buf: array<byte>, ptr: nat, ghost next: nat, delta: int, ghost l: Leaf) returns (rc: nat)
    requires l.Tfdt? && WellFormedLeaf(l)
    requires ptr <= next <= buf.Length && buf[..][ptr..next] == LeafBytes(l)
    modifies buf
    ensures buf[..][ptr..next] == LeafBytes(Stamp(l, delta)) && rc == (l.time + delta) % TWO64
    ensures SameOutside(old(buf[..]), buf[..], ptr, next)
  {
    hide LeafBytes, LeafLayout, Flat, ToBE, BE, Pow256;
    ghost var was := buf[..];
    TfdtBytes(l);
    ghost var w := TimeWidth(l.version);
    TakeBytes(was, ptr, next, TfdtHead(l), ToBE(l.time, w) + l.trailing);
    TakeField(was, ptr + 4, next, l.time, w, l.trailing);
    assert was[ptr] == was[ptr..ptr + 4][0];
    var version := buf[ptr];
    var sz := if version == 1 then 8 else 4;
    var baseMediaDecodeTime := ReadBytes(buf, ptr + 4, sz);
    rc := (baseMediaDecodeTime + delta) % TWO64;
    WriteBytes(buf, ptr + 4, sz, rc);
    ghost var now := buf[..];
    TimeCongruent(l.time + delta, w);
    TfdtBytes(Stamp(l, delta));
    SliceOutside(was, now, ptr + 4, ptr + 4 + w, ptr, ptr + 4);
    SliceOutside(was, now, ptr + 4, ptr + 4 + w, ptr + 4 + w, next);
    Glue2(now, ptr, ptr + 4, next);
    Glue2(now, ptr + 4, ptr + 4 + w, next);
  }

  /** Reducing modulo 2^64 first does not change what a 4- or 8-byte field stores. */
  lemma {:induction false} TimeCongruent(v: int, w: nat)
    requires w == 4 || w == 8
    ensures ToBE(v % TWO64, w) == ToBE(v % Pow256(w), w)
  {
    Widths();
    if w == 4 {
      assert v % TWO64 % TWO32 == v % TWO32;
    }
    ToBECongruent(v % TWO64, v % Pow256(w), w);
  }

  /** Restamps the boxes in buf[lo..lo+len). */
  method AdjustMediaDecodeTime(buf: array<byte>, lo: nat, len: nat, delta: int, ghost bs: seq<Box>) returns (rc: nat)
    requires lo + len <= buf.Length && buf[..][lo..lo + len] == SerAll(bs) && WellFormedAll(bs)
    modifies buf
    ensures buf[..][lo..lo + len] == SerAll(RestampAll(bs, delta)) && rc == Reported(bs, delta)
    ensures SameOutside(old(buf[..]), buf[..], lo, lo + len)
    decreases len, 1
  {
    hide SerAll, Body, Kind, Size, WellFormedAll, RestampAll, RestampHead, Reported, Walked, SameOutside;
    rc := 0;
    var ptr, fin := lo, lo + len;
    var stop := false;
    ghost var done, rest := [], bs;
    StartWalk(buf[..], lo, fin, bs);
    assert done + RestampAll(rest, delta) == RestampAll(bs, delta);
    while ptr < fin && !stop
      invariant lo <= ptr <= fin && Walked(buf[..], lo, ptr, fin, done, rest)
      invariant SameOutside(old(buf[..]), buf[..], lo, fin)
      invariant RestampAll(bs, delta) == done + (if stop then rest else RestampAll(rest, delta))
      invariant Reported(bs, delta) == if stop then rc else Reported(rest, delta)
      invariant !stop ==> rc == 0
      decreases fin - ptr
    {
      EndWalk(buf[..], lo, ptr, fin, done, rest);
      ghost var was, after := buf[..], RestampHead(rest[0], delta);
      var next;
      next, rc, stop := WalkBox(buf, ptr, fin, delta, lo, done, rest);
      Rebuild(was, buf[..], lo, ptr, fin, done, after, rest);
      SameOutsideTrans(old(buf[..]), was, buf[..], lo, fin, ptr + 8, next);
      StepAppends(done, after, if stop then rest[1..] else RestampAll(rest[1..], delta));
      ptr := next;
      done, rest := done + [after], rest[1..];
    }
    EndWalk(buf[..], lo, ptr, fin, done, rest);
    NothingLeft(delta);
  }

  /** One turn of the loop; stop is set by the break of the tfdt branch and by a time other than 0. */
  method WalkBox(buf: array<byte>, at: nat, fin: nat, delta: int, ghost lo: nat, ghost done: seq<Box>, ghost rest: seq<Box>)
    returns (next: nat, rc: nat, stop: bool)
    requires fin <= buf.Length && Walked(buf[..], lo, at, fin, done, rest) && rest != []
    modifies buf
    ensures at + 8 <= next == at + Size(rest[0]) <= fin
    ensures Size(RestampHead(rest[0], delta)) == Size(rest[0]) && Kind(RestampHead(rest[0], delta)) == Kind(rest[0])
    ensures SameOutside(old(buf[..]), buf[..], at + 8, next)
    ensures buf[..][at + 8..next] == Body(RestampHead(rest[0], delta))
    ensures RestampAll(rest, delta) ==
            [RestampHead(rest[0], delta)] + (if stop then rest[1..] else RestampAll(rest[1..], delta))
    ensures Reported(rest, delta) == if stop then rc else Reported(rest[1..], delta)
    ensures !stop ==> rc == 0
    decreases fin - at, 0
  {
    hide SerAll, Body, Kind, Size, WellFormed, WellFormedAll, BE, LeafBytes, Stamp, PureContainer,
      RestampAll, RestampHead, Reported, SameOutside;
    var ptr := at;
    ghost var b := rest[0];
    WalkHeader(buf[..], lo, at, fin, done, rest, delta);
    Unchanged(buf[..], at + 8, at + Size(b));
    var size := ReadBytes(buf, ptr, 4);
    next := ptr + size;
    ptr := ptr + 4;
    var type_ := ReadBytes(buf, ptr, 4);
    ptr := ptr + 4;
    rc, stop := 0, false;
    if type_ == TFDT {
      rc := StampTfdt(buf, ptr, next, delta, b.leaf);
      stop := true;
    } else if PureContainer(type_) {
      rc := AdjustMediaDecodeTime(buf, ptr, next - ptr, delta, b.children);
      stop := rc != 0;
    }
  }

  lemma StartWalk(s: seq<byte>, lo: nat, fin: nat, bs: seq<Box>)
    requires lo <= fin <= |s| && s[lo..fin] == SerAll(bs) && WellFormedAll(bs)
    ensures Walked(s, lo, lo, fin, [], bs) && SameOutside(s, s, lo, fin)
  {
    SerAllEmpty([]);
  }

  lemma EndWalk(s: seq<byte>, lo: nat, at: nat, fin: nat, done: seq<Box>, rest: seq<Box>)
    requires Walked(s, lo, at, fin, done, rest)
    ensures s[lo..fin] == SerAll(done + rest)
    ensures at == fin <==> rest == []
  {
    SerAllEmpty(rest);
    Join(s, lo, at, fin, done, rest);
  }

  lemma NothingLeft(delta: int)
    ensures RestampAll([], delta) == [] && Reported([], delta) == 0
  {
  }

  /** All the loop needs to know of the box at its cursor. */
  lemma {:induction false} WalkHeader(s: seq<byte>, lo: nat, at: nat, fin: nat, done: seq<Box>, rest: seq<Box>, delta: int)
    requires Walked(s, lo, at, fin, done, rest) && rest != []
    ensures var b := rest[0];
            var next, after := at + Size(b), RestampHead(b, delta);
            at + 8 <= next <= fin && WellFormedAll(rest[1..]) &&
            BE(s[at..at + 4]) == Size(b) && BE(s[at + 4..at + 8]) == Kind(b) &&
            s[at + 8..next] == Body(b) && Size(after) == Size(b) && Kind(after) == Kind(b) &&
            if Kind(b) == TFDT then
              b.Plain? && b.leaf.Tfdt? && WellFormedLeaf(b.leaf) &&
              Body(b) == LeafBytes(b.leaf) && Body(after) == LeafBytes(Stamp(b.leaf, delta)) &&
              RestampAll(rest, delta) == [after] + rest[1..] &&
              Reported(rest, delta) == (b.leaf.time + delta) % TWO64
            else if PureContainer(Kind(b)) then
              b.Container? && WellFormedAll(b.children) && Body(b) == SerAll(b.children) &&
              Body(after) == SerAll(RestampAll(b.children, delta)) &&
              (var r := Reported(b.children, delta);
               RestampAll(rest, delta) ==
                 [after] + (if r != 0 then rest[1..] else RestampAll(rest[1..], delta)) &&
               Reported(rest, delta) == if r != 0 then r else Reported(rest[1..], delta))
            else
              after == b && RestampAll(rest, delta) == [after] + RestampAll(rest[1..], delta) &&
              Reported(rest, delta) == Reported(rest[1..], delta)
  {
    hide Ser, SerAll, Body, Kind, WellFormed, WellFormedAll, BE, ToBE, Pow256, LeafBytes, LeafLayout,
      RestampAll, RestampHead, Reported;
    var b := rest[0];
    BoxHeader(s, at, fin, rest);
    RestampStep(rest, delta);
    RestampHeadSize(b, delta);
    if Kind(b) == TFDT {
      HeadOfTfdt(b, delta);
      PlainBody(b);
      PlainBody(RestampHead(b, delta));
    }
  }

  lemma HeadOfTfdt(b: Box, delta: int)
    requires b.Plain? && b.leaf.Tfdt?
    ensures RestampHead(b, delta) == Plain(Stamp(b.leaf, delta))
  {
  }

  lemma PlainBody(b: Box)
    requires b.Plain?
    ensures Body(b) == LeafBytes(b.leaf)
  {
  }

  lemma StepAppends(done: seq<Box>, after: Box, rest: seq<Box>)
    ensures done + ([after] + rest) == (done + [after]) + rest
  {
  }
}
