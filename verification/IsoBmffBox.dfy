/**
 player_isobmff: the third parser. constructBox and constructContainer turn bytes into a tree of
 boxes; the specification is a function on the bytes, so it also says what happens to input that is
 cut short. Boxes are kept as values holding what the C++ objects share: offset, size and type.
 */
module IsoBmffBox {
  import opened Bytes
  import opened Boxes
  import opened ByteLayout
  import Mp4Demux

  const UKWN: nat := 0x554b574e

  datatype Parsed = Parsed(offset: nat, size: nat, kind: nat, children: seq<Parsed>)

  predicate HasChildren(kind: nat)
  {
    kind == MOOV || kind == TRAK || kind == MDIA || kind == MOOF || kind == TRAF
  }

  // ----- specification on bytes -----

  /** What getSize answers for the box at the front of s, s being all that is left of its container. */
  function SizeAt(s: seq<byte>): nat
  {
    if |s| < 8 then |s| else BE(s[..4])
  }

  function KindAt(s: seq<byte>): nat
  {
    if |s| < 8 then UKWN else BE(s[4..8])
  }

  /** The bytes constructContainer descends into. */
  function Inside(s: seq<byte>): seq<byte>
  {
    if 8 <= SizeAt(s) <= |s| && HasChildren(KindAt(s)) then s[8..SizeAt(s)] else []
  }

  function ParseBox(s: seq<byte>, offset: nat): Parsed
    decreases |s|, 0
  {
    Parsed(offset, SizeAt(s), KindAt(s), if Inside(s) == [] then [] else ParseAll(Inside(s), 8))
  }

  /** The children found in s, the first at the given offset in its container. */
  function ParseAll(s: seq<byte>, offset: nat): seq<Parsed>
    decreases |s|, 1
  {
    if s == [] then []
    else
      var rest := if 0 < SizeAt(s) < |s| then ParseAll(s[SizeAt(s)..], offset + SizeAt(s)) else [];
      [ParseBox(s, offset)] + rest
  }

  /** No header has size 0, and no running offset leaves 32 bits: the loops of the source then end. */
  predicate Parsable(s: seq<byte>)
    decreases |s|, 0
  {
    s != [] && SizeAt(s) > 0 && (Inside(s) == [] || ParsableAll(Inside(s), 8))
  }

  predicate ParsableAll(s: seq<byte>, offset: nat)
    decreases |s|, 1
  {
    s == [] ||
    (Parsable(s) && offset + SizeAt(s) < TWO32 &&
     (SizeAt(s) < |s| ==> ParsableAll(s[SizeAt(s)..], offset + SizeAt(s))))
  }

  // ----- the same as a relation, the types spelt out -----

  /** The five types whose boxes hold boxes. */
  ghost predicate Holds(kind: nat)
  {
    kind == Name('m', 'o', 'o', 'v') || kind == Name('t', 'r', 'a', 'k') || kind == Name('m', 'd', 'i', 'a') ||
    kind == Name('m', 'o', 'o', 'f') || kind == Name('t', 'r', 'a', 'f')
  }

  /** b is what the front of s says, s being all that is left of the container, and its children what is inside. */
  ghost predicate Reads(s: seq<byte>, offset: nat, b: Parsed)
    decreases |s|, 0
  {
    b.offset == offset &&
    if |s| < 8 then b.size == |s| && b.kind == Name('U', 'K', 'W', 'N') && b.children == []
    else
      b.size == BE(s[..4]) && b.kind == BE(s[4..8]) &&
      if 8 < b.size <= |s| && Holds(b.kind) then ReadsAll(s[8..b.size], 8, b.children) else b.children == []
  }

  /** bs lie one behind the other from the given offset on until s is used up. */
  ghost predicate ReadsAll(s: seq<byte>, offset: nat, bs: seq<Parsed>)
    decreases |s|, 1
  {
    if s == [] then bs == []
    else
      bs != [] && Reads(s, offset, bs[0]) && bs[0].size > 0 &&
      if bs[0].size < |s| then ReadsAll(s[bs[0].size..], offset + bs[0].size, bs[1..]) else |bs| == 1
  }

  lemma {:induction false} ParseReads(s: seq<byte>, offset: nat)
    requires Parsable(s)
    ensures Reads(s, offset, ParseBox(s, offset))
    decreases |s|, 0
  {
    hide BE, ParseAll, ParsableAll, ReadsAll;
    if Inside(s) != [] {
      ParseReadsAll(Inside(s), 8);
    }
  }

  lemma {:induction false} ParseReadsAll(s: seq<byte>, offset: nat)
    requires ParsableAll(s, offset)
    ensures ReadsAll(s, offset, ParseAll(s, offset))
    decreases |s|, 1
  {
    hide BE, Parsable, ParseBox, Reads, SizeAt;
    if s != [] {
      ParseHead(s, offset);
      ParseReads(s, offset);
      var n := SizeAt(s);
      if n < |s| {
        ParseReadsAll(s[n..], offset + n);
        assert ParseAll(s, offset)[1..] == ParseAll(s[n..], offset + n);
      }
    }
  }

  /** Boxes that start at from, leave no gap, and of which the last alone reaches the end or beyond. */
  ghost predicate Tiles(boxes: seq<Parsed>, from: nat, total: nat)
  {
    (boxes == [] <==> from == total) &&
    (boxes != [] ==> boxes[0].offset == from && boxes[|boxes| - 1].offset < total <=
                     boxes[|boxes| - 1].offset + boxes[|boxes| - 1].size) &&
    forall i :: 0 <= i < |boxes| - 1 ==> boxes[i + 1].offset == boxes[i].offset + boxes[i].size
  }

  lemma {:induction false} ReadsTile(s: seq<byte>, offset: nat, bs: seq<Parsed>)
    requires ReadsAll(s, offset, bs)
    ensures Tiles(bs, offset, offset + |s|)
    decreases |s|
  {
    hide Holds, BE;
    if s != [] {
      if bs[0].size < |s| {
        ReadsTile(s[bs[0].size..], offset + bs[0].size, bs[1..]);
        assert bs == [bs[0]] + bs[1..];
      } else {
        assert bs == [bs[0]] + [];
      }
      TilesCons(bs[0], bs[1..], offset, offset + |s|);
    }
  }

  lemma EmptyTiles(total: nat)
    ensures Tiles([], total, total)
  {
  }

  lemma {:induction false} TilesCons(b: Parsed, rest: seq<Parsed>, from: nat, total: nat)
    requires b.offset == from < total && b.size > 0
    requires if b.size < total - from then Tiles(rest, from + b.size, total) else rest == []
    ensures Tiles([b] + rest, from, total)
  {
    var boxes := [b] + rest;
    if rest != [] {
      assert boxes[|boxes| - 1] == rest[|rest| - 1];
    }
    forall i | 0 <= i < |boxes| - 1
      ensures boxes[i + 1].offset == boxes[i].offset + boxes[i].size
    {
      assert boxes[i + 1] == rest[i];
      if i > 0 {
        assert boxes[i] == rest[i - 1] && rest[i].offset == rest[i - 1].offset + rest[i - 1].size;
      }
    }
  }

  /** Which boxes are reported with children: those of the five types that end inside s and hold anything. */
  lemma {:induction false} ChildrenIff(s: seq<byte>, offset: nat, b: Parsed)
    requires Reads(s, offset, b) && |s| >= 8
    ensures b.children != [] <==>
            8 < BE(s[..4]) <= |s| && BE(s[4..8]) in {0x6d6f6f76, 0x7472616b, 0x6d646961, 0x6d6f6f66, 0x74726166}
    ensures b.children != [] ==> Tiles(b.children, 8, b.size)
  {
    hide BE;
    if 8 < b.size <= |s| && Holds(b.kind) {
      ReadsTile(s[8..b.size], 8, b.children);
    }
  }

  // ----- the byte macros -----

  function Word(a: int, b: int, c: int, d: int): int
  {
    a * 0x100_0000 + b * 0x1_0000 + c * 0x100 + d
  }

  lemma {:induction false} BE4(s: seq<byte>)
    requires |s| == 4
    ensures BE(s) == Word(s[0], s[1], s[2], s[3])
  {
    var a, b, c := s[..3], s[..2], s[..1];
    assert a[..2] == b && b[..1] == c && c[..0] == [];
    assert BE(c) == BE(c[..0]) * 256 + s[0];
    assert BE(b) == BE(c) * 256 + s[1];
    assert BE(a) == BE(b) * 256 + s[2];
    assert s[..|s| - 1] == a;
  }

  method ReadU32(buf: array<byte>, at: nat) returns (v: nat)
    requires at + 4 <= buf.Length
    ensures v == BE(buf[..][at..at + 4])
  {
    BE4(buf[..][at..at + 4]);
    v := Word(buf[at], buf[at + 1], buf[at + 2], buf[at + 3]);
  }

  method WriteU32(buf: array<byte>, at: nat, v: int)
    requires at + 4 <= buf.Length
    modifies buf
    ensures buf[..][at..at + 4] == ToBE(v, 4)
    ensures SameOutside(old(buf[..]), buf[..], at, at + 4)
  {
    ToBE4(v);
    buf[at] := v / 0x100_0000 % 256;
    buf[at + 1] := v / 0x1_0000 % 256;
    buf[at + 2] := v / 256 % 256;
    buf[at + 3] := v % 256;
  }

  // ----- the parser -----

  /** constructBox without size correction: buf[hdr..hdr + maxSz) is the rest of the container. */
  method ConstructBox(buf: array<byte>, hdr: nat, maxSz: nat, offset: nat) returns (b: Parsed)
    requires hdr + maxSz <= buf.Length && maxSz < TWO32 && Parsable(buf[..][hdr..hdr + maxSz])
    ensures b == ParseBox(buf[..][hdr..hdr + maxSz], offset) && Reads(buf[..][hdr..hdr + maxSz], offset, b)
    ensures maxSz >= 8 ==>
            var size, kind := BE(buf[..][hdr..hdr + 4]), BE(buf[..][hdr + 4..hdr + 8]);
            (b.children != [] <==>
               8 < size <= maxSz && kind in {0x6d6f6f76, 0x7472616b, 0x6d646961, 0x6d6f6f66, 0x74726166}) &&
            (b.children != [] ==> Tiles(b.children, 8, size))
    decreases maxSz, 1
  {
    hide BE, Parsable, ParseBox, Inside, ParseAll, ParsableAll, Reads, Holds, Tiles;
    ghost var s := buf[..][hdr..hdr + maxSz];
    BoxCases(s, offset);
    ParseReads(s, offset);
    if maxSz >= 8 {
      ChildrenIff(s, offset, ParseBox(s, offset));
      assert s[..4] == s[0..4];
    }
    if maxSz < 8 {
      return Parsed(offset, maxSz, UKWN, []);
    }
    SubSlice(buf[..], hdr, hdr + maxSz, 0, 4);
    SubSlice(buf[..], hdr, hdr + maxSz, 4, 8);
    var size := ReadU32(buf, hdr);
    var kind := ReadU32(buf, hdr + 4);
    if size <= maxSz && HasChildren(kind) {
      if size > 8 {
        SubSlice(buf[..], hdr, hdr + maxSz, 8, size);
      }
      var children := ConstructContainer(buf, size, hdr + 8);
      return Parsed(offset, size, kind, children);
    }
    return Parsed(offset, size, kind, []);
  }

  /** What the branches of constructBox make of the bytes. */
  lemma BoxCases(s: seq<byte>, offset: nat)
    requires Parsable(s)
    ensures |s| < 8 ==> ParseBox(s, offset) == Parsed(offset, |s|, UKWN, [])
    ensures |s| >= 8 ==>
            var n, k := BE(s[..4]), BE(s[4..8]);
            var inner := 8 < n <= |s| && HasChildren(k);
            (inner ==> ParsableAll(s[8..n], 8)) &&
            ParseBox(s, offset) == Parsed(offset, n, k, if inner then ParseAll(s[8..n], 8) else [])
  {
    hide BE;
  }

  /** constructContainer: the loop that fills children; ptr is just past the container header. */
  method ConstructContainer(buf: array<byte>, sz: nat, ptr: nat) returns (children: seq<Parsed>)
    requires sz < TWO32
    requires sz > 8 ==> ptr + sz - 8 <= buf.Length && ParsableAll(buf[..][ptr..ptr + sz - 8], 8)
    ensures children == if sz > 8 then ParseAll(buf[..][ptr..ptr + sz - 8], 8) else []
    decreases sz, 0
  {
    hide *;
    children := [];
    var curOffset := 8;
    var cur := ptr;
    ghost var s := if sz > 8 then buf[..][ptr..ptr + sz - 8] else [];
    FillStart(s);
    while curOffset < sz
      invariant curOffset >= 8 && cur == ptr + curOffset - 8
      invariant Filled(s, curOffset - 8, children)
      decreases sz - curOffset
    {
      FillStep(s, curOffset - 8, children);
      assert s[curOffset - 8..] == buf[..][cur..ptr + sz - 8];
      var box := ConstructBox(buf, cur, sz - curOffset, curOffset);
      children := children + [box];
      curOffset := curOffset + box.size;
      cur := cur + box.size;
    }
    FillEnd(s, curOffset - 8, children);
  }

  /** children are the first boxes of s, up to at. */
  ghost predicate Filled(s: seq<byte>, at: nat, children: seq<Parsed>)
  {
    if at < |s| then
      ParsableAll(s[at..], at + 8) && ParseAll(s, 8) == children + ParseAll(s[at..], at + 8)
    else ParseAll(s, 8) == children
  }

  lemma FillStart(s: seq<byte>)
    requires ParsableAll(s, 8)
    ensures Filled(s, 0, [])
  {
    assert s[0..] == s;
  }

  lemma FillEnd(s: seq<byte>, at: nat, children: seq<Parsed>)
    requires Filled(s, at, children) && at >= |s|
    ensures children == ParseAll(s, 8)
  {
  }

  /** One turn of the loop. */
  lemma {:induction false} FillStep(s: seq<byte>, at: nat, children: seq<Parsed>)
    requires at < |s| && Filled(s, at, children)
    ensures var b := ParseBox(s[at..], at + 8);
            Parsable(s[at..]) && b.size > 0 && at + 8 + b.size < TWO32 && Filled(s, at + b.size, children + [b])
  {
    hide BE, Inside, Parsable, ParseBox, ParseAll, ParsableAll, SizeAt;
    var t := s[at..];
    ParseHead(t, at + 8);
    var n := SizeAt(t);
    if n < |t| {
      assert t[n..] == s[at + n..];
    }
  }

  /** The first child of a run of children, and what is left behind it. */
  lemma ParseHead(s: seq<byte>, offset: nat)
    requires s != [] && ParsableAll(s, offset)
    ensures var n := SizeAt(s);
            Parsable(s) && n > 0 && offset + n < TWO32 && ParseBox(s, offset).size == n &&
            (n < |s| ==> ParsableAll(s[n..], offset + n)) &&
            ParseAll(s, offset) == [ParseBox(s, offset)] + (if n < |s| then ParseAll(s[n..], offset + n) else [])
  {
    hide BE, Inside, HasChildren;
  }

  // ----- parse of print -----

  /** The tree of boxes as the parser should report it. */
  function View(b: Box, offset: nat): Parsed
    decreases b, 0
  {
    Parsed(offset, Size(b), Kind(b), if b.Container? && HasChildren(b.kind) then ViewAll(b.children, 8) else [])
  }

  function ViewAll(bs: seq<Box>, offset: nat): seq<Parsed>
    decreases bs, 1
  {
    if bs == [] then [] else [View(bs[0], offset)] + ViewAll(bs[1..], offset + Size(bs[0]))
  }

  lemma {:induction false} ParseBoxOfSer(b: Box, rest: seq<byte>, offset: nat)
    requires WellFormed(b)
    ensures Parsable(Ser(b) + rest) && SizeAt(Ser(b) + rest) == Size(b)
    ensures ParseBox(Ser(b) + rest, offset) == View(b, offset)
    decreases b, 0
  {
    hide Ser, Body, Kind, BE, ToBE, Pow256, SerAll;
    var s := Ser(b) + rest;
    SerFront(b, rest);
    ContainerKind(b);
    if HasChildren(Kind(b)) {
      Mp4Demux.NoPrelude(b);
      SerAllLength(b);
      ParseOfSer(b.children, 8);
      Mp4Demux.SerAllEmpty(b.children);
    }
  }

  lemma ContainerKind(b: Box)
    requires WellFormed(b)
    ensures HasChildren(Kind(b)) <==> b.Container? && HasChildren(b.kind)
    ensures HasChildren(Kind(b)) ==> PureContainer(b.kind) && WellFormedAll(b.children)
  {
    Mp4Demux.KindIsShape(b);
  }

  lemma {:induction false} SerFront(b: Box, rest: seq<byte>)
    requires WellFormed(b)
    ensures var s := Ser(b) + rest;
            8 <= Size(b) <= |s| && BE(s[..4]) == Size(b) && BE(s[4..8]) == Kind(b) &&
            s[8..Size(b)] == Body(b) && s[Size(b)..] == rest
  {
    hide Ser, Body, Kind, BE, ToBE, SerAll, WellFormed;
    var s := Ser(b) + rest;
    assert s[0..|Ser(b)|] == Ser(b) && s[|Ser(b)|..] == rest;
    Mp4Demux.SerAllEmpty([b]);
    SingleWellFormed(b);
    SingleSer(b);
    Mp4Demux.BoxHeader(Ser(b), 0, |Ser(b)|, [b]);
    assert s[..4] == Ser(b)[0..4] && s[4..8] == Ser(b)[4..8] && s[8..Size(b)] == Ser(b)[8..Size(b)];
  }

  lemma SingleWellFormed(b: Box)
    requires WellFormed(b)
    ensures WellFormedAll([b])
  {
    assert [b][1..] == [];
  }

  lemma SingleSer(b: Box)
    ensures Ser(b)[0..|Ser(b)|] == SerAll([b])
  {
    hide Ser;
    SerAllUnfold([b]);
    assert [b][1..] == [];
    assert Ser(b) + [] == Ser(b);
  }

  lemma SerAllLength(b: Box)
    requires b.Container? && b.prelude == []
    ensures Size(b) == 8 + |SerAll(b.children)|
  {
  }

  /** Parsing the bytes of well-formed boxes gives the boxes, at the offsets their sizes add up to. */
  lemma {:induction false} ParseOfSer(bs: seq<Box>, offset: nat)
    requires WellFormedAll(bs) && offset + |SerAll(bs)| < TWO32
    ensures ParsableAll(SerAll(bs), offset) && ParseAll(SerAll(bs), offset) == ViewAll(bs, offset)
    decreases bs, 1
  {
    hide Ser, Body, Kind, BE, ToBE, Pow256, SerAll, WellFormed, Parsable, ParseBox, View, Inside;
    Mp4Demux.SerAllEmpty(bs);
    if bs != [] {
      var b, rest := bs[0], SerAll(bs[1..]);
      SerAllUnfold(bs);
      Mp4Demux.HeaderFits(bs);
      ParseBoxOfSer(b, rest, offset);
      SerFront(b, rest);
      ParseOfSer(bs[1..], offset + Size(b));
      Mp4Demux.SerAllEmpty(bs[1..]);
    }
  }

  lemma {:induction false} ViewConcat(a: seq<Box>, b: seq<Box>, offset: nat)
    ensures ViewAll(a + b, offset) == ViewAll(a, offset) + ViewAll(b, offset + |SerAll(a)|)
  {
    hide Size, SerAll, View;
    Mp4Demux.SerAllEmpty(a);
    if a == [] {
      assert a + b == b;
    } else {
      ViewConcat(a[1..], b, offset + Size(a[0]));
      ConcatTail(a, b);
      SerAllUnfold(a);
    }
  }
}
