/**
 PlayerIsoBmffBuffer::parseBuffer: the top-level boxes of a buffer, and the chunked box at its end.
 */
module IsoBmffBuffer {
  import opened Bytes
  import opened Boxes
  import opened IsoBmffBox
  import Mp4Demux
  import opened Wrappers

  // ----- specification -----

  /** The rest of the buffer after size correction: a size beyond the end is cut to the end. */
  function Corrected(s: seq<byte>, correct: bool): (t: seq<byte>)
    ensures |t| == |s|
  {
    if correct && |s| >= 8 && BE(s[..4]) > |s| then ToBE(|s|, 4) + s[4..] else s
  }

  /** The boxes found in s. */
  function TopBoxes(s: seq<byte>, offset: nat, correct: bool): seq<Parsed>
    decreases |s|
  {
    if s == [] then []
    else
      var t := Corrected(s, correct);
      var n := SizeAt(t);
      [ParseBox(t, offset)] + (if 0 < n < |s| then TopBoxes(s[n..], offset + n, correct) else [])
  }

  /** The bytes left in the buffer. */
  function TopBytes(s: seq<byte>, correct: bool): (t: seq<byte>)
    ensures |t| == |s|
    decreases |s|
  {
    if s == [] then []
    else
      var t := Corrected(s, correct);
      var n := SizeAt(t);
      if 0 < n < |s| then t[..n] + TopBytes(s[n..], correct) else t
  }

  /** No zero-size header on the way, at any level. */
  predicate TopParsable(s: seq<byte>, correct: bool)
    decreases |s|
  {
    s == [] ||
    (var t := Corrected(s, correct);
     Parsable(t) && (SizeAt(t) < |s| ==> TopParsable(s[SizeAt(t)..], correct)))
  }

  /**
   The same as a relation: bs are the boxes found in s, t the bytes left. Only a box that says more than is left has
   its size field rewritten, to what is left, and only if that is asked for.
   */
  ghost predicate ReadsTop(s: seq<byte>, offset: nat, correct: bool, bs: seq<Parsed>, t: seq<byte>)
    decreases |s|
  {
    if s == [] then bs == [] && t == []
    else
      var u := if correct && |s| >= 8 && BE(s[..4]) > |s| then ToBE(|s|, 4) + s[4..] else s;
      bs != [] && Reads(u, offset, bs[0]) && bs[0].size > 0 && |t| == |s| &&
      var n := bs[0].size;
      if n < |s| then t[..n] == u[..n] && ReadsTop(s[n..], offset + n, correct, bs[1..], t[n..]) else |bs| == 1 && t == u
  }

  lemma {:induction false} TopReads(s: seq<byte>, offset: nat, correct: bool)
    requires |s| < TWO32 && TopParsable(s, correct)
    ensures ReadsTop(s, offset, correct, TopBoxes(s, offset, correct), TopBytes(s, correct))
    decreases |s|
  {
    hide BE, ToBE, Parsable, ParseBox, Reads, SizeAt, TopBoxes, TopBytes;
    if s == [] {
      NothingLeft(offset, correct);
    } else {
      var t := Corrected(s, correct);
      ParseReads(t, offset);
      SizeOfParsed(t, offset);
      TopParsableHead(t);
      Unfold(s, offset, correct);
      var n := SizeAt(t);
      if n < |s| {
        TopReads(s[n..], offset + n, correct);
        assert TopBoxes(s, offset, correct)[1..] == TopBoxes(s[n..], offset + n, correct);
        assert TopBytes(s, correct)[n..] == TopBytes(s[n..], correct) && TopBytes(s, correct)[..n] == t[..n];
      }
    }
  }

  // ----- the code -----

  /** constructBox with the size correction that parseBuffer may ask for. */
  method ConstructTopBox(buf: array<byte>, hdr: nat, maxSz: nat, correct: bool, offset: nat) returns (b: Parsed)
    requires hdr + maxSz <= buf.Length && maxSz < TWO32
    requires Parsable(Corrected(buf[..][hdr..hdr + maxSz], correct))
    modifies buf
    ensures SameOutside(old(buf[..]), buf[..], hdr, hdr + maxSz)
    ensures buf[..][hdr..hdr + maxSz] == Corrected(old(buf[..][hdr..hdr + maxSz]), correct)
    ensures b == ParseBox(buf[..][hdr..hdr + maxSz], offset)
  {
    hide BE, ToBE, Parsable, ParseBox;
    ghost var was := buf[..];
    if maxSz >= 8 {
      SubSlice(was, hdr, hdr + maxSz, 0, 4);
      assert was[hdr..hdr + maxSz][0..4] == was[hdr..hdr + maxSz][..4];
      var size := ReadU32(buf, hdr);
      if size > maxSz && correct {
        WriteU32(buf, hdr, maxSz);
        SliceOutside(was, buf[..], hdr, hdr + 4, hdr + 4, hdr + maxSz);
        Glue2(buf[..], hdr, hdr + 4, hdr + maxSz);
        assert was[hdr + 4..hdr + maxSz] == was[hdr..hdr + maxSz][4..];
      }
    }
    b := ConstructBox(buf, hdr, maxSz, offset);
  }

  class PlayerIsoBmffBuffer {
    const buffer: array<byte>
    const bufSize: nat
    var boxes: seq<Parsed>
    var chunkedBox: Option<Parsed>

    constructor (buf: array<byte>, sz: nat)
      requires sz <= buf.Length
      ensures buffer == buf && bufSize == sz && boxes == [] && chunkedBox == None
    {
      buffer := buf;
      bufSize := sz;
      boxes := [];
      chunkedBox := None;
    }

    method parseBuffer(correctBoxSize: bool) returns (ok: bool)
      requires bufSize <= buffer.Length && bufSize < TWO32 && boxes == [] && chunkedBox == None
      requires TopParsable(buffer[..][..bufSize], correctBoxSize)
      modifies this, buffer
      ensures boxes == TopBoxes(old(buffer[..][..bufSize]), 0, correctBoxSize) && ok == (boxes != [])
      ensures buffer[..][..bufSize] == TopBytes(old(buffer[..][..bufSize]), correctBoxSize)
      ensures buffer[..][bufSize..] == old(buffer[..][bufSize..])
      ensures ReadsTop(old(buffer[..][..bufSize]), 0, correctBoxSize, boxes, buffer[..][..bufSize])
      ensures chunkedBox == LastIfChunked(boxes, bufSize)
      ensures chunkedBox.Some? <==>
              boxes != [] && (bufSize - boxes[|boxes| - 1].offset < 4 ||
                              bufSize < boxes[|boxes| - 1].offset + boxes[|boxes| - 1].size)
      ensures chunkedBox.Some? ==> chunkedBox.value == boxes[|boxes| - 1]
    {
      hide BE, ToBE, Parsable, ParseBox, TopBoxes, TopBytes, TopParsable, Corrected, SameOutside, SizeAt, LastIfChunked,
        Midway, ReadsTop;
      var curOffset := 0;
      ghost var was, s, rest := buffer[..], buffer[..][..bufSize], buffer[..][..bufSize];
      Start(was, bufSize, correctBoxSize);
      while curOffset < bufSize
        invariant |rest| == if curOffset < bufSize then bufSize - curOffset else 0
        invariant TopParsable(rest, correctBoxSize) && buffer[..][bufSize - |rest|..bufSize] == rest
        invariant Midway(was, buffer[..], s, boxes, rest, curOffset, bufSize, correctBoxSize)
        invariant chunkedBox == if curOffset < bufSize then None else LastIfChunked(boxes, bufSize)
        decreases bufSize - curOffset
      {
        ghost var done, mid := boxes, buffer[..];
        ghost var b, left := TopStep(rest, curOffset, correctBoxSize);
        var box := ConstructTopBox(buffer, curOffset, bufSize - curOffset, correctBoxSize, curOffset);
        if bufSize - curOffset < 4 || bufSize - curOffset < box.size {
          chunkedBox := Some(box);
        }
        boxes := boxes + [box];
        Advance(was, mid, buffer[..], s, done, box, rest, left, curOffset, bufSize, correctBoxSize);
        LastAppended(done, box, bufSize);
        curOffset := curOffset + box.size;
        rest := left;
      }
      Finish(was, buffer[..], s, boxes, curOffset, bufSize, correctBoxSize);
      TopReads(s, 0, correctBoxSize);
      ChunkedIff(boxes, bufSize);
      ok := boxes != [];
    }
  }

  /** How far parseBuffer is: rest is still to be parsed, the first box of it at offset cur. */
  ghost predicate Midway(was: seq<byte>, now: seq<byte>, s: seq<byte>, boxes: seq<Parsed>, rest: seq<byte>, cur: nat,
                         total: nat, correct: bool)
  {
    |rest| <= total <= |was| && SameOutside(was, now, 0, total) && |now| == |was| &&
    TopBytes(s, correct) == now[..total - |rest|] + TopBytes(rest, correct) &&
    TopBoxes(s, 0, correct) == boxes + TopBoxes(rest, cur, correct)
  }

  lemma Start(was: seq<byte>, total: nat, correct: bool)
    requires total <= |was|
    ensures Midway(was, was, was[..total], [], was[..total], 0, total, correct) && LastIfChunked([], total) == None
    ensures was[0..total] == was[..total]
  {
    hide TopBoxes, TopBytes;
    Unchanged(was, 0, total);
    assert was[..0] == [];
  }

  lemma {:induction false} Finish(was: seq<byte>, now: seq<byte>, s: seq<byte>, boxes: seq<Parsed>, cur: nat, total: nat,
                                  correct: bool)
    requires Midway(was, now, s, boxes, [], cur, total, correct)
    ensures boxes == TopBoxes(s, 0, correct) && now[..total] == TopBytes(s, correct) && now[total..] == was[total..]
  {
    NothingLeft(cur, correct);
    SliceOutside(was, now, 0, total, total, |was|);
  }

  lemma {:induction false} Advance(was: seq<byte>, mid: seq<byte>, now: seq<byte>, s: seq<byte>, done: seq<Parsed>,
                                   b: Parsed, rest: seq<byte>, left: seq<byte>, cur: nat, total: nat, correct: bool)
    requires cur < total && |rest| == total - cur && Midway(was, mid, s, done, rest, cur, total, correct)
    requires mid[cur..total] == rest && SameOutside(mid, now, cur, total) && |now| == |mid|
    requires now[cur..total] == Corrected(rest, correct)
    requires b.size > 0 && left == if b.size < |rest| then rest[b.size..] else []
    requires b.size < |rest| ==> Corrected(rest, correct) == rest
    requires TopBoxes(rest, cur, correct) == [b] + TopBoxes(left, cur + b.size, correct)
    requires TopBytes(rest, correct) == Corrected(rest, correct)[..|rest| - |left|] + TopBytes(left, correct)
    ensures Midway(was, now, s, done + [b], left, cur + b.size, total, correct) && now[total - |left|..total] == left
  {
    hide TopBytes, Corrected, SameOutside, TopBoxes;
    StepAppend(done, b, TopBoxes(left, cur + b.size, correct));
    TopBytesStep(was, mid, now, s, cur, total, b.size, rest, left, correct);
  }

  lemma NothingLeft(offset: nat, correct: bool)
    ensures TopBoxes([], offset, correct) == [] && TopBytes([], correct) == []
  {
  }

  /** One turn of the loop on the specification side: the first box and the bytes behind it. */
  lemma {:induction false} TopStep(r: seq<byte>, offset: nat, correct: bool) returns (b: Parsed, left: seq<byte>)
    requires r != [] && |r| < TWO32 && TopParsable(r, correct)
    ensures var t := Corrected(r, correct);
            b == ParseBox(t, offset) && left == (if b.size < |r| then r[b.size..] else []) &&
            Parsable(t) && b.size > 0 && b.offset == offset && TopParsable(left, correct) &&
            (b.size < |r| ==> t == r && |r| >= 8) &&
            TopBoxes(r, offset, correct) == [b] + TopBoxes(left, offset + b.size, correct) &&
            TopBytes(r, correct) == t[..|r| - |left|] + TopBytes(left, correct)
  {
    hide Parsable, Corrected, ParseBox, SizeAt;
    var t := Corrected(r, correct);
    b, left := ParseBox(t, offset), [];
    CorrectedSize(r, correct);
    TopParsableHead(t);
    SizeOfParsed(t, offset);
    ShortSize(t);
    if SizeAt(t) < |r| {
      left := r[b.size..];
    } else {
      assert t[..|r|] == t && t + [] == t;
    }
  }

  lemma TopParsableHead(t: seq<byte>)
    requires Parsable(t)
    ensures SizeAt(t) > 0
  {
  }

  lemma ShortSize(t: seq<byte>)
    ensures SizeAt(t) < |t| ==> |t| >= 8
  {
  }

  /** A corrected box fills what is left; any other box is as it was. */
  lemma {:induction false} CorrectedSize(r: seq<byte>, correct: bool)
    requires |r| < TWO32 || !correct
    ensures Corrected(r, correct) == r || SizeAt(Corrected(r, correct)) == |r|
    ensures correct ==> SizeAt(Corrected(r, correct)) <= |r|
  {
    hide ToBE, BE;
    if correct && |r| >= 8 && BE(r[..4]) > |r| {
      Widths();
      BEOfToBE(|r|, 4);
      assert (ToBE(|r|, 4) + r[4..])[..4] == ToBE(|r|, 4);
    }
  }

  lemma {:induction false} TopBytesStep(was: seq<byte>, mid: seq<byte>, now: seq<byte>, s: seq<byte>, cur: nat,
                                        total: nat, n: nat, rest: seq<byte>, left: seq<byte>, correct: bool)
    requires left == if n < |rest| then rest[n..] else []
    requires cur < total <= |was| && |rest| == total - cur && n > 0 && |now| == |mid| == |was|
    requires SameOutside(was, mid, 0, total) && mid[cur..total] == rest && SameOutside(mid, now, cur, total)
    requires now[cur..total] == Corrected(rest, correct)
    requires n < |rest| ==> Corrected(rest, correct) == rest
    requires TopBytes(s, correct) == mid[..cur] + TopBytes(rest, correct)
    requires TopBytes(rest, correct) == Corrected(rest, correct)[..|rest| - |left|] + TopBytes(left, correct)
    ensures SameOutside(was, now, 0, total)
    ensures now[total - |left|..total] == left &&
            TopBytes(s, correct) == now[..total - |left|] + TopBytes(left, correct)
  {
    hide TopBytes, Corrected, SameOutside;
    SameOutsideTrans(was, mid, now, 0, total, cur, total);
    SliceOutside(mid, now, cur, total, 0, cur);
    assert mid[..cur] == mid[0..cur] == now[0..cur] == now[..cur];
    var k := |rest| - |left|;
    SubSlice(now, cur, total, 0, k);
    SubSlice(now, cur, total, k, |rest|);
    assert now[cur..total][0..k] == Corrected(rest, correct)[..k];
    assert now[..cur + k] == now[..cur] + now[cur..cur + k];
    assert now[cur..total][k..|rest|] == if n < |rest| then rest[n..] else [];
  }

  lemma StepAppend(done: seq<Parsed>, b: Parsed, rest: seq<Parsed>)
    ensures done + ([b] + rest) == (done + [b]) + rest
  {
  }

  /** The box parseBuffer keeps as chunked: the last, if it overruns the buffer or the tail is under 4 bytes. */
  function LastIfChunked(boxes: seq<Parsed>, total: nat): Option<Parsed>
  {
    if boxes == [] then None
    else
      var last := boxes[|boxes| - 1];
      if total - last.offset < 4 || total - last.offset < last.size then Some(last) else None
  }

  lemma ChunkedIff(boxes: seq<Parsed>, total: nat)
    ensures LastIfChunked(boxes, total).Some? <==>
            boxes != [] && (total - boxes[|boxes| - 1].offset < 4 ||
                            total < boxes[|boxes| - 1].offset + boxes[|boxes| - 1].size)
    ensures LastIfChunked(boxes, total).Some? ==> LastIfChunked(boxes, total).value == boxes[|boxes| - 1]
  {
  }

  lemma LastAppended(done: seq<Parsed>, b: Parsed, total: nat)
    ensures LastIfChunked(done + [b], total) ==
            if total - b.offset < 4 || total - b.offset < b.size then Some(b) else None
  {
  }

  // ----- laws -----

  lemma {:induction false} TopBoxesTile(s: seq<byte>, offset: nat, correct: bool)
    requires |s| < TWO32 && TopParsable(s, correct)
    ensures Tiles(TopBoxes(s, offset, correct), offset, offset + |s|)
    decreases |s|
  {
    hide TopParsable, Corrected, ParseBox, TopBoxes, Tiles;
    if s == [] {
      EmptyTiles(offset);
      NothingLeft(offset, correct);
    } else {
      var b, left := TopStep(s, offset, correct);
      TopBoxesTile(left, offset + b.size, correct);
      NothingLeft(offset + b.size, correct);
      TilesCons(b, TopBoxes(left, offset + b.size, correct), offset, offset + |s|);
    }
  }

  /** With size correction the last box ends where the buffer ends. */
  lemma {:induction false} CorrectedEndsExactly(s: seq<byte>, offset: nat)
    requires s != [] && |s| < TWO32 && TopParsable(s, true)
    ensures var boxes := TopBoxes(s, offset, true);
            boxes != [] && boxes[|boxes| - 1].offset + boxes[|boxes| - 1].size == offset + |s|
    decreases |s|
  {
    hide TopParsable, Corrected, ParseBox, TopBoxes;
    var b, left := TopStep(s, offset, true);
    CorrectedSize(s, true);
    SizeOfParsed(Corrected(s, true), offset);
    NothingLeft(offset + b.size, true);
    if left != [] {
      CorrectedEndsExactly(left, offset + b.size);
    }
  }

  lemma SizeOfParsed(t: seq<byte>, offset: nat)
    ensures ParseBox(t, offset).size == SizeAt(t) && ParseBox(t, offset).offset == offset
  {
  }

  /** Where the last box starts, the only one whose size field may be rewritten; told from the sizes on the way. */
  function CutAt(s: seq<byte>): (d: nat)
    ensures d <= |s|
    decreases |s|
  {
    if s != [] && 0 < SizeAt(s) < |s| then SizeAt(s) + CutAt(s[SizeAt(s)..]) else 0
  }

  /** The last box says more than is left of the buffer, so its size is rewritten. */
  predicate IsCut(s: seq<byte>)
  {
    var d := CutAt(s);
    |s| - d >= 8 && BE(s[d..d + 4]) > |s| - d
  }

  /** Where the new size field of the last box overlaps the header at the front of s, it says what is there. */
  predicate HeaderSpared(s: seq<byte>)
  {
    var d := CutAt(s);
    IsCut(s) ==> forall k :: d <= k < d + 4 && k < 8 ==> s[k] == ToBE(|s| - d, 4)[k - d]
  }

  /** No complete box loses header bytes to the size field that is rewritten. */
  predicate Spared(s: seq<byte>)
    decreases |s|
  {
    s == [] || (0 < SizeAt(s) < |s| ==> HeaderSpared(s) && Spared(s[SizeAt(s)..]))
  }

  /** The correction, byte by byte: it rewrites the size field of the last box, or nothing. */
  lemma {:induction false} CutBytes(s: seq<byte>, k: nat)
    requires |s| < TWO32 && k < |s| && TopParsable(s, true)
    ensures TopBytes(s, true)[k] ==
            if IsCut(s) && CutAt(s) <= k < CutAt(s) + 4 then ToBE(|s| - CutAt(s), 4)[k - CutAt(s)] else s[k]
    decreases |s|
  {
    hide ToBE, SizeAt, TopBytes, Parsable, IsCut, CutAt, Corrected;
    var n := SizeAt(s);
    SizeIfCut(s);
    Unfold(s, 0, true);
    TopParsableHead(Corrected(s, true));
    if n < |s| {
      var rest := s[n..];
      CutStep(s);
      if k >= n {
        CutBytes(rest, k - n);
      }
    } else {
      LastBytes(s, k);
    }
  }

  lemma LastBytes(s: seq<byte>, k: nat)
    requires k < |s| && SizeAt(s) >= |s|
    ensures Corrected(s, true)[k] ==
            if IsCut(s) && CutAt(s) <= k < CutAt(s) + 4 then ToBE(|s| - CutAt(s), 4)[k - CutAt(s)] else s[k]
  {
    hide ToBE, BE, SizeAt;
    if |s| >= 8 {
      assert s[0..4] == s[..4];
    }
  }

  lemma SizeIfCut(s: seq<byte>)
    requires s != [] && |s| < TWO32
    ensures SizeAt(s) < |s| ==> Corrected(s, true) == s
    ensures SizeAt(s) >= |s| ==> SizeAt(Corrected(s, true)) == |s|
    ensures Corrected(s, true) != s ==> SizeAt(s) > |s| >= 8
    ensures |s| >= 8 ==> SizeAt(s) == BE(s[0..4])
  {
    hide ToBE, BE;
    CorrectedSize(s, true);
    if |s| >= 8 {
      assert s[0..4] == s[..4];
    }
  }

  lemma CutStep(s: seq<byte>)
    requires s != [] && 0 < SizeAt(s) < |s|
    ensures var n, rest := SizeAt(s), s[SizeAt(s)..];
            CutAt(s) == n + CutAt(rest) && (IsCut(s) <==> IsCut(rest)) && |s| - CutAt(s) == |rest| - CutAt(rest)
  {
    hide BE, SizeAt;
    var n, rest := SizeAt(s), s[SizeAt(s)..];
    var d := CutAt(rest);
    if |rest| - d >= 8 {
      assert rest[d..d + 4] == s[n + d..n + d + 4];
    }
  }

  /** The headers are kept exactly when they are spared. */
  lemma {:induction false} KeptIffSpared(s: seq<byte>)
    requires |s| < TWO32 && TopParsable(s, true)
    ensures HeadersKept(s) <==> Spared(s)
    decreases |s|
  {
    hide ToBE, BE, SizeAt, TopBytes, Parsable, IsCut, Corrected;
    if s != [] {
      var n := SizeAt(s);
      SizeIfCut(s);
      TopParsableHead(Corrected(s, true));
      ShortSize(s);
      if n < |s| {
        KeptIffSpared(s[n..]);
        var u := TopBytes(s, true);
        forall k: nat | k < 8
          ensures u[k] == if IsCut(s) && CutAt(s) <= k < CutAt(s) + 4 then ToBE(|s| - CutAt(s), 4)[k - CutAt(s)] else s[k]
        {
          CutBytes(s, k);
        }
        SameFront(u, s);
      }
    }
  }

  lemma SameFront(u: seq<byte>, s: seq<byte>)
    requires |u| == |s| >= 8
    ensures u[..8] == s[..8] <==> forall k :: 0 <= k < 8 ==> u[k] == s[k]
  {
    if u[..8] == s[..8] {
      assert forall k :: 0 <= k < 8 ==> u[k] == u[..8][k] && s[k] == s[..8][k];
    }
  }

  /** Cutting the last box to the buffer leaves the header bytes of every complete box as they are. */
  predicate HeadersKept(s: seq<byte>)
    decreases |s|
  {
    s == [] ||
    (var n := SizeAt(Corrected(s, true));
     0 < n < |s| ==> TopBytes(s, true)[..if |s| < 8 then |s| else 8] == s[..if |s| < 8 then |s| else 8] &&
                     HeadersKept(s[n..]))
  }

  /** A complete box with the same header and the same bytes inside is the same box. */
  lemma {:induction false} ParsePrefix(t: seq<byte>, u: seq<byte>, offset: nat)
    requires SizeAt(t) <= |t| == |u| && |t| >= 8 && u[..SizeAt(t)] == t[..SizeAt(t)] && u[..8] == t[..8]
    ensures SizeAt(u) == SizeAt(t) && ParseBox(u, offset) == ParseBox(t, offset)
    ensures Parsable(t) ==> Parsable(u)
  {
    hide BE;
    var n := SizeAt(t);
    assert t[..4] == t[..8][..4] == u[..8][..4] == u[..4];
    assert t[4..8] == t[..8][4..8] == u[..8][4..8] == u[4..8];
    if n >= 8 {
      assert t[8..n] == t[..n][8..n] == u[..n][8..n] == u[8..n];
    }
  }

  lemma {:induction false} BEInjective(a: seq<byte>, b: seq<byte>)
    requires |a| == |b| && BE(a) == BE(b)
    ensures a == b
  {
    hide BE, ToBE;
    ToBEOfBE(a);
    ToBEOfBE(b);
  }

  /** With another header the box gets another size or another type. */
  lemma {:induction false} OtherHeader(t: seq<byte>, u: seq<byte>, offset: nat, again: bool)
    requires 8 <= |t| == |u| < TWO32 && SizeAt(t) < |t| && u[..8] != t[..8]
    ensures ParseBox(Corrected(u, again), offset) != ParseBox(t, offset)
  {
    hide BE, ToBE;
    var c := Corrected(u, again);
    CorrectedSize(u, again);
    if u[..4] == t[..4] {
      assert u[..8] == u[..4] + u[4..8] && t[..8] == t[..4] + t[4..8];
      if BE(u[4..8]) == BE(t[4..8]) {
        BEInjective(u[4..8], t[4..8]);
      }
      assert c == u;
    } else if BE(u[..4]) == BE(t[..4]) {
      BEInjective(u[..4], t[..4]);
    }
  }

  /**
   Parsing the corrected buffer again, with or without correction, gives the same list if and only if the headers of
   the complete boxes are spared; then it meets no zero-size header either, and so it ends.
   */
  lemma {:induction false} ReparseIsStable(s: seq<byte>, offset: nat, again: bool)
    requires |s| < TWO32 && TopParsable(s, true)
    ensures TopBoxes(TopBytes(s, true), offset, again) == TopBoxes(s, offset, true) <==> Spared(s)
    ensures Spared(s) ==> TopBytes(TopBytes(s, true), again) == TopBytes(s, true) && TopParsable(TopBytes(s, true), again)
  {
    hide TopBoxes, TopBytes, Spared, HeadersKept, TopParsable;
    KeptIffSpared(s);
    ReparseIfKept(s, offset, again);
    if Spared(s) {
      ReparseEnds(s, again);
    }
  }

  lemma {:induction false} ReparseEnds(s: seq<byte>, again: bool)
    requires |s| < TWO32 && TopParsable(s, true) && HeadersKept(s)
    ensures TopParsable(TopBytes(s, true), again)
    decreases |s|
  {
    hide Parsable, Corrected, ParseBox, SizeAt, TopBytes, HeadersKept;
    KeptUnfold(s);
    if s == [] {
      NothingLeft(0, true);
    } else {
      var t := Corrected(s, true);
      var u := TopBytes(s, true);
      var n := SizeAt(t);
      CorrectedSize(s, true);
      TopParsableHead(t);
      ShortSize(t);
      Unfold(s, 0, true);
      if n < |s| {
        assert u[..n] == t[..n] && u[n..] == TopBytes(s[n..], true);
        SizeIfCut(s);
        ParsePrefix(t, u, 0);
        FitsUncorrected(u, again);
        ReparseEnds(s[n..], again);
      } else {
        FitsUncorrected(t, again);
      }
    }
  }

  lemma {:induction false} ReparseIfKept(s: seq<byte>, offset: nat, again: bool)
    requires |s| < TWO32 && TopParsable(s, true)
    ensures TopBoxes(TopBytes(s, true), offset, again) == TopBoxes(s, offset, true) <==> HeadersKept(s)
    ensures HeadersKept(s) ==> TopBytes(TopBytes(s, true), again) == TopBytes(s, true)
    decreases |s|
  {
    hide Parsable, Corrected, ParseBox, SizeAt, TopBoxes, TopBytes, HeadersKept;
    NothingLeft(offset, again);
    NothingLeft(offset, true);
    KeptUnfold(s);
    if s != [] {
      var t := Corrected(s, true);
      var u := TopBytes(s, true);
      var n := SizeAt(t);
      CorrectedSize(s, true);
      TopParsableHead(t);
      ShortSize(t);
      Unfold(s, offset, true);
      Unfold(u, offset, again);
      if n < |s| {
        var left := s[n..];
        assert u[..n] == t[..n] && u[n..] == TopBytes(left, true);
        if u[..8] == s[..8] {
          ReparseIfKept(left, offset + n, again);
          ParsePrefix(t, u, offset);
          FitsUncorrected(u, again);
          HeadTail(ParseBox(t, offset), TopBoxes(u[n..], offset + n, again), TopBoxes(left, offset + n, true));
        } else {
          OtherHeader(t, u, offset, again);
          assert TopBoxes(u, offset, again)[0] != TopBoxes(s, offset, true)[0];
        }
      } else {
        assert u == t;
        FitsUncorrected(t, again);
      }
    }
  }

  lemma Unfold(s: seq<byte>, offset: nat, correct: bool)
    requires s != []
    ensures var t := Corrected(s, correct);
            var n := SizeAt(t);
            if 0 < n < |s| then
              TopBoxes(s, offset, correct) == [ParseBox(t, offset)] + TopBoxes(s[n..], offset + n, correct) &&
              TopBytes(s, correct) == t[..n] + TopBytes(s[n..], correct)
            else TopBoxes(s, offset, correct) == [ParseBox(t, offset)] && TopBytes(s, correct) == t
  {
    hide Corrected, SizeAt, ParseBox;
  }

  lemma KeptUnfold(s: seq<byte>)
    ensures var n := SizeAt(Corrected(s, true));
            HeadersKept(s) <==>
            (s != [] && 0 < n < |s| ==>
               TopBytes(s, true)[..if |s| < 8 then |s| else 8] == s[..if |s| < 8 then |s| else 8] && HeadersKept(s[n..]))
  {
    hide Corrected, SizeAt, TopBytes;
  }

  lemma HeadTail(b: Parsed, x: seq<Parsed>, y: seq<Parsed>)
    ensures [b] + x == [b] + y <==> x == y
  {
    assert ([b] + x)[1..] == x && ([b] + y)[1..] == y;
  }

  /** Every complete box on the way has room for its own header. */
  predicate FullHeaders(s: seq<byte>)
    decreases |s|
  {
    s == [] || (0 < SizeAt(s) < |s| ==> SizeAt(s) >= 8 && FullHeaders(s[SizeAt(s)..]))
  }

  /** Which is enough. */
  lemma {:induction false} FullHeadersAreKept(s: seq<byte>)
    requires FullHeaders(s)
    ensures Spared(s)
    decreases |s|
  {
    hide BE, ToBE, SizeAt, IsCut;
    if s != [] && 0 < SizeAt(s) < |s| {
      FullHeadersAreKept(s[SizeAt(s)..]);
      CutStep(s);
    }
  }

  lemma FitsUncorrected(u: seq<byte>, again: bool)
    requires SizeAt(u) <= |u|
    ensures Corrected(u, again) == u
  {
  }

  /**
   A complete header that says 1 to 7 bytes overlaps the next one, and correcting the next one rewrites it:
   here the second box, at offset 5, is cut to 8 bytes and the kind of the first changes.
   */
  lemma {:induction false} ShortHeaderNotStable()
    ensures var s: seq<byte> := [0, 0, 0, 5, 1, 1, 1, 1, 1, 1, 1, 1, 1];
            TopParsable(s, true) &&
            TopBoxes(s, 0, true)[0].kind != TopBoxes(TopBytes(s, true), 0, true)[0].kind
  {
    hide TopParsable, TopBoxes, TopBytes;
    ShortHeader();
    RewrittenHeader();
  }

  /** The first box of s, when it is complete, childless and left as it is. */
  lemma {:induction false} FirstTop(s: seq<byte>, n: nat, k: nat)
    requires 8 <= |s| && n == BE(s[..4]) && k == BE(s[4..8]) && 0 < n < |s| && (n < 8 || !HasChildren(k))
    ensures TopBoxes(s, 0, true)[0].kind == k && TopBytes(s, true) == s[..n] + TopBytes(s[n..], true)
    ensures TopParsable(s[n..], true) ==> TopParsable(s, true)
  {
    hide BE, ParseAll, HasChildren;
    assert Corrected(s, true) == s && Inside(s) == [];
  }

  lemma {:induction false} ShortHeader()
    ensures var s: seq<byte> := [0, 0, 0, 5, 1, 1, 1, 1, 1, 1, 1, 1, 1];
            TopParsable(s, true) && TopBoxes(s, 0, true)[0].kind == 0x0101_0101 &&
            TopBytes(s, true) == [0, 0, 0, 5, 1, 0, 0, 0, 8, 1, 1, 1, 1]
  {
    hide BE, ToBE, TopParsable, TopBoxes, TopBytes;
    var s: seq<byte> := [0, 0, 0, 5, 1, 1, 1, 1, 1, 1, 1, 1, 1];
    BE4(s[..4]);
    BE4(s[4..8]);
    FirstTop(s, 5, 0x0101_0101);
    assert s[5..] == [1, 1, 1, 1, 1, 1, 1, 1] && s[..5] == [0, 0, 0, 5, 1];
    EightOnes();
  }

  lemma {:induction false} RewrittenHeader()
    ensures var u: seq<byte> := [0, 0, 0, 5, 1, 0, 0, 0, 8, 1, 1, 1, 1];
            TopBoxes(u, 0, true)[0].kind == 0x0100_0000
  {
    hide BE, ToBE, TopParsable, TopBoxes, TopBytes;
    var u: seq<byte> := [0, 0, 0, 5, 1, 0, 0, 0, 8, 1, 1, 1, 1];
    BE4(u[..4]);
    BE4(u[4..8]);
    FirstTop(u, 5, 0x0100_0000);
  }

  lemma {:induction false} EightOnes()
    ensures var r: seq<byte> := [1, 1, 1, 1, 1, 1, 1, 1];
            TopParsable(r, true) && TopBytes(r, true) == [0, 0, 0, 8, 1, 1, 1, 1]
  {
    hide BE, ToBE;
    var r: seq<byte> := [1, 1, 1, 1, 1, 1, 1, 1];
    BE4(r[..4]);
    ToBE4(8);
    var c := Corrected(r, true);
    assert c == [0, 0, 0, 8, 1, 1, 1, 1];
    BE4(c[..4]);
    BE4(c[4..8]);
    assert SizeAt(c) == 8 && Inside(c) == [];
  }

  /** On well-formed boxes the parser reports the boxes, and corrects nothing. */
  lemma {:induction false} TopBoxesOfSer(bs: seq<Box>, offset: nat, correct: bool)
    requires WellFormedAll(bs)
    ensures TopParsable(SerAll(bs), correct)
    ensures TopBoxes(SerAll(bs), offset, correct) == ViewAll(bs, offset) && TopBytes(SerAll(bs), correct) == SerAll(bs)
    decreases bs
  {
    hide Ser, BE, SerAll, WellFormed, Parsable, ParseBox, View, SizeAt, Corrected, Size;
    Mp4Demux.SerAllEmpty(bs);
    if bs != [] {
      var b, rest, s := bs[0], SerAll(bs[1..]), SerAll(bs);
      SerAllUnfold(bs);
      Mp4Demux.HeaderFits(bs);
      ParseBoxOfSer(b, rest, offset);
      SerFront(b, rest);
      TopBoxesOfSer(bs[1..], offset + Size(b), correct);
      Mp4Demux.SerAllEmpty(bs[1..]);
      FitsUncorrected(s, correct);
      assert s[..Size(b)] == Ser(b);
    }
  }
}
