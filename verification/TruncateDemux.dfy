/**
 Truncating a track run against demuxing: of that run the demuxer then reports the first sample, and of
 every other run, at whatever depth, what it reported before.
 */
module TruncateDemux {
  import opened Bytes
  import opened Boxes
  import opened Mp4Demux
  import opened IsoBmffEdit
  import IsoBmffLaws
  import Restamp
  import RestampLaws

  /** The way to a box: its number among its siblings, from the outermost container in. */
  type Path = seq<nat>

  /** The path leads to a run of several samples. */
  predicate IsRun(bs: seq<Box>, path: Path)
    decreases |path|
  {
    path != [] && path[0] < |bs| &&
    var b := bs[path[0]];
    if |path| == 1 then b.Plain? && b.leaf.Trun? && |b.leaf.entries| > 1
    else b.Container? && IsRun(b.children, path[1..])
  }

  function RunAt(bs: seq<Box>, path: Path): (l: Leaf)
    requires IsRun(bs, path)
    ensures l.Trun? && |l.entries| > 1
    decreases |path|
  {
    var b := bs[path[0]];
    if |path| == 1 then b.leaf else RunAt(b.children, path[1..])
  }

  /** What the box on the path becomes. */
  function Cut(b: Box, path: Path): seq<Box>
    requires IsRun([b], [0] + path)
    decreases |path|, 1
  {
    assert ([0] + path)[1..] == path;
    if path == [] then TruncatedTrun(b.leaf) else [Container(b.kind, b.prelude, CutAt(b.children, path))]
  }

  /** The boxes with that run truncated. */
  function CutAt(bs: seq<Box>, path: Path): seq<Box>
    requires IsRun(bs, path)
    decreases |path|, 0
  {
    var i := path[0];
    assert ([0] + path[1..])[1..] == path[1..];
    bs[..i] + Cut(bs[i], path[1..]) + bs[i + 1..]
  }

  /** Where the run starts in the bytes of bs. */
  function RunOffset(bs: seq<Box>, path: Path): nat
    requires IsRun(bs, path)
    decreases |path|
  {
    var b := bs[path[0]];
    |SerAll(bs[..path[0]])| + if |path| == 1 then 0 else 8 + |b.prelude| + RunOffset(b.children, path[1..])
  }

  /** Samples of the runs before it. */
  function SamplesBefore(bs: seq<Box>, path: Path): nat
    requires IsRun(bs, path)
    decreases |path|
  {
    RestampLaws.SampleCount(bs[..path[0]]) + if |path| == 1 then 0 else SamplesBefore(bs[path[0]].children, path[1..])
  }

  /** q2 is q without the n - 1 samples behind number k. */
  ghost predicate OnlyFirst(q: Parse, q2: Parse, k: nat, n: nat)
  {
    n >= 1 && k + n <= |q.samples| && q2 == q.(samples := q.samples[..k + 1] + q.samples[k + n..])
  }

  // ----- the fold -----

  lemma {:induction false} FoldConcat(a: seq<Box>, b: seq<Box>, at: int, p: Parse)
    ensures FoldAll(a + b, at, p) == FoldAll(b, at + |SerAll(a)|, FoldAll(a, at, p))
    decreases a
  {
    hide FoldBox, Ser, Size;
    if a == [] {
      assert a + b == b;
      SerAllEmpty(a);
    } else {
      FoldConcat(a[1..], b, at + Size(a[0]), FoldBox(a[0], at, p));
      ConcatTail(a, b);
      SerAllUnfold(a);
      SerLength(a[0]);
    }
  }

  lemma SerLength(b: Box)
    ensures |Ser(b)| == Size(b)
  {
    Restamp.SerSplit(b);
  }

  lemma FoldSingle(b: Box, at: int, p: Parse)
    ensures FoldAll([b], at, p) == FoldBox(b, at, p)
  {
    hide FoldBox;
    assert [b][1..] == [];
  }

  lemma {:induction false} RunSame(l: Leaf, p: Parse, p2: Parse)
    requires l.Trun? && p2 == p.(samples := p2.samples)
    ensures RunSamples(l, p2) == RunSamples(l, p)
  {
    hide TotalDuration, TotalLength, Bit;
    assert forall i :: 0 <= i < |l.entries| ==> SampleAt(l, p2, i) == SampleAt(l, p, i);
  }

  lemma {:induction false} AppendKeeps(p: Parse, p2: Parse, more: seq<Sample>, k: nat, n: nat)
    requires OnlyFirst(p, p2, k, n)
    ensures OnlyFirst(p.(samples := p.samples + more), p2.(samples := p2.samples + more), k, n)
  {
    var s := p.samples;
    assert (s + more)[..k + 1] == s[..k + 1] && (s + more)[k + n..] == s[k + n..] + more;
    assert s[..k + 1] + (s[k + n..] + more) == p2.samples + more;
  }

  lemma {:induction false} BoxKeeps(b: Box, at: int, p: Parse, p2: Parse, k: nat, n: nat)
    requires OnlyFirst(p, p2, k, n)
    ensures OnlyFirst(FoldBox(b, at, p), FoldBox(b, at, p2), k, n)
    decreases b, 0
  {
    hide RunSamples, FoldAll;
    match b
    case Plain(l) =>
      if l.Trun? {
        RunSame(l, p, p2);
        AppendKeeps(p, p2, RunSamples(l, p), k, n);
      }
    case Container(kind, prelude, children) =>
      var q := if kind == MOOF then p.(moof := at) else p;
      var q2 := if kind == MOOF then p2.(moof := at) else p2;
      FoldKeeps(children, at + 8 + |prelude|, q, q2, k, n);
  }

  /** No box looks at the samples before it. */
  lemma {:induction false} FoldKeeps(bs: seq<Box>, at: int, p: Parse, p2: Parse, k: nat, n: nat)
    requires OnlyFirst(p, p2, k, n)
    ensures OnlyFirst(FoldAll(bs, at, p), FoldAll(bs, at, p2), k, n)
    decreases bs, 1
  {
    hide FoldBox, OnlyFirst, Size;
    if bs != [] {
      BoxKeeps(bs[0], at, p, p2, k, n);
      FoldKeeps(bs[1..], at + Size(bs[0]), FoldBox(bs[0], at, p), FoldBox(bs[0], at, p2), k, n);
    }
  }

  /** The run itself: the sample that stays is the one the whole run began with. */
  lemma {:induction false} FoldTruncatedTrun(l: Leaf, at: int, p: Parse)
    requires l.Trun? && |l.entries| > 1
    ensures OnlyFirst(FoldBox(Plain(l), at, p), FoldAll(TruncatedTrun(l), at, p), |p.samples|, |l.entries|)
  {
    hide RunSamples, TableBytes, FreedLength, Size;
    var bs := TruncatedTrun(l);
    var one := bs[0].leaf;
    FirstSample(l, one, p);
    var q := FoldBox(bs[0], at, p);
    assert FoldAll(bs, at, p) == q by {
      if |bs| == 1 {
        assert bs == [bs[0]];
        FoldSingle(bs[0], at, p);
      } else {
        assert bs[1..] == [bs[1]] && bs == [bs[0]] + bs[1..];
        FoldSingle(bs[1], at + Size(bs[0]), q);
      }
    }
    var s := p.samples + RunSamples(l, p);
    assert s[..|p.samples| + 1] == p.samples + RunSamples(l, p)[..1] && s[|p.samples| + |l.entries|..] == [];
  }

  lemma {:induction false} FirstSample(l: Leaf, one: Leaf, p: Parse)
    requires l.Trun? && one.Trun? && l.entries != [] && one.entries == l.entries[..1]
    requires one.flags == l.flags && one.dataOffset == l.dataOffset
    ensures |RunSamples(l, p)| == |l.entries| && RunSamples(one, p) == RunSamples(l, p)[..1]
  {
    hide TotalDuration, TotalLength, Bit;
    assert one.entries[..0] == l.entries[..0] == [];
    assert SampleAt(one, p, 0) == SampleAt(l, p, 0);
  }

  // ----- sizes, well-formedness, bytes -----

  /** The truncated boxes are well-formed, fill the old extent, and are as ready for the walker as the old ones. */
  lemma {:induction false} CutFits(bs: seq<Box>, path: Path)
    requires IsRun(bs, path) && WellFormedAll(bs)
    ensures WellFormedAll(CutAt(bs, path)) && |SerAll(CutAt(bs, path))| == |SerAll(bs)|
    ensures ReadyAll(bs) ==> ReadyAll(CutAt(bs, path))
    decreases |path|, 0
  {
    hide Ser, SerAll, WellFormedAll, ReadyAll, Size, TruncatedTrun, WellFormed, Ready, Cut;
    var i := path[0];
    var pre, b, post := bs[..i], bs[i], bs[i + 1..];
    var here := Cut(b, path[1..]);
    assert bs == pre + [b] + post;
    WellFormedConcat(pre + [b], post);
    WellFormedConcat(pre, [b]);
    HereFits(b, path[1..]);
    WellFormedConcat(pre, here);
    WellFormedConcat(pre + here, post);
    SerAllConcat(pre + [b], post);
    SerAllConcat(pre, [b]);
    SerAllConcat(pre + here, post);
    SerAllConcat(pre, here);
    ReadyConcat(pre + [b], post);
    ReadyConcat(pre, [b]);
    ReadyConcat(pre + here, post);
    ReadyConcat(pre, here);
  }

  lemma {:induction false} HereFits(b: Box, path: Path)
    requires IsRun([b], [0] + path) && WellFormedAll([b])
    ensures WellFormedAll(Cut(b, path)) && |SerAll(Cut(b, path))| == |SerAll([b])| == Size(b)
    ensures ReadyAll([b]) ==> ReadyAll(Cut(b, path))
    decreases |path|, 1
  {
    hide Ser, SerAll, Size, TruncatedTrun, BE, CutAt, FoldAll;
    assert ([0] + path)[1..] == path && [b][1..] == [];
    Restamp.SerAllSingle(b);
    SerLength(b);
    if path == [] {
      IsoBmffLaws.TruncatedTrunFits(b.leaf);
      if ReadyAll([b]) {
        TruncatedReady(b.leaf);
      }
    } else {
      var c := Container(b.kind, b.prelude, CutAt(b.children, path));
      CutFits(b.children, path);
      SameSize(b, c);
      Restamp.SerAllSingle(c);
      SerLength(c);
      assert [c][1..] == [];
      SameReady(b, c);
    }
  }

  lemma SameSize(b: Box, c: Box)
    requires b.Container? && c.Container? && b.kind == c.kind && b.prelude == c.prelude
    requires |SerAll(b.children)| == |SerAll(c.children)|
    ensures Size(b) == Size(c) && Kind(b) == Kind(c)
  {
  }

  lemma SameReady(b: Box, c: Box)
    requires b.Container? && c.Container? && b.kind == c.kind && b.prelude == c.prelude
    requires ReadyAll(b.children) ==> ReadyAll(c.children)
    ensures ReadyAll([b]) ==> ReadyAll([c])
  {
    hide BE;
    assert [b][1..] == [] && [c][1..] == [];
    assert ReadyAll([b]) ==> Ready(b);
    assert Ready(b) ==> Ready(c);
  }

  lemma TruncatedReady(l: Leaf)
    requires l.Trun? && |l.entries| > 1 && Ready(Plain(l))
    ensures ReadyAll(TruncatedTrun(l))
  {
    hide Bit, TableBytes, FreedLength;
    var bs := TruncatedTrun(l);
    assert Ready(bs[0]) && (|bs| == 2 ==> Ready(bs[1]));
    if |bs| == 2 {
      assert bs[1..] == [bs[1]] && [bs[1]][1..] == [];
      assert ReadyAll([bs[1]]);
    } else {
      assert bs[1..] == [];
    }
  }

  lemma {:induction false} ReadyConcat(a: seq<Box>, b: seq<Box>)
    ensures ReadyAll(a + b) <==> ReadyAll(a) && ReadyAll(b)
    decreases a
  {
    hide Ready;
    if a == [] {
      assert a + b == b;
    } else {
      ReadyConcat(a[1..], b);
      ConcatTail(a, b);
    }
  }

  /** t is s with new in the place of old at o, and nothing moves. */
  ghost predicate Spliced(s: seq<byte>, t: seq<byte>, o: nat, was: seq<byte>, now: seq<byte>)
  {
    |now| == |was| && o + |was| <= |s| && s[o..o + |was|] == was && t == s[..o] + now + s[o + |was|..]
  }

  lemma {:induction false} SplicedIn(head: seq<byte>, s: seq<byte>, t: seq<byte>, tail: seq<byte>, o: nat, was: seq<byte>,
                                     now: seq<byte>)
    requires Spliced(s, t, o, was, now)
    ensures Spliced(head + s + tail, head + t + tail, |head| + o, was, now)
  {
    assert (head + s + tail)[|head| + o..|head| + o + |was|] == s[o..o + |was|];
  }

  lemma {:induction false} SplicedOutside(s: seq<byte>, t: seq<byte>, u: seq<byte>, o: nat, was: seq<byte>, now: seq<byte>)
    requires Spliced(s, t, o, was, now) && SameOutside(s, u, o, o + |was|) && u[o..o + |was|] == now
    ensures u == t
  {
    SliceOutside(s, u, o, o + |was|, 0, o);
    SliceOutside(s, u, o, o + |was|, o + |was|, |s|);
    assert u == u[0..o] + u[o..o + |was|] + u[o + |was|..|s|];
  }

  /** Only the bytes of the run change. */
  lemma {:induction false} CutIsSplice(bs: seq<Box>, path: Path)
    requires IsRun(bs, path) && WellFormedAll(bs)
    ensures var l := RunAt(bs, path);
            WellFormed(Plain(l)) &&
            Spliced(SerAll(bs), SerAll(CutAt(bs, path)), RunOffset(bs, path), Ser(Plain(l)), SerAll(TruncatedTrun(l)))
    decreases |path|, 0
  {
    hide Ser, SerAll, WellFormedAll, Size, TruncatedTrun, WellFormed, Cut, Spliced;
    var i := path[0];
    var pre, b, post := bs[..i], bs[i], bs[i + 1..];
    var here := Cut(b, path[1..]);
    assert bs == pre + [b] + post;
    WellFormedConcat(pre + [b], post);
    WellFormedConcat(pre, [b]);
    SerAllConcat(pre + [b], post);
    SerAllConcat(pre, [b]);
    SerAllConcat(pre + here, post);
    SerAllConcat(pre, here);
    Restamp.SerAllSingle(b);
    var l := RunAt(bs, path);
    HereIsSplice(b, path[1..]);
    var o := if |path| == 1 then 0 else 8 + |b.prelude| + RunOffset(b.children, path[1..]);
    SplicedIn(SerAll(pre), Ser(b), SerAll(here), SerAll(post), o, Ser(Plain(l)), SerAll(TruncatedTrun(l)));
  }

  lemma {:induction false} HereIsSplice(b: Box, path: Path)
    requires IsRun([b], [0] + path) && WellFormedAll([b])
    ensures var o := if path == [] then 0 else 8 + |b.prelude| + RunOffset(b.children, path);
            var l := if path == [] then b.leaf else RunAt(b.children, path);
            WellFormed(Plain(l)) &&
            Spliced(Ser(b), SerAll(Cut(b, path)), o, Ser(Plain(l)), SerAll(TruncatedTrun(l)))
    decreases |path|, 1
  {
    hide Ser, SerAll, Size, TruncatedTrun, CutAt, RunOffset, ToBE, Body, Kind;
    assert ([0] + path)[1..] == path && [b][1..] == [];
    if path == [] {
      IsoBmffLaws.TruncatedTrunFits(b.leaf);
      SerLength(b);
      assert Ser(b)[..0] == [] && Ser(b)[|Ser(b)|..] == [];
    } else {
      var c := Container(b.kind, b.prelude, CutAt(b.children, path));
      CutFits(b.children, path);
      SameSize(b, c);
      Restamp.SerAllSingle(c);
      Restamp.SerSplit(b);
      Restamp.SerSplit(c);
      CutIsSplice(b.children, path);
      var head := ToBE(Size(b), 4) + ToBE(Kind(b), 4);
      var l := RunAt(b.children, path);
      HeadOf(b, head);
      HeadOf(c, head);
      SplicedIn(head + b.prelude, SerAll(b.children), SerAll(c.children), [], RunOffset(b.children, path), Ser(Plain(l)),
                SerAll(TruncatedTrun(l)));
    }
  }

  lemma HeadOf(b: Box, head: seq<byte>)
    requires b.Container? && head == ToBE(Size(b), 4) + ToBE(Kind(b), 4)
    ensures Ser(b) == head + b.prelude + SerAll(b.children) + [] && |head| == 8
  {
    hide ToBE, Ser, SerAll;
    Restamp.SerSplit(b);
    RestampLaws.ContainerBody(b);
    Associative(head, b.prelude, SerAll(b.children));
    assert |ToBE(Size(b), 4)| == 4 && |ToBE(Kind(b), 4)| == 4;
  }

  // ----- the laws -----

  /** Truncating a run at any depth takes all its samples but the first out of what the demuxer reports. */
  lemma {:induction false} TruncateCommutesWithDemux(bs: seq<Box>, path: Path, at: int, p: Parse)
    requires IsRun(bs, path) && WellFormedAll(bs)
    ensures OnlyFirst(FoldAll(bs, at, p), FoldAll(CutAt(bs, path), at, p),
                      |p.samples| + SamplesBefore(bs, path), |RunAt(bs, path).entries|)
    decreases |path|, 0
  {
    hide Ser, SerAll, FoldAll, FoldBox, OnlyFirst, WellFormedAll, TruncatedTrun, Size, Cut;
    var i := path[0];
    var pre, b, post := bs[..i], bs[i], bs[i + 1..];
    var here := Cut(b, path[1..]);
    assert bs == pre + [b] + post;
    WellFormedConcat(pre + [b], post);
    WellFormedConcat(pre, [b]);
    var k, n := |p.samples| + SamplesBefore(bs, path), |RunAt(bs, path).entries|;
    var p1, at1 := FoldAll(pre, at, p), at + |SerAll(pre)|;
    RestampLaws.FoldCounts(pre, at, p);
    HereFits(b, path[1..]);
    HereCommutes(b, path[1..], at1, p1);
    FoldConcat(pre + [b], post, at, p);
    FoldConcat(pre, [b], at, p);
    FoldConcat(pre + here, post, at, p);
    FoldConcat(pre, here, at, p);
    SerAllConcat(pre, [b]);
    SerAllConcat(pre, here);
    FoldKeeps(post, at1 + Size(b), FoldAll([b], at1, p1), FoldAll(here, at1, p1), k, n);
  }

  lemma {:induction false} HereCommutes(b: Box, path: Path, at: int, p: Parse)
    requires IsRun([b], [0] + path) && WellFormedAll([b])
    ensures OnlyFirst(FoldAll([b], at, p), FoldAll(Cut(b, path), at, p),
                      |p.samples| + (if path == [] then 0 else SamplesBefore(b.children, path)),
                      |(if path == [] then b.leaf else RunAt(b.children, path)).entries|)
    decreases |path|, 1
  {
    hide Ser, SerAll, FoldAll, OnlyFirst, TruncatedTrun, Size, CutAt, StepLeaf;
    assert ([0] + path)[1..] == path && [b][1..] == [];
    FoldSingle(b, at, p);
    if path == [] {
      FoldTruncatedTrun(b.leaf, at, p);
    } else {
      var c := Container(b.kind, b.prelude, CutAt(b.children, path));
      FoldSingle(c, at, p);
      TruncateCommutesWithDemux(b.children, path, at + 8 + |b.prelude|, if b.kind == MOOF then p.(moof := at) else p);
    }
  }

  /** Both imperative parsers on one buffer: demux, load and truncate one run in place, demux again. */
  method DemuxAroundTruncation(buf: array<byte>, at: nat, size: nat, timescale: nat, junk: Parse, ghost bs: seq<Box>,
                               ghost path: Path) returns (before: seq<Sample>, after: seq<Sample>)
    requires buf[..] == SerAll(bs) && WellFormedAll(bs) && ReadyAll(bs) && IsRun(bs, path)
    requires at == RunOffset(bs, path) && size == Size(Plain(RunAt(bs, path)))
    modifies buf
    ensures var k, n := SamplesBefore(bs, path), |RunAt(bs, path).entries|;
            k + n <= |before| && after == before[..k + 1] + before[k + n..]
    ensures SameOutside(old(buf[..]), buf[..], at, at + size)
  {
    hide Ser, SerAll, FoldAll, WellFormedAll, ReadyAll, WellFormed, IsRun, RunAt, RunOffset, SamplesBefore, CutAt,
      TruncatedTrun, Size, PresentDuration, FirstSize, SameOutside, OnlyHeaderFields;
    ghost var l := RunAt(bs, path);
    var first := new Demuxer(buf[..], timescale, junk, bs);
    before := first.samples;
    CutIsSplice(bs, path);
    var trun := new TrunIsoBmffBox(buf, size, at + 8, l);
    trun.truncate(l);
    SplicedOutside(old(buf[..]), SerAll(CutAt(bs, path)), buf[..], at, Ser(Plain(l)), SerAll(TruncatedTrun(l)));
    CutFits(bs, path);
    var second := new Demuxer(buf[..], timescale, junk, CutAt(bs, path));
    after := second.samples;
    TruncateCommutesWithDemux(bs, path, 0, junk.(timescale := timescale, samples := []));
  }
}
