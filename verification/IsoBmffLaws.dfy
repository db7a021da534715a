/**
 Truncate, then parse again: the enclosing container still tiles, with the truncated box (and its skip
 box) in the place of the old one and every later sibling where it was.
 */
module IsoBmffLaws {
  import opened Bytes
  import opened Boxes
  import opened IsoBmffBox
  import opened IsoBmffEdit
  import opened IsoBmffAux
  import Mp4Demux
  import Restamp

  /** Replacing one child by boxes of the same total length moves no sibling. */
  lemma {:induction false} ReplaceChild(pre: seq<Box>, b: Box, after: seq<Box>, post: seq<Box>)
    requires WellFormedAll(pre + [b] + post) && WellFormedAll(after) && |SerAll(after)| == Size(b)
    requires 8 + |SerAll(pre + [b] + post)| < TWO32
    ensures var before, o := ViewAll(pre, 8), 8 + |SerAll(pre)|;
            var later := ViewAll(post, o + Size(b));
            ParseAll(SerAll(pre + [b] + post), 8) == before + [View(b, o)] + later &&
            ParseAll(SerAll(pre + after + post), 8) == before + ViewAll(after, o) + later
    ensures ParsableAll(SerAll(pre + after + post), 8)
    ensures |SerAll(pre + after + post)| == |SerAll(pre + [b] + post)|
  {
    hide Ser, SerAll, Size, View, ParseAll, ParsableAll, WellFormed, ViewAll, WellFormedAll;
    WellFormedConcat(pre + [b], post);
    WellFormedConcat(pre, [b]);
    WellFormedConcat(pre, after);
    WellFormedConcat(pre + after, post);
    Restamp.SerAllSingle(b);
    SerAllConcat(pre + [b], post);
    SerAllConcat(pre, [b]);
    SerAllConcat(pre + after, post);
    SerAllConcat(pre, after);
    ParseOfSer(pre + [b] + post, 8);
    ParseOfSer(pre + after + post, 8);
    ViewConcat(pre + [b], post, 8);
    ViewConcat(pre, [b], 8);
    ViewConcat(pre + after, post, 8);
    ViewConcat(pre, after, 8);
    SingleView(b, 8 + |SerAll(pre)|);
  }

  lemma SingleView(b: Box, o: nat)
    ensures ViewAll([b], o) == [View(b, o)]
  {
    hide View;
    assert [b][1..] == [];
  }

  lemma {:induction false} TruncatedTrunFits(l: Leaf)
    requires l.Trun? && WellFormed(Plain(l))
    ensures WellFormedAll(TruncatedTrun(l)) && |SerAll(TruncatedTrun(l))| == Size(Plain(l))
  {
    hide ToBE, Ser, SerAll, Size, TableBytes, Bit, LeafLayout, SkipBox, EntryWidth, KeptBytes, CountedBody;
    if |l.entries| > 1 {
      TrunTruncation(l);
      var rest := TableBytes(l.flags, l.entries[1..]) + l.trailing;
      var k := |l.trailing|;
      TableByteCount(l);
      if FreedLength(l) < 8 {
        var one := OneEntry(l, rest);
        OneTrunWellFormed(l, one, rest);
        Restamp.SerAllSingle(Plain(one));
        SingleWellFormed(Plain(one));
      } else {
        var one, hole := OneEntry(l, rest[..k]), rest[k..];
        OneTrunWellFormed(l, one, rest[..k]);
        SkipSer(hole);
        TwoBoxes(Plain(one), SkipBox(hole));
        SingleWellFormed(SkipBox(hole));
        assert [Plain(one), SkipBox(hole)][1..] == [SkipBox(hole)];
      }
    } else {
      Restamp.SerAllSingle(Plain(l));
      SingleWellFormed(Plain(l));
    }
  }

  lemma OneTrunWellFormed(l: Leaf, one: Leaf, x: seq<byte>)
    requires l.Trun? && l.entries != [] && WellFormed(Plain(l)) && one == OneEntry(l, x)
    requires Size(Plain(one)) <= Size(Plain(l))
    ensures WellFormed(Plain(one))
  {
    hide Size;
    assert forall e :: e in one.entries ==> e in l.entries;
  }

  /** What the parser reports for a truncated run: the same first sample, and the freed bytes as a skip box. */
  lemma {:induction false} TruncatedTrunView(l: Leaf, o: nat)
    requires l.Trun? && WellFormed(Plain(l)) && |l.entries| > 1
    ensures var freed := FreedLength(l);
            var n := Size(TruncatedTrun(l)[0]);
            n + (if freed < 8 then 0 else freed) == Size(Plain(l)) &&
            ViewAll(TruncatedTrun(l), o) ==
            if freed < 8 then [Parsed(o, n, TRUN, [])] else [Parsed(o, n, TRUN, []), Parsed(o + n, freed, SKIP, [])]
    ensures TruncatedTrun(l)[0].Plain? && TruncatedTrun(l)[0].leaf.Trun? &&
            TruncatedTrun(l)[0].leaf.entries == l.entries[..1]
  {
    hide ToBE, Ser, SerAll, Size, TableBytes, Bit, SkipBox, EntryWidth;
    TrunTruncation(l);
    TableByteCount(l);
    var rest := TableBytes(l.flags, l.entries[1..]) + l.trailing;
    var after := TruncatedTrun(l);
    if FreedLength(l) < 8 {
      SingleView(after[0], o);
    } else {
      var hole := rest[|l.trailing|..];
      SkipSer(hole);
      SkipKind(hole);
      SingleView(after[1], o + Size(after[0]));
      assert after[1..] == [after[1]];
      assert ViewAll(after, o) == [View(after[0], o)] + ViewAll(after[1..], o + Size(after[0]));
    }
  }

  lemma SkipKind(hole: seq<byte>)
    requires |hole| >= 8
    ensures Kind(SkipBox(hole)) == SKIP && SkipBox(hole).Plain?
  {
  }

  /**
   End to end: the children of a container are buf[lo..hi); one of them, a track run, is loaded,
   truncated in place and loaded again; then the container is parsed again.
   */
  method TruncateTrunThenParse(buf: array<byte>, lo: nat, hi: nat, at: nat, size: nat,
                               ghost pre: seq<Box>, ghost l: Leaf, ghost post: seq<Box>)
    returns (children: seq<Parsed>, count: nat, first: nat)
    requires l.Trun? && WellFormedAll(pre + [Plain(l)] + post) && WellFormed(Plain(l)) && |l.entries| > 1
    requires lo <= hi <= buf.Length && 8 + hi - lo < TWO32 && buf[..][lo..hi] == SerAll(pre + [Plain(l)] + post)
    requires at == lo + |SerAll(pre)| && size == Size(Plain(l))
    modifies buf
    ensures var o := 8 + |SerAll(pre)|;
            children == ViewAll(pre, 8) + ViewAll(TruncatedTrun(l), o) + ViewAll(post, o + size)
    ensures count == 1 && first == FirstSize(l) && SameOutside(old(buf[..]), buf[..], at, at + size)
  {
    hide Ser, SerAll, ViewAll, TruncatedTrun, ParseAll, ParsableAll, Size, WellFormedAll, WellFormed, OnlyHeaderFields,
      PresentDuration, FirstSize, SameOutside, ToBE;
    ghost var was := buf[..];
    LocateChild(was, lo, hi, pre, Plain(l), post);
    var trun := new TrunIsoBmffBox(buf, size, at + 8, l);
    trun.truncate(l);
    TruncatedTrunFits(l);
    children := ReloadChildren(buf, lo, hi, at, was, pre, l, TruncatedTrun(l), post);
    ghost var one := OneLeft(l);
    count, first := LoadTrun(buf, trun.size, at + 8, one);
  }

  /** Parses the container again after the child at at was overwritten by the boxes after. */
  method ReloadChildren(buf: array<byte>, lo: nat, hi: nat, ghost at: nat, ghost was: seq<byte>, ghost pre: seq<Box>,
                        ghost l: Leaf, ghost after: seq<Box>, ghost post: seq<Box>) returns (children: seq<Parsed>)
    requires WellFormedAll(pre + [Plain(l)] + post) && WellFormedAll(after)
    requires after != [] && |SerAll(after)| == Size(Plain(l)) && at == lo + |SerAll(pre)|
    requires lo <= hi <= |was| && buf.Length == |was| && 8 + hi - lo < TWO32
    requires was[lo..hi] == SerAll(pre + [Plain(l)] + post) && at + Size(Plain(l)) <= |was|
    requires SameOutside(was, buf[..], at, at + Size(Plain(l))) && buf[..][at..at + Size(Plain(l))] == SerAll(after)
    ensures WellFormed(after[0]) && at + Size(after[0]) <= hi && buf[..][at..at + Size(after[0])] == Ser(after[0])
    ensures var o := 8 + |SerAll(pre)|;
            children == ViewAll(pre, 8) + ViewAll(after, o) + ViewAll(post, o + Size(Plain(l)))
  {
    hide *;
    Aftermath(was, buf[..], lo, hi, pre, Plain(l), after, post);
    EmptyOrNot(lo, hi, pre, l, post);
    children := ConstructContainer(buf, hi - lo + 8, lo);
  }

  method LoadTrun(buf: array<byte>, sz: nat, ptr: nat, ghost l: Leaf) returns (count: nat, first: nat)
    requires l.Trun? && WellFormed(Plain(l)) && 8 <= ptr && ptr + sz - 8 <= buf.Length
    requires sz == Size(Plain(l)) && buf[..][ptr - 8..ptr - 8 + sz] == Ser(Plain(l))
    ensures count == |l.entries| && first == FirstSize(l)
  {
    var trun := new TrunIsoBmffBox(buf, sz, ptr, l);
    return trun.sample_count, trun.mFirstSampleSize;
  }

  /** The same for the sample encryption box beside it. */
  method TruncateSencThenParse(buf: array<byte>, lo: nat, hi: nat, at: nat, size: nat, firstSampleSize: nat,
                               ghost pre: seq<Box>, ghost l: Leaf, ghost post: seq<Box>)
    returns (children: seq<Parsed>)
    requires l.Senc? && WellFormedAll(pre + [Plain(l)] + post) && WellFormed(Plain(l)) && firstSampleSize < TWO32
    requires SencCuts(l, firstSampleSize)
    requires lo <= hi <= buf.Length && 8 + hi - lo < TWO32 && buf[..][lo..hi] == SerAll(pre + [Plain(l)] + post)
    requires at == lo + |SerAll(pre)| && size == Size(Plain(l))
    modifies buf
    ensures var o := 8 + |SerAll(pre)|;
            children == ViewAll(pre, 8) + ViewAll(TruncatedSenc(l, firstSampleSize), o) + ViewAll(post, o + size)
    ensures SameOutside(old(buf[..]), buf[..], at, at + size)
  {
    hide Ser, SerAll, ViewAll, TruncatedSenc, ParseAll, ParsableAll, Size, WellFormedAll, WellFormed, OnlyHeaderFields,
      SencEdit, SencRoom, SencCuts, SameOutside, ToBE;
    ghost var was := buf[..];
    LocateChild(was, lo, hi, pre, Plain(l), post);
    var senc := new SencIsoBmffBox(buf, size, at + 8, l);
    SencTruncation(l, firstSampleSize);
    RoomEnough(buf.Length - at, size, l, firstSampleSize);
    senc.truncate(firstSampleSize, l);
    TruncatedSencFits(l, firstSampleSize);
    children := ReloadChildren(buf, lo, hi, at, was, pre, l, TruncatedSenc(l, firstSampleSize), post);
  }

  lemma RoomEnough(n: nat, size: nat, l: Leaf, first: nat)
    requires size <= n
    ensures l.Senc? && SencRoom(size, size, l.count, first) ==> SencRoom(n, size, l.count, first)
    ensures l.Saiz? && SaizRoom(size, size, l.count) ==> SaizRoom(n, size, l.count)
  {
  }

  /** And for the sample information sizes: whenever truncating the box is sound. */
  method TruncateSaizThenParse(buf: array<byte>, lo: nat, hi: nat, at: nat, size: nat,
                               ghost pre: seq<Box>, ghost l: Leaf, ghost post: seq<Box>)
    returns (children: seq<Parsed>)
    requires l.Saiz? && WellFormedAll(pre + [Plain(l)] + post) && WellFormed(Plain(l))
    requires SaizCuts(l) && (l.infoSize != 0 || at + InfoCountAt(l) + 4 < buf.Length)
    requires lo <= hi <= buf.Length && 8 + hi - lo < TWO32 && buf[..][lo..hi] == SerAll(pre + [Plain(l)] + post)
    requires at == lo + |SerAll(pre)| && size == Size(Plain(l))
    modifies buf
    ensures var o := 8 + |SerAll(pre)|;
            children == ViewAll(pre, 8) + ViewAll(TruncatedSaiz(l), o) + ViewAll(post, o + size)
    ensures SameOutside(old(buf[..]), buf[..], at, at + size)
  {
    hide Ser, SerAll, ViewAll, TruncatedSaiz, ParseAll, ParsableAll, Size, WellFormedAll, WellFormed, SaizEdit,
      OnlyHeaderFields, SaizRoom, SameOutside, ToBE;
    ghost var was := buf[..];
    LocateChild(was, lo, hi, pre, Plain(l), post);
    SaizTruncation(l);
    var saiz := new SaizIsoBmffBox(buf, size, at + 8, l);
    RoomEnough(buf.Length - at, size, l, 0);
    saiz.truncate(l);
    TruncatedSaizFits(l);
    children := ReloadChildren(buf, lo, hi, at, was, pre, l, TruncatedSaiz(l), post);
  }

  /** The container after one child was overwritten by boxes of the same total length. */
  lemma {:induction false} Aftermath(was: seq<byte>, now: seq<byte>, lo: nat, hi: nat, pre: seq<Box>, b: Box,
                                     after: seq<Box>, post: seq<Box>)
    requires WellFormedAll(pre + [b] + post) && WellFormedAll(after) && after != [] && |SerAll(after)| == Size(b)
    requires lo <= hi <= |was| && |now| == |was| && 8 + hi - lo < TWO32 && was[lo..hi] == SerAll(pre + [b] + post)
    requires var at, end := lo + |SerAll(pre)|, lo + |SerAll(pre)| + Size(b);
             SameOutside(was, now, at, end) && end <= |now| && now[at..end] == SerAll(after)
    ensures var at, o := lo + |SerAll(pre)|, 8 + |SerAll(pre)|;
            WellFormed(after[0]) && at + Size(after[0]) <= hi && now[at..at + Size(after[0])] == Ser(after[0]) &&
            ParsableAll(now[lo..hi], 8) &&
            ParseAll(now[lo..hi], 8) == ViewAll(pre, 8) + ViewAll(after, o) + ViewAll(post, o + Size(b))
  {
    hide Ser, SerAll, ViewAll, ParseAll, ParsableAll, Size, WellFormedAll, WellFormed, SameOutside;
    var at := lo + |SerAll(pre)|;
    LocateChild(was, lo, hi, pre, b, post);
    PlaceChildren(was, now, lo, hi, pre, b, after, post);
    ReplaceChild(pre, b, after, post);
    FirstOf(now, at, at + Size(b), after);
    LeafOf(after);
  }

  lemma OneLeft(l: Leaf) returns (one: Leaf)
    requires l.Trun? && |l.entries| > 1
    ensures one.Trun? && |one.entries| == 1 && TruncatedTrun(l)[0] == Plain(one) && FirstSize(one) == FirstSize(l)
  {
    one := TruncatedTrun(l)[0].leaf;
  }

  lemma EmptyOrNot(lo: nat, hi: nat, pre: seq<Box>, l: Leaf, post: seq<Box>)
    requires lo <= hi && hi - lo == |SerAll(pre + [Plain(l)] + post)|
    ensures lo < hi
  {
    Mp4Demux.SerAllEmpty(pre + [Plain(l)] + post);
  }

  lemma LeafOf(after: seq<Box>)
    requires after != [] && WellFormedAll(after)
    ensures WellFormed(after[0])
  {
  }

  /** The bytes of one child among its siblings. */
  lemma {:induction false} LocateChild(s: seq<byte>, lo: nat, hi: nat, pre: seq<Box>, b: Box, post: seq<Box>)
    requires lo <= hi <= |s| && s[lo..hi] == SerAll(pre + [b] + post)
    ensures var at := lo + |SerAll(pre)|;
            at + Size(b) <= hi && s[lo..at] == SerAll(pre) && s[at..at + Size(b)] == Ser(b) &&
            s[at + Size(b)..hi] == SerAll(post)
  {
    hide Ser, SerAll, Size;
    SerAllConcat(pre + [b], post);
    SerAllConcat(pre, [b]);
    Restamp.SerAllSingle(b);
    Associative(SerAll(pre), Ser(b), SerAll(post));
    TakeBytes(s, lo, hi, SerAll(pre), Ser(b) + SerAll(post));
    TakeBytes(s, lo + |SerAll(pre)|, hi, Ser(b), SerAll(post));
  }

  lemma {:induction false} PlaceChildren(was: seq<byte>, now: seq<byte>, lo: nat, hi: nat,
                                         pre: seq<Box>, b: Box, after: seq<Box>, post: seq<Box>)
    requires lo <= hi <= |was| && was[lo..hi] == SerAll(pre + [b] + post)
    requires |SerAll(after)| == Size(b)
    requires var at := lo + |SerAll(pre)|;
             at + Size(b) <= |was| == |now| && now[at..at + Size(b)] == SerAll(after) && SameOutside(was, now, at, at + Size(b))
    ensures now[lo..hi] == SerAll(pre + after + post)
  {
    hide Ser, SerAll, Size, SameOutside;
    LocateChild(was, lo, hi, pre, b, post);
    var at := lo + |SerAll(pre)|;
    var next := at + Size(b);
    SerAllConcat(pre + after, post);
    SerAllConcat(pre, after);
    SliceOutside(was, now, at, next, lo, at);
    SliceOutside(was, now, at, next, next, hi);
    Glue(now, lo, at, next, hi);
  }

  lemma {:induction false} FirstOf(s: seq<byte>, lo: nat, hi: nat, after: seq<Box>)
    requires lo <= hi <= |s| && after != [] && s[lo..hi] == SerAll(after)
    ensures lo + Size(after[0]) <= hi && s[lo..lo + Size(after[0])] == Ser(after[0])
  {
    hide Ser, SerAll, Size;
    SerAllUnfold(after);
    TakeBytes(s, lo, hi, Ser(after[0]), SerAll(after[1..]));
  }

  /**
   The two parsers agree on durations: when they are present in the table, the duration constructTrunBox
   reports is the span from the decode time of the run to the end of its last sample in the demuxer.
   */
  lemma {:induction false} DurationIsSpan(l: Leaf, p: Mp4Demux.Parse)
    requires l.Trun? && Bit(l.flags, 0x100) && l.entries != []
    ensures var run := Mp4Demux.RunSamples(l, p);
            var last := run[|run| - 1];
            PresentDuration(l) == Mp4Demux.TotalDuration(l.flags, l.entries, p.defaultDuration) &&
            (last.dts + last.duration) % TWO64 == (p.baseMediaDecodeTime + PresentDuration(l)) % TWO64
  {
    hide Bit;
    var n := |l.entries| - 1;
    SameTotals(l.flags, l.entries, 0, p.defaultDuration);
    assert l.entries[..n + 1] == l.entries;
    Mp4Demux.TotalsSnoc(l.flags, l.entries, n, p.defaultDuration, p.defaultSize);
    var before := p.baseMediaDecodeTime + Mp4Demux.TotalDuration(l.flags, l.entries[..n], p.defaultDuration);
    Mp4Demux.AddMod(before, l.entries[n].duration);
    assert Mp4Demux.RunSamples(l, p)[n] == Mp4Demux.SampleAt(l, p, n);
  }

  lemma {:induction false} SameTotals(flags: nat, entries: seq<Entry>, d: nat, e: nat)
    requires Bit(flags, 0x100)
    ensures Mp4Demux.TotalDuration(flags, entries, d) == Mp4Demux.TotalDuration(flags, entries, e)
  {
    hide Bit;
    if entries != [] {
      SameTotals(flags, entries[..|entries| - 1], d, e);
    }
  }
}
