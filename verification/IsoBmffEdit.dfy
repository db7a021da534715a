/**
 The in-place editors of player_isobmff: truncating trun, senc and saiz to one sample and plugging
 the hole with a skip box (ISO/IEC 14496-12 section 8.1.2), and resetting the time of a tfdt.
 */
module IsoBmffEdit {
  import opened Bytes
  import opened Boxes
  import opened IsoBmffBox
  import Mp4Demux
  import opened ByteLayout
  import ByteLaws
  import Restamp

  // ----- boxes with a sample count -----

  predicate Counted(l: Leaf)
  {
    l.Trun? || l.Senc? || l.Saiz?
  }

  function Count(l: Leaf): nat
    requires Counted(l)
  {
    match l
    case Trun(_, _, _, _, entries, _) => |entries|
    case Senc(_, _, count, _) => count
    case Saiz(_, _, _, _, count, _) => count
  }

  /** The bytes between the size field and the sample count. */
  function CountedHead(l: Leaf): seq<byte>
    requires Counted(l)
  {
    (ToBE(LeafKind(l), 4) + (ToBE(l.version, 1) + ToBE(l.flags, 3))) +
    (if l.Saiz? then l.aux + ToBE(l.infoSize, 1) else [])
  }

  /** What follows the count in a trun: optional words, then the table. */
  function TrunRest(l: Leaf): Layout
    requires l.Trun?
  {
    OptField(Bit(l.flags, 0x1), l.dataOffset, 4,
    OptField(Bit(l.flags, 0x4), l.firstFlags, 4, TableLayout(l.flags, l.entries, Tail(l.trailing))))
  }

  /** The bytes after the sample count. */
  function CountedBody(l: Leaf): seq<byte>
    requires Counted(l)
  {
    match l
    case Trun(_, _, _, _, _, _) => Flat(TrunRest(l))
    case Senc(_, _, _, table) => table
    case Saiz(_, _, _, _, _, table) => table
  }

  lemma {:induction false} CountedBytes(l: Leaf)
    requires Counted(l)
    ensures LeafBytes(l) ==
            (ToBE(l.version, 1) + ToBE(l.flags, 3)) +
            ((if l.Saiz? then l.aux + ToBE(l.infoSize, 1) else []) + (ToBE(Count(l), 4) + CountedBody(l)))
  {
    hide ToBE, Bit;
    var tail := ToBE(Count(l), 4) + CountedBody(l);
    match l {
      case Trun(_, _, _, _, _, _) =>
        assert Flat(Field(|l.entries|, 4, TrunRest(l))) == tail;
        assert [] + tail == tail;
        FullHeaderBytes(l.version, l.flags, Field(|l.entries|, 4, TrunRest(l)));
      case Senc(_, _, _, _) =>
        assert Flat(Field(l.count, 4, Tail(l.table))) == tail;
        assert [] + tail == tail;
        FullHeaderBytes(l.version, l.flags, Field(l.count, 4, Tail(l.table)));
      case Saiz(_, _, _, _, _, _) =>
        var count := Field(l.count, 4, Tail(l.table));
        assert Flat(count) == tail;
        assert Flat(Field(l.infoSize, 1, count)) == ToBE(l.infoSize, 1) + tail;
        Associative(l.aux, ToBE(l.infoSize, 1), tail);
        FullHeaderBytes(l.version, l.flags, Raw(l.aux, Field(l.infoSize, 1, count)));
    }
  }

  lemma FullHeaderBytes(version: byte, flags: nat, next: Layout)
    ensures Flat(FullHeader(version, flags, next)) == (ToBE(version, 1) + ToBE(flags, 3)) + Flat(next)
  {
    hide ToBE;
    assert Flat(Field(flags, 3, next)) == ToBE(flags, 3) + Flat(next);
    Associative(ToBE(version, 1), ToBE(flags, 3), Flat(next));
  }

  /** The four parts of a counted box: size, head, count, body. */
  lemma {:induction false} CountedSer(l: Leaf)
    requires Counted(l)
    ensures var s, h := Ser(Plain(l)), |CountedHead(l)|;
            Size(Plain(l)) == 8 + h + |CountedBody(l)| && h >= 8 &&
            s == ToBE(Size(Plain(l)), 4) + CountedHead(l) + ToBE(Count(l), 4) + CountedBody(l)
  {
    hide ToBE, LeafBytes, CountedBody;
    CountedBytes(l);
    Restamp.PlainBody(Plain(l));
  }

  /** The body of a skip box whose header overwrites the first 8 bytes of hole. */
  function SkipBox(hole: seq<byte>): Box
    requires |hole| >= 8
  {
    Plain(Other(SKIP, hole[8..]))
  }

  lemma {:induction false} SkipSer(hole: seq<byte>)
    requires |hole| >= 8
    ensures Ser(SkipBox(hole)) == ToBE(|hole|, 4) + ToBE(SKIP, 4) + hole[8..]
    ensures Size(SkipBox(hole)) == |hole|
    ensures |hole| < TWO32 ==> WellFormed(SkipBox(hole))
  {
    hide ToBE;
    assert LeafBytes(Other(SKIP, hole[8..])) == hole[8..];
    Associative(ToBE(|hole|, 4), ToBE(SKIP, 4), hole[8..]);
  }

  // ----- the effect of a truncation on the bytes -----

  /** s with field written at offset at. */
  function Put(s: seq<byte>, at: nat, field: seq<byte>): (t: seq<byte>)
    requires at + |field| <= |s|
    ensures |t| == |s|
  {
    s[..at] + field + s[at + |field|..]
  }

  lemma {:induction false} PutAt(s: seq<byte>, at: nat, field: seq<byte>, i: nat)
    requires at + |field| <= |s| && i < |s|
    ensures Put(s, at, field)[i] == if at <= i < at + |field| then field[i - at] else s[i]
  {
  }

  /**
   t is the box s cut to n bytes: its count, at c, says 1; if n is less than the old size the box says n, and a skip
   box covers the rest. No other byte differs.
   */
  ghost predicate CutDown(s: seq<byte>, t: seq<byte>, n: nat, c: nat)
  {
    |t| == |s| && At(t, c, 4) == 1 &&
    (n < |s| ==> At(t, 0, 4) == n && At(t, n, 4) == |s| - n && At(t, n + 4, 4) == Name('s', 'k', 'i', 'p')) &&
    forall i :: 0 <= i < |s| && !(c <= i < c + 4) && !(n < |s| && (i < 4 || n <= i < n + 8)) ==> t[i] == s[i]
  }

  lemma {:induction false} PutReads(s: seq<byte>, at: nat, v: nat)
    requires at + 4 <= |s| && v < TWO32
    ensures At(Put(s, at, ToBE(v, 4)), at, 4) == v
  {
    hide ToBE, BE;
    Widths();
    BEOfToBE(v, 4);
    assert Put(s, at, ToBE(v, 4))[at..at + 4] == ToBE(v, 4);
  }

  lemma {:induction false} PutKeeps(s: seq<byte>, at: nat, field: seq<byte>, i: nat)
    requires at + |field| <= |s| && (i + 4 <= at || at + |field| <= i)
    ensures At(Put(s, at, field), i, 4) == At(s, i, 4)
  {
    hide BE;
    if i + 4 <= |s| {
      assert Put(s, at, field)[i..i + 4] == s[i..i + 4];
    }
  }

  lemma {:induction false} CountCut(s: seq<byte>, c: nat)
    requires c + 4 <= |s|
    ensures CutDown(s, Put(s, c, ToBE(1, 4)), |s|, c)
  {
    hide ToBE, At;
    PutReads(s, c, 1);
  }

  lemma {:induction false} HeadersCut(s: seq<byte>, n: nat, c: nat)
    requires 4 <= c && c + 4 <= n && n + 8 <= |s| < TWO32
    ensures CutDown(s, Put(Put(Put(s, c, ToBE(1, 4)), 0, ToBE(n, 4)), n, ToBE(|s| - n, 4) + ToBE(SKIP, 4)), n, c)
  {
    hide ToBE, At, Put;
    var k := |s| - n;
    var a := Put(s, c, ToBE(1, 4));
    var b := Put(a, 0, ToBE(n, 4));
    var d := Put(b, n, ToBE(k, 4));
    var t := Put(d, n + 4, ToBE(SKIP, 4));
    PutTwo(b, n, ToBE(k, 4), ToBE(SKIP, 4));
    PutReads(s, c, 1);
    PutReads(a, 0, n);
    PutReads(b, n, k);
    PutReads(d, n + 4, SKIP);
    PutKeeps(a, 0, ToBE(n, 4), c);
    PutKeeps(b, n, ToBE(k, 4), c);
    PutKeeps(d, n + 4, ToBE(SKIP, 4), c);
    PutKeeps(b, n, ToBE(k, 4), 0);
    PutKeeps(d, n + 4, ToBE(SKIP, 4), 0);
    PutKeeps(d, n + 4, ToBE(SKIP, 4), n);
    forall i | 0 <= i < |s| && !(c <= i < c + 4) && !(i < 4 || n <= i < n + 8)
      ensures t[i] == s[i]
    {
      PutAt(s, c, ToBE(1, 4), i);
      PutAt(a, 0, ToBE(n, 4), i);
      PutAt(b, n, ToBE(k, 4), i);
      PutAt(d, n + 4, ToBE(SKIP, 4), i);
    }
  }

  lemma PutTwo(s: seq<byte>, n: nat, x: seq<byte>, y: seq<byte>)
    requires n + |x| + |y| <= |s|
    ensures Put(s, n, x + y) == Put(Put(s, n, x), n + |x|, y)
  {
  }

  /** Writing count 1 into a counted box gives the box with that count. */
  lemma {:induction false} PutCount(l: Leaf, one: Leaf)
    requires Counted(l) && Counted(one) && CountedHead(one) == CountedHead(l)
    requires CountedBody(one) == CountedBody(l) && Count(one) == 1
    ensures 8 + |CountedHead(l)| <= Size(Plain(l))
    ensures Put(Ser(Plain(l)), 4 + |CountedHead(l)|, ToBE(1, 4)) == SerAll([Plain(one)])
    ensures Size(Plain(one)) == Size(Plain(l))
  {
    hide ToBE, Ser, CountedHead, CountedBody, Size, Count;
    CountedSer(l);
    CountedSer(one);
    Restamp.SerAllSingle(Plain(one));
    var h := 4 + |CountedHead(l)|;
    var a, b := ToBE(Size(Plain(l)), 4) + CountedHead(l), CountedBody(l);
    var s := a + ToBE(Count(l), 4) + b;
    assert s[..h] == a && s[h + 4..] == b;
  }

  /** Writing size, count and skip header turns one counted box into a shorter one and a skip box. */
  lemma {:induction false} PutSkip(l: Leaf, one: Leaf, hole: seq<byte>)
    requires Counted(l) && Counted(one) && CountedHead(one) == CountedHead(l) && Count(one) == 1
    requires |hole| >= 8 && CountedBody(l) == CountedBody(one) + hole
    ensures var n, h := Size(Plain(one)), 4 + |CountedHead(l)|;
            var s := Ser(Plain(l));
            n + |hole| == |s| && h + 4 <= n &&
            Put(Put(Put(s, h, ToBE(1, 4)), 0, ToBE(n, 4)), n, ToBE(|hole|, 4) + ToBE(SKIP, 4)) ==
            SerAll([Plain(one), SkipBox(hole)])
  {
    hide ToBE, Ser, CountedHead, CountedBody, Size, Count, SkipBox;
    CountedSer(l);
    CountedSer(one);
    SkipSer(hole);
    TwoBoxes(Plain(one), SkipBox(hole));
    var head, body := CountedHead(l), CountedBody(one);
    var n, h := Size(Plain(one)), 4 + |head|;
    var sz := ToBE(Size(Plain(l)), 4);
    PutSkipBytes(sz, head, ToBE(Count(l), 4), body, hole, ToBE(1, 4), ToBE(n, 4), ToBE(|hole|, 4) + ToBE(SKIP, 4));
    assert sz + head + ToBE(Count(l), 4) + (body + hole) == sz + head + ToBE(Count(l), 4) + body + hole;
  }

  lemma {:induction false} PutSkipBytes(sz: seq<byte>, head: seq<byte>, count: seq<byte>, body: seq<byte>,
                                        hole: seq<byte>, one: seq<byte>, sz2: seq<byte>, skip: seq<byte>)
    requires |sz| == |sz2| == |count| == |one| == 4 && |skip| == 8 <= |hole|
    ensures var s, h, n := sz + head + count + body + hole, 4 + |head|, 8 + |head| + |body|;
            Put(Put(Put(s, h, one), 0, sz2), n, skip) == (sz2 + head + one + body) + (skip + hole[8..])
  {
    var s, h, n := sz + head + count + body + hole, 4 + |head|, 8 + |head| + |body|;
    var s1 := Put(s, h, one);
    assert s1 == sz + head + one + body + hole by {
      assert s[..h] == sz + head && s[h + 4..] == body + hole;
    }
    var s2 := Put(s1, 0, sz2);
    assert s2 == sz2 + head + one + body + hole by {
      assert s1[..0] == [] && s1[4..] == head + one + body + hole;
    }
    assert s2[..n] == sz2 + head + one + body && s2[n + 8..] == hole[8..];
  }

  lemma TwoBoxes(a: Box, b: Box)
    ensures SerAll([a, b]) == Ser(a) + Ser(b)
  {
    hide Ser;
    Restamp.SerAllSingle(b);
    SerAllUnfold([a, b]);
    assert [a, b][1..] == [b];
  }

  // ----- what the three truncations turn a box into -----

  /** The bytes of a table. */
  function TableBytes(flags: nat, entries: seq<Entry>): seq<byte>
  {
    Flat(TableLayout(flags, entries, Tail([])))
  }

  /** Bytes of the table behind its first row. */
  function FreedLength(l: Leaf): nat
    requires l.Trun?
  {
    if l.entries == [] then 0 else |TableBytes(l.flags, l.entries[1..])|
  }

  function OneEntry(l: Leaf, trailing: seq<byte>): Leaf
    requires l.Trun? && l.entries != []
  {
    Trun(l.version, l.flags, l.dataOffset, l.firstFlags, l.entries[..1], trailing)
  }

  function OneInfo(l: Leaf, table: seq<byte>): Leaf
    requires l.Saiz?
  {
    Saiz(l.version, l.flags, l.aux, l.infoSize, 1, table)
  }

  /** One sample, the rest of the table (and what trails it) left as padding or plugged by a skip box. */
  function TruncatedTrun(l: Leaf): (bs: seq<Box>)
    requires l.Trun?
    ensures 1 <= |bs| <= 2
  {
    if |l.entries| <= 1 then [Plain(l)]
    else
      var rest := TableBytes(l.flags, l.entries[1..]) + l.trailing;
      var k := |l.trailing|;
      if FreedLength(l) < 8 then
        [Plain(OneEntry(l, rest))]
      else
        [Plain(OneEntry(l, rest[..k])), SkipBox(rest[k..])]
  }

  function TruncatedSenc(l: Leaf, first: nat): (bs: seq<Box>)
    requires l.Senc?
    ensures 1 <= |bs| <= 2
  {
    if l.count <= 1 then [Plain(l)]
    else if first == 0 || |l.table| - first < 8 then [Plain(Senc(l.version, l.flags, 1, l.table))]
    else [Plain(Senc(l.version, l.flags, 1, l.table[..first])), SkipBox(l.table[first..])]
  }

  /** At most eight samples, so that no byte is freed, or a table to free count - 1 bytes from. */
  predicate SaizCuts(l: Leaf)
    requires l.Saiz?
  {
    1 <= l.count <= 8 || 9 <= l.count <= |l.table| + 1
  }

  function TruncatedSaiz(l: Leaf): (bs: seq<Box>)
    requires l.Saiz? && SaizCuts(l)
    ensures 1 <= |bs| <= 2
  {
    if l.count - 1 < 8 then [Plain(OneInfo(l, l.table))]
    else
      var n := |l.table| - (l.count - 1);
      [Plain(OneInfo(l, l.table[..n])), SkipBox(l.table[n..])]
  }

  // ----- facts about the truncated boxes -----

  lemma {:induction false} OptAppend(present: bool, v: int, n: nat, next: Layout)
    ensures Flat(OptField(present, v, n, next)) == Flat(OptField(present, v, n, Tail([]))) + Flat(next)
  {
    hide ToBE;
    if present {
      assert Flat(Field(v, n, Tail([]))) == ToBE(v, n) + [] == ToBE(v, n);
    } else {
      assert [] + Flat(next) == Flat(next);
    }
  }

  lemma {:induction false} EntryAppend(flags: nat, e: Entry, next: Layout)
    ensures Flat(EntryLayout(flags, e, next)) == Flat(EntryLayout(flags, e, Tail([]))) + Flat(next)
  {
    hide ToBE, Flat, OptField, Bit;
    var b1, b2, b3, b4 := Bit(flags, 0x100), Bit(flags, 0x200), Bit(flags, 0x400), Bit(flags, 0x800);
    var n3 := OptField(b4, e.compositionOffset, 4, next);
    var n2 := OptField(b3, e.flags, 4, n3);
    var n1 := OptField(b2, e.size, 4, n2);
    OptAppend(b4, e.compositionOffset, 4, next);
    OptAppend(b3, e.flags, 4, n3);
    OptAppend(b2, e.size, 4, n2);
    OptAppend(b1, e.duration, 4, n1);
    var t3 := OptField(b4, e.compositionOffset, 4, Tail([]));
    var t2 := OptField(b3, e.flags, 4, t3);
    var t1 := OptField(b2, e.size, 4, t2);
    OptAppend(b3, e.flags, 4, t3);
    OptAppend(b2, e.size, 4, t2);
    OptAppend(b1, e.duration, 4, t1);
    Associative(Flat(OptField(b3, e.flags, 4, Tail([]))), Flat(t3), Flat(next));
    Associative(Flat(OptField(b2, e.size, 4, Tail([]))), Flat(t2), Flat(next));
    Associative(Flat(OptField(b1, e.duration, 4, Tail([]))), Flat(t1), Flat(next));
  }

  lemma {:induction false} TableAppend(flags: nat, entries: seq<Entry>, next: Layout)
    ensures Flat(TableLayout(flags, entries, next)) == TableBytes(flags, entries) + Flat(next)
  {
    hide ToBE, EntryLayout;
    if entries == [] {
      assert [] + Flat(next) == Flat(next);
    } else {
      var t := TableLayout(flags, entries[1..], Tail([]));
      TableAppend(flags, entries[1..], next);
      EntryAppend(flags, entries[0], TableLayout(flags, entries[1..], next));
      EntryAppend(flags, entries[0], t);
      Associative(Flat(EntryLayout(flags, entries[0], Tail([]))), Flat(t), Flat(next));
    }
  }

  /** Everything of a trun body that a truncation keeps: optional words and the first row. */
  function KeptBytes(l: Leaf): seq<byte>
    requires l.Trun? && l.entries != []
  {
    Flat(OptField(Bit(l.flags, 0x1), l.dataOffset, 4, Tail([]))) +
    (Flat(OptField(Bit(l.flags, 0x4), l.firstFlags, 4, Tail([]))) +
     Flat(EntryLayout(l.flags, l.entries[0], Tail([]))))
  }

  lemma {:induction false} TrunBody(l: Leaf)
    requires l.Trun? && l.entries != []
    ensures CountedBody(l) == KeptBytes(l) + (TableBytes(l.flags, l.entries[1..]) + l.trailing)
  {
    hide ToBE, EntryLayout, OptField, Bit;
    var t := TableLayout(l.flags, l.entries, Tail(l.trailing));
    var b1, b4 := Bit(l.flags, 0x1), Bit(l.flags, 0x4);
    OptAppend(b1, l.dataOffset, 4, OptField(b4, l.firstFlags, 4, t));
    OptAppend(b4, l.firstFlags, 4, t);
    var rest := TableLayout(l.flags, l.entries[1..], Tail(l.trailing));
    EntryAppend(l.flags, l.entries[0], rest);
    TableAppend(l.flags, l.entries[1..], Tail(l.trailing));
    var e := Flat(EntryLayout(l.flags, l.entries[0], Tail([])));
    Associative(Flat(OptField(b4, l.firstFlags, 4, Tail([]))), e, Flat(rest));
    Associative(Flat(OptField(b1, l.dataOffset, 4, Tail([]))),
                Flat(OptField(b4, l.firstFlags, 4, Tail([]))) + e, Flat(rest));
  }

  lemma {:induction false} OneEntryBody(l: Leaf, trailing: seq<byte>)
    requires l.Trun? && l.entries != []
    ensures CountedBody(OneEntry(l, trailing)) == KeptBytes(l) + trailing
    ensures Counted(OneEntry(l, trailing)) && CountedHead(OneEntry(l, trailing)) == CountedHead(l)
    ensures Count(OneEntry(l, trailing)) == 1
  {
    hide ToBE, KeptBytes, CountedBody;
    var one := OneEntry(l, trailing);
    TrunBody(one);
    assert one.entries[1..] == [];
    assert TableBytes(l.flags, []) == [];
    assert [] + trailing == trailing;
    KeptOfOne(l, trailing);
  }

  lemma KeptOfOne(l: Leaf, trailing: seq<byte>)
    requires l.Trun? && l.entries != []
    ensures KeptBytes(OneEntry(l, trailing)) == KeptBytes(l)
  {
  }

  lemma {:induction false} TableByteCount(l: Leaf)
    requires l.Trun? && l.entries != []
    ensures FreedLength(l) == |TableBytes(l.flags, l.entries[1..])| == (|l.entries| - 1) * EntryWidth(l.flags)
  {
    TableLength(l.flags, l.entries[1..], Tail([]));
  }

  // ----- writing into the buffer -----

  /** A write into the buffer, seen from the box it falls in. */
  lemma {:induction false} PutSlice(was: seq<byte>, now: seq<byte>, base: nat, sz: nat, at: nat, field: seq<byte>)
    requires base + sz <= |was| && at + |field| <= sz
    requires SameOutside(was, now, base + at, base + at + |field|)
    requires now[base + at..base + at + |field|] == field
    ensures now[base..base + sz] == Put(was[base..base + sz], at, field)
    ensures SameOutside(was, now, base, base + sz)
  {
    var a, b := now[base..base + sz], Put(was[base..base + sz], at, field);
    forall i | 0 <= i < sz
      ensures a[i] == b[i]
    {
      if at <= i < at + |field| {
        assert field[i - at] == now[base + i];
      }
    }
  }

  /** SkipIsoBmffBox constructor: size and the characters "skip". */
  method WriteSkip(buf: array<byte>, locn: nat, sz: nat)
    requires locn + 8 <= buf.Length
    modifies buf
    ensures buf[..][locn..locn + 8] == ToBE(sz, 4) + ToBE(SKIP, 4)
    ensures SameOutside(old(buf[..]), buf[..], locn, locn + 8)
  {
    WriteU32(buf, locn, sz);
    ghost var mid := buf[..];
    buf[locn + 4] := 0x73;
    buf[locn + 5] := 0x6b;
    buf[locn + 6] := 0x69;
    buf[locn + 7] := 0x70;
    ToBE4(SKIP);
    ghost var now := buf[..];
    assert now[locn..locn + 4] == mid[locn..locn + 4];
    assert now[locn + 4..locn + 8] == [0x73, 0x6b, 0x69, 0x70] == ToBE(SKIP, 4);
    assert now[locn..locn + 8] == now[locn..locn + 4] + now[locn + 4..locn + 8];
  }

  /** The bytes of a box may differ only in its size field, its count field and a skip header inside it. */
  ghost predicate OnlyHeaderFields(was: seq<byte>, now: seq<byte>, base: nat, count: nat, skip: nat)
  {
    |was| == |now| &&
    forall i :: 0 <= i < |was| && !(base <= i < base + 4) && !(count <= i < count + 4) && !(skip <= i < skip + 8) ==>
      now[i] == was[i]
  }

  lemma NoWrite(s: seq<byte>, base: nat, end: nat, count: nat, skip: nat)
    ensures SameOutside(s, s, base, end) && OnlyHeaderFields(s, s, base, count, skip)
  {
  }

  /** The count field alone is written. */
  lemma {:induction false} OneWrite(s0: seq<byte>, s1: seq<byte>, base: nat, sz: nat, h: nat, one: seq<byte>, skip: nat)
    requires base + sz <= |s0| && |one| == 4 && h + 4 <= sz
    requires SameOutside(s0, s1, base + h, base + h + 4) && s1[base + h..base + h + 4] == one
    ensures s1[base..base + sz] == Put(s0[base..base + sz], h, one)
    ensures SameOutside(s0, s1, base, base + sz) && OnlyHeaderFields(s0, s1, base, base + h, skip)
  {
    PutSlice(s0, s1, base, sz, h, one);
  }

  /** The two header writes a truncation starts with. */
  method WriteSizeAndSkip(buf: array<byte>, base: nat, newSize: nat, oldSize: nat)
    requires base + oldSize <= buf.Length && 4 <= newSize && newSize + 8 <= oldSize
    modifies buf
    ensures buf[..][base..base + oldSize] == Plugged(old(buf[..][base..base + oldSize]), newSize)
    ensures SameOutside(old(buf[..]), buf[..], base, base + oldSize)
    ensures OnlyHeaderFields(old(buf[..]), buf[..], base, base, base + newSize)
  {
    hide Put, ToBE;
    ghost var s0 := buf[..];
    WriteU32(buf, base, newSize);
    ghost var s1 := buf[..];
    WriteSkip(buf, base + newSize, oldSize - newSize);
    PutSlice(s0, s1, base, oldSize, 0, ToBE(newSize, 4));
    PutSlice(s1, buf[..], base, oldSize, newSize, ToBE(oldSize - newSize, 4) + ToBE(SKIP, 4));
  }

  /** A box cut to n bytes, the rest headed as a skip box. */
  function Plugged(s: seq<byte>, n: nat): seq<byte>
    requires n + 8 <= |s|
  {
    Put(Put(s, 0, ToBE(n, 4)), n, ToBE(|s| - n, 4) + ToBE(SKIP, 4))
  }

  /** The count is written first, the header fields after it. */
  lemma {:induction false} CountThenSkip(s0: seq<byte>, s1: seq<byte>, s2: seq<byte>, base: nat, sz: nat, h: nat, n: nat)
    requires base + sz <= |s0| && h + 4 <= sz && n + 8 <= sz
    requires SameOutside(s0, s1, base + h, base + h + 4) && s1[base + h..base + h + 4] == ToBE(1, 4)
    requires OnlyHeaderFields(s1, s2, base, base, base + n) && SameOutside(s1, s2, base, base + sz)
    requires s2[base..base + sz] == Plugged(s1[base..base + sz], n)
    ensures s2[base..base + sz] ==
            Put(Put(Put(s0[base..base + sz], h, ToBE(1, 4)), 0, ToBE(n, 4)), n, ToBE(sz - n, 4) + ToBE(SKIP, 4))
    ensures SameOutside(s0, s2, base, base + sz) && OnlyHeaderFields(s0, s2, base, base + h, base + n)
  {
    hide Put, ToBE;
    PutSlice(s0, s1, base, sz, h, ToBE(1, 4));
  }

  // ----- trun -----

  /** The durations constructTrunBox adds up: those present in the table. */
  function PresentDuration(l: Leaf): nat
    requires l.Trun?
  {
    if Bit(l.flags, 0x100) then Mp4Demux.TotalDuration(l.flags, l.entries, 0) else 0
  }

  function FirstSize(l: Leaf): nat
    requires l.Trun?
  {
    if Bit(l.flags, 0x200) && l.entries != [] then l.entries[0].size else 0
  }

  lemma {:induction false} ColumnSnoc(b: seq<byte>, r: nat, w: nat, n: nat)
    ensures ColumnSum(b, r, w, n + 1) == ColumnSum(b, r, w, n) + At(b, r + n * w, 4)
    decreases n
  {
    hide At;
    if n > 0 {
      ColumnSnoc(b, r + w, w, n - 1);
      assert r + w + (n - 1) * w == r + n * w;
    }
  }

  /** The durations of the first n rows, added up on the bytes. */
  lemma {:induction false} DurationColumn(l: Leaf, n: nat)
    requires l.Trun? && WellFormedLeaf(l) && n <= |l.entries| && Bit(l.flags, 0x100)
    ensures Mp4Demux.TotalDuration(l.flags, l.entries[..n], 0) ==
            ColumnSum(LeafBytes(l), RowStart(l.flags, 0), RowWidth(l.flags), n)
    decreases n
  {
    hide LeafBytes, At, RowWidth, Mp4Demux.TotalDuration, Mp4Demux.TotalLength;
    if n == 0 {
      assert l.entries[..0] == [];
      Mp4Demux.TotalsEmpty(l.flags, 0, 0);
    } else {
      DurationColumn(l, n - 1);
      Mp4Demux.TotalsSnoc(l.flags, l.entries, n - 1, 0, 0);
      ColumnSnoc(LeafBytes(l), RowStart(l.flags, 0), RowWidth(l.flags), n - 1);
      ByteLaws.RowFields(l, n - 1);
    }
  }

  /** What the trun object keeps, read at its place. */
  lemma {:induction false} TrunColumns(l: Leaf)
    requires l.Trun? && WellFormedLeaf(l)
    ensures var b := LeafBytes(l);
            var f, r := At(b, 1, 3), RowStart(At(b, 1, 3), 0);
            f == l.flags && At(b, 4, 4) == |l.entries| &&
            FirstSize(l) == (if f / 0x200 % 2 == 1 && |l.entries| > 0 then At(b, r + 4 * (f / 0x100 % 2), 4) else 0) &&
            PresentDuration(l) == if f / 0x100 % 2 == 1 then ColumnSum(b, r, RowWidth(f), |l.entries|) else 0
  {
    hide LeafBytes, At, RowWidth, RowStart, ColumnSum;
    ByteLaws.TrunHead(l);
    if l.entries != [] {
      ByteLaws.RowFields(l, 0);
    }
    if Bit(l.flags, 0x100) {
      DurationColumn(l, |l.entries|);
      assert l.entries[..|l.entries|] == l.entries;
    }
  }

  class TrunIsoBmffBox {
    const buf: array<byte>
    const base: nat
    var size: nat
    var duration: nat
    var sample_count: nat
    const sample_count_loc: nat
    const mFirstSampleSize: nat
    const flags: nat

    /** The object tells what the track run l, stored at base, says. */
    ghost predicate Describes(l: Leaf)
      reads this, buf
    {
      l.Trun? && WellFormed(Plain(l)) && base + size <= buf.Length &&
      size == Size(Plain(l)) && buf[..][base..base + size] == Ser(Plain(l)) &&
      sample_count == |l.entries| && sample_count_loc == base + 12 && flags == l.flags &&
      duration == PresentDuration(l) && mFirstSampleSize == FirstSize(l)
    }

    /** constructTrunBox: sz and the type have been read, ptr is past them. */
    constructor (buf: array<byte>, sz: nat, ptr: nat, ghost l: Leaf)
      requires l.Trun? && WellFormed(Plain(l)) && 8 <= ptr && ptr + sz - 8 <= buf.Length
      requires sz == Size(Plain(l)) && buf[..][ptr - 8..ptr - 8 + sz] == Ser(Plain(l))
      ensures Describes(l) && this.buf == buf && base == ptr - 8
      ensures var b := buf[..][ptr..ptr + sz - 8];
              var f, r := At(b, 1, 3), RowStart(At(b, 1, 3), 0);
              flags == f && sample_count == At(b, 4, 4) &&
              mFirstSampleSize == (if f / 0x200 % 2 == 1 && sample_count > 0 then At(b, r + 4 * (f / 0x100 % 2), 4) else 0) &&
              duration == if f / 0x100 % 2 == 1 then ColumnSum(b, r, RowWidth(f), sample_count) else 0
    {
      hide At, RowStart, RowWidth, ColumnSum, Ser, LeafBytes, PresentDuration, FirstSize;
      TrunColumns(l);
      SerBody(buf[..], ptr - 8, l);
      var f, count, total, firstSize := ReadTrun(buf, ptr, ptr + sz - 8, l);
      this.buf := buf;
      this.base := ptr - 8;
      this.size := sz;
      this.sample_count_loc := ptr + 4;
      this.flags := f;
      this.sample_count := count;
      this.duration := total;
      this.mFirstSampleSize := firstSize;
    }

    /** setSize, then a skip box over what the box no longer covers. */
    method setSizeAndSkip(newSize: nat)
      requires base + size <= buf.Length && 4 <= newSize && newSize + 8 <= size
      modifies this`size, buf
      ensures size == newSize
      ensures buf[..][base..base + old(size)] == Plugged(old(buf[..][base..base + size]), newSize)
      ensures SameOutside(old(buf[..]), buf[..], base, base + old(size))
      ensures OnlyHeaderFields(old(buf[..]), buf[..], base, base, base + newSize)
    {
      WriteSizeAndSkip(buf, base, newSize, size);
      size := newSize;
    }

    /** Reduces the run to its first sample and plugs the hole with a skip box if there is room for one. */
    method truncate(ghost l: Leaf)
      requires Describes(l)
      modifies this`size, this`sample_count, buf
      ensures buf[..][base..base + old(size)] == SerAll(TruncatedTrun(l))
      ensures size == Size(TruncatedTrun(l)[0]) && sample_count == if |l.entries| > 1 then 1 else |l.entries|
      ensures SameOutside(old(buf[..]), buf[..], base, base + old(size))
      ensures OnlyHeaderFields(old(buf[..]), buf[..], base, base + 12, base + size)
      ensures old(sample_count) <= 1 ==> buf[..] == old(buf[..])
      ensures old(sample_count) > 1 ==>
              var freed := (old(sample_count) - 1) * RowWidth(flags);
              size == (if freed < 8 then old(size) else old(size) - freed) &&
              CutDown(old(buf[..][base..base + size]), buf[..][base..base + old(size)], size, 12)
    {
      hide ToBE, Ser, SerAll, TruncatedTrun, Size, Bit, BE, WellFormed, Put, Plugged, SameOutside, OnlyHeaderFields,
        PresentDuration, FirstSize, FreedLength, EntryWidth, CutDown, RowWidth;
      if sample_count > 1 {
        ghost var s0 := buf[..];
        TrunCut(l);
        var bytesPerSample := (if Bit(flags, 0x100) then 4 else 0) + (if Bit(flags, 0x200) then 4 else 0) +
                              (if Bit(flags, 0x400) then 4 else 0) + (if Bit(flags, 0x800) then 4 else 0);
        var tableSize := sample_count * bytesPerSample;
        TableSizes(l, bytesPerSample);
        var oldTrunSize := size;
        var newTrunSize := size - tableSize + bytesPerSample;
        sample_count := 1;
        WriteU32(buf, sample_count_loc, sample_count);
        ghost var s1 := buf[..];
        if oldTrunSize - newTrunSize >= 8 {
          setSizeAndSkip(newTrunSize);
        }
        AfterTrun(s0, s1, buf[..], base, l);
      } else {
        Restamp.SerAllSingle(Plain(l));
        OneIsWhole(l);
        NoWrite(buf[..], base, base + size, base + 12, base + size);
      }
    }
  }

  /** The sizes truncate computes. */
  lemma {:induction false} TableSizes(l: Leaf, w: nat)
    requires l.Trun? && |l.entries| > 1
    requires w == (if Bit(l.flags, 0x100) then 4 else 0) + (if Bit(l.flags, 0x200) then 4 else 0) +
                  (if Bit(l.flags, 0x400) then 4 else 0) + (if Bit(l.flags, 0x800) then 4 else 0)
    ensures |l.entries| * w - w == FreedLength(l) && FreedLength(l) + 8 <= Size(Plain(l)) && 16 <= Size(Plain(l))
    ensures Size(TruncatedTrun(l)[0]) == if FreedLength(l) >= 8 then Size(Plain(l)) - FreedLength(l) else Size(Plain(l))
  {
    hide Ser, SerAll, TruncatedTrun, Size, Bit, Put, EntryWidth, FreedLength;
    TrunTruncation(l);
    WidthOfRow(l.flags);
    FreedBytes(|l.entries|, w);
  }

  /** What the writes of truncate leave: s1 after the count, s2 at the end. */
  lemma {:induction false} AfterTrun(s0: seq<byte>, s1: seq<byte>, s2: seq<byte>, base: nat, l: Leaf)
    requires l.Trun? && |l.entries| > 1 && WellFormed(Plain(l)) && 16 <= Size(Plain(l))
    requires FreedLength(l) + 8 <= Size(Plain(l))
    requires base + Size(Plain(l)) <= |s0| && s0[base..base + Size(Plain(l))] == Ser(Plain(l))
    requires SameOutside(s0, s1, base + 12, base + 16) && s1[base + 12..base + 16] == ToBE(1, 4)
    requires FreedLength(l) >= 8 ==>
             var sz, n := Size(Plain(l)), Size(Plain(l)) - FreedLength(l);
             SameOutside(s1, s2, base, base + sz) && OnlyHeaderFields(s1, s2, base, base, base + n) &&
             s2[base..base + sz] == Plugged(s1[base..base + sz], n)
    requires FreedLength(l) < 8 ==> s2 == s1
    ensures |s2| == |s0| && s2[base..base + Size(Plain(l))] == SerAll(TruncatedTrun(l))
    ensures SameOutside(s0, s2, base, base + Size(Plain(l)))
    ensures OnlyHeaderFields(s0, s2, base, base + 12, base + Size(TruncatedTrun(l)[0]))
  {
    hide ToBE, Ser, SerAll, TruncatedTrun, Size, WellFormed, Put, Plugged, OnlyHeaderFields, FreedLength, EntryWidth;
    TrunTruncation(l);
    var sz, n := Size(Plain(l)), Size(TruncatedTrun(l)[0]);
    if FreedLength(l) >= 8 {
      CountThenSkip(s0, s1, s2, base, sz, 12, n);
    } else {
      OneWrite(s0, s1, base, sz, 12, ToBE(1, 4), base + n);
    }
  }

  /** The box cut to its first row. */
  lemma {:induction false} TrunCut(l: Leaf)
    requires l.Trun? && |l.entries| > 1 && WellFormed(Plain(l))
    ensures var freed, n := (|l.entries| - 1) * RowWidth(l.flags), Size(TruncatedTrun(l)[0]);
            n == (if freed < 8 then Size(Plain(l)) else Size(Plain(l)) - freed) &&
            CutDown(Ser(Plain(l)), SerAll(TruncatedTrun(l)), n, 12)
  {
    hide ToBE, Ser, SerAll, TruncatedTrun, Size, Put, CutDown, FreedLength;
    TrunTruncation(l);
    WidthsAgree(l.flags);
    FitsTrun(l);
    if FreedLength(l) < 8 {
      CountCut(Ser(Plain(l)), 12);
    } else {
      HeadersCut(Ser(Plain(l)), Size(TruncatedTrun(l)[0]), 12);
    }
  }

  lemma WidthsAgree(f: nat)
    ensures RowWidth(f) == EntryWidth(f)
  {
  }

  lemma FitsTrun(l: Leaf)
    requires WellFormed(Plain(l))
    ensures Size(Plain(l)) < TWO32
  {
  }

  lemma WidthOfRow(flags: nat)
    ensures EntryWidth(flags) ==
            (if Bit(flags, 0x100) then 4 else 0) + (if Bit(flags, 0x200) then 4 else 0) +
            (if Bit(flags, 0x400) then 4 else 0) + (if Bit(flags, 0x800) then 4 else 0)
  {
    hide Bit;
  }

  lemma FreedBytes(n: nat, w: nat)
    requires n >= 1
    ensures n * w - w == (n - 1) * w >= 0
  {
  }

  lemma OneIsWhole(l: Leaf)
    requires l.Trun? && |l.entries| <= 1
    ensures TruncatedTrun(l) == [Plain(l)]
  {
  }

  /** Which of the two outcomes a truncation of a run of several samples has. */
  lemma {:induction false} TrunTruncation(l: Leaf)
    requires l.Trun? && |l.entries| > 1
    ensures var freed, s := FreedLength(l), Ser(Plain(l));
            var after := TruncatedTrun(l);
            var n := Size(after[0]);
            16 <= n && |s| == Size(Plain(l)) && freed == (|l.entries| - 1) * EntryWidth(l.flags) &&
            (freed < 8 ==> n == |s| && Put(s, 12, ToBE(1, 4)) == SerAll(after)) &&
            (freed >= 8 ==>
               n + freed == |s| &&
               Put(Put(Put(s, 12, ToBE(1, 4)), 0, ToBE(n, 4)), n, ToBE(freed, 4) + ToBE(SKIP, 4)) == SerAll(after))
  {
    hide ToBE, Ser, SerAll, CountedHead, CountedBody, Bit, Size, TableBytes, OneEntry, KeptBytes, SkipBox, EntryWidth, Count;
    var freed := FreedLength(l);
    var rest := TableBytes(l.flags, l.entries[1..]) + l.trailing;
    var k := |l.trailing|;
    TrunBody(l);
    TableByteCount(l);
    TrunHeadLength(l);
    if freed < 8 {
      OneEntryBody(l, rest);
      PutCount(l, OneEntry(l, rest));
    } else {
      var one, hole := OneEntry(l, rest[..k]), rest[k..];
      OneEntryBody(l, rest[..k]);
      assert rest == rest[..k] + hole;
      Associative(KeptBytes(l), rest[..k], hole);
      PutSkip(l, one, hole);
    }
  }

  lemma TrunHeadLength(l: Leaf)
    requires l.Trun? || l.Senc?
    ensures |CountedHead(l)| == 8
  {
  }

  /** Reads the field the grammar has at at. */
  method ReadField(buf: array<byte>, at: nat, ghost next: nat, ghost lay: Layout) returns (v: nat)
    requires lay.Field? && lay.n == 4 && 0 <= lay.v < TWO32
    requires at <= next <= buf.Length && buf[..][at..next] == Flat(lay)
    ensures v == lay.v && at + 4 <= next && buf[..][at + 4..next] == Flat(lay.next)
  {
    Widths();
    TakeField(buf[..], at, next, lay.v, 4, Flat(lay.next));
    v := ReadU32(buf, at);
  }

  /** Passes over an optional word. */
  lemma {:induction false} SkipField(s: seq<byte>, at: nat, next: nat, present: bool, v: int, rest: Layout)
    requires at <= next <= |s| && s[at..next] == Flat(OptField(present, v, 4, rest))
    ensures at + (if present then 4 else 0) <= next
    ensures s[at + (if present then 4 else 0)..next] == Flat(rest)
  {
    if present {
      TakeField(s, at, next, v, 4, Flat(rest));
    }
  }

  lemma {:induction false} SerBody(s: seq<byte>, lo: nat, l: Leaf)
    requires lo + Size(Plain(l)) <= |s| && s[lo..lo + Size(Plain(l))] == Ser(Plain(l))
    ensures s[lo + 8..lo + Size(Plain(l))] == LeafBytes(l)
  {
    hide ToBE, LeafBytes;
    Restamp.PlainBody(Plain(l));
    var head := ToBE(Size(Plain(l)), 4) + ToBE(LeafKind(l), 4);
    Associative(ToBE(Size(Plain(l)), 4), ToBE(LeafKind(l), 4), LeafBytes(l));
    TakeBytes(s, lo, lo + Size(Plain(l)), head, LeafBytes(l));
  }

  /** PLAYER_READ_VERSION and PLAYER_READ_FLAGS. */
  method ReadVersionFlags(buf: array<byte>, at: nat, ghost next: nat, ghost lay: Layout, ghost v: byte, ghost f: nat)
    returns (version: byte, flags: nat)
    requires f < 0x100_0000 && at <= next <= buf.Length && buf[..][at..next] == Flat(FullHeader(v, f, lay))
    ensures at + 4 <= next && buf[..][at + 4..next] == Flat(lay) && version == v && flags == f
  {
    hide ToBE, Flat;
    ghost var s := buf[..];
    FullHeaderBytes(v, f, lay);
    TakeBytes(s, at, next, ToBE(v, 1) + ToBE(f, 3), Flat(lay));
    ToBE1(v);
    FlagBytes(s, at, v, f);
    version := buf[at];
    flags := Word(0, buf[at + 1], buf[at + 2], buf[at + 3]);
  }

  lemma {:induction false} FlagBytes(s: seq<byte>, at: nat, v: byte, f: nat)
    requires f < 0x100_0000 && at + 4 <= |s| && s[at..at + 4] == [v] + ToBE(f, 3)
    ensures s[at] == v && Word(0, s[at + 1], s[at + 2], s[at + 3]) == f
  {
    ToBE4(f);
    assert ToBE(f, 3) == [f / 0x1_0000 % 256, f / 256 % 256, f % 256] by {
      assert ToBE(f / 256 / 256, 1) == [f / 256 / 256 % 256];
      assert ToBE(f / 256, 2) == ToBE(f / 256 / 256, 1) + [f / 256 % 256];
    }
    var t := s[at..at + 4];
    assert t[0] == s[at] && t[1] == s[at + 1] && t[2] == s[at + 2] && t[3] == s[at + 3];
  }

  method ReadTrun(buf: array<byte>, ptr: nat, ghost next: nat, ghost l: Leaf)
    returns (flags: nat, sample_count: nat, totalSampleDuration: nat, firstSampleSize: nat)
    requires l.Trun? && WellFormedLeaf(l) && 8 <= ptr <= next <= buf.Length
    requires next == ptr - 8 + Size(Plain(l)) && buf[..][ptr - 8..next] == Ser(Plain(l))
    ensures flags == l.flags && sample_count == |l.entries|
    ensures totalSampleDuration == PresentDuration(l) && firstSampleSize == FirstSize(l)
  {
    hide ToBE, Flat, Bit, BE;
    ghost var s := buf[..];
    SerBody(s, ptr - 8, l);
    var cur := ptr;
    var version;
    ghost var table := TableLayout(l.flags, l.entries, Tail(l.trailing));
    ghost var o2 := OptField(Bit(l.flags, 0x4), l.firstFlags, 4, table);
    ghost var o1 := OptField(Bit(l.flags, 0x1), l.dataOffset, 4, o2);
    version, flags := ReadVersionFlags(buf, cur, next, Field(|l.entries|, 4, o1), l.version, l.flags);
    cur := cur + 4;
    sample_count := ReadField(buf, cur, next, Field(|l.entries|, 4, o1));
    cur := cur + 4;
    SkipField(s, cur, next, Bit(l.flags, 0x1), l.dataOffset, o2);
    if Bit(flags, 0x1) {
      cur := cur + 4;
    }
    SkipField(s, cur, next, Bit(l.flags, 0x4), l.firstFlags, table);
    if Bit(flags, 0x4) {
      cur := cur + 4;
    }
    totalSampleDuration, firstSampleSize := ReadTrunTable(buf, cur, next, flags, sample_count, l);
  }

  method ReadTrunTable(buf: array<byte>, ptr: nat, ghost next: nat, flags: nat, sample_count: nat, ghost l: Leaf)
    returns (totalSampleDuration: nat, firstSampleSize: nat)
    requires l.Trun? && WellFormedLeaf(l) && flags == l.flags && sample_count == |l.entries|
    requires ptr <= next <= buf.Length
    requires buf[..][ptr..next] == Flat(TableLayout(flags, l.entries, Tail(l.trailing)))
    ensures totalSampleDuration == PresentDuration(l) && firstSampleSize == FirstSize(l)
  {
    hide ToBE, Flat, Bit, BE;
    totalSampleDuration, firstSampleSize := 0, 0;
    var cur := ptr;
    assert l.entries[0..] == l.entries && l.entries[..0] == [];
    for i := 0 to sample_count
      invariant ptr <= cur <= next
      invariant buf[..][cur..next] == Flat(TableLayout(flags, l.entries[i..], Tail(l.trailing)))
      invariant totalSampleDuration == if Bit(flags, 0x100) then Mp4Demux.TotalDuration(flags, l.entries[..i], 0) else 0
      invariant firstSampleSize == if Bit(flags, 0x200) && i > 0 then l.entries[0].size else 0
    {
      ghost var e := l.entries[i];
      assert l.entries[i..][0] == e && l.entries[i..][1..] == l.entries[i + 1..];
      assert e in l.entries;
      var sample_duration, sample_size;
      cur, sample_duration, sample_size :=
        ReadTrunRow(buf, cur, next, flags, e, TableLayout(flags, l.entries[i + 1..], Tail(l.trailing)));
      totalSampleDuration := totalSampleDuration + sample_duration;
      if i == 0 {
        firstSampleSize := sample_size;
      }
      Mp4Demux.TotalsSnoc(flags, l.entries, i, 0, 0);
    }
    assert l.entries[..sample_count] == l.entries;
  }

  /** One row of the table: what the source reads of it, 0 for a column that is not there. */
  method ReadTrunRow(buf: array<byte>, ptr: nat, ghost next: nat, flags: nat, ghost e: Entry, ghost rest: Layout)
    returns (cur: nat, sample_duration: nat, sample_size: nat)
    requires 0 <= e.duration < TWO32 && 0 <= e.size < TWO32
    requires ptr <= next <= buf.Length && buf[..][ptr..next] == Flat(EntryLayout(flags, e, rest))
    ensures ptr <= cur <= next && buf[..][cur..next] == Flat(rest)
    ensures sample_duration == (if Bit(flags, 0x100) then e.duration else 0)
    ensures sample_size == (if Bit(flags, 0x200) then e.size else 0)
  {
    hide ToBE, Flat, Bit, BE;
    sample_duration, sample_size, cur := 0, 0, ptr;
    ghost var s := buf[..];
    ghost var n3 := OptField(Bit(flags, 0x800), e.compositionOffset, 4, rest);
    ghost var n2 := OptField(Bit(flags, 0x400), e.flags, 4, n3);
    ghost var n1 := OptField(Bit(flags, 0x200), e.size, 4, n2);
    if Bit(flags, 0x100) {
      sample_duration := ReadField(buf, cur, next, Field(e.duration, 4, n1));
      cur := cur + 4;
    }
    if Bit(flags, 0x200) {
      sample_size := ReadField(buf, cur, next, Field(e.size, 4, n2));
      cur := cur + 4;
    }
    SkipField(s, cur, next, Bit(flags, 0x400), e.flags, n3);
    if Bit(flags, 0x400) {
      cur := cur + 4;
    }
    SkipField(s, cur, next, Bit(flags, 0x800), e.compositionOffset, rest);
    if Bit(flags, 0x800) {
      cur := cur + 4;
    }
  }
}
