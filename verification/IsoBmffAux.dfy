/**
 The senc, saiz and tfdt boxes of player_isobmff (ISO/IEC 23001-7 section 7.2 and ISO/IEC 14496-12
 sections 8.7.8 and 8.8.12) with their in-place edits.
 */
module IsoBmffAux {
  import opened Bytes
  import opened Boxes
  import opened IsoBmffBox
  import opened IsoBmffEdit
  import Mp4Demux
  import opened ByteLayout
  import ByteLaws
  import Restamp

  // ----- senc -----

  /** What the header writes of a senc truncation free, in 32 bits. */
  function SencFreed(size: nat, first: nat): nat
  {
    (size - (16 + first)) % TWO32
  }

  /** The header writes happen, and they need n bytes from the start of the box to be there. */
  predicate SencRoom(n: nat, size: nat, count: nat, first: nat)
  {
    count > 1 && first > 0 && SencFreed(size, first) >= 8 ==> 16 + first + 8 <= n
  }

  /** What truncate does to the bytes from the start of a senc box of that size on. */
  function SencEdit(s: seq<byte>, size: nat, count: nat, first: nat): (t: seq<byte>)
    requires 16 <= |s| && SencRoom(|s|, size, count, first)
    ensures |t| == |s|
  {
    if count <= 1 then s
    else if first == 0 || SencFreed(size, first) < 8 then Put(s, 12, ToBE(1, 4))
    else Put(Put(Put(s, 0, ToBE(16 + first, 4)), 16 + first, ToBE(SencFreed(size, first), 4) + ToBE(SKIP, 4)), 12, ToBE(1, 4))
  }

  /** The first sample lies inside the table, or is so long that the 32-bit difference comes round to less than 8. */
  predicate SencCuts(l: Leaf, first: nat)
    requires l.Senc?
  {
    l.count <= 1 || first <= |l.table| || first - |l.table| > TWO32 - 8
  }

  lemma {:induction false} SencFreedIs(l: Leaf, first: nat)
    requires l.Senc? && first < TWO32 && Size(Plain(l)) == 16 + |l.table| < TWO32
    ensures first <= |l.table| ==> SencFreed(Size(Plain(l)), first) == |l.table| - first
    ensures first > |l.table| ==> SencFreed(Size(Plain(l)), first) == TWO32 - (first - |l.table|)
  {
    hide Size;
  }

  /** Which outcome a senc truncation has, on the bytes. */
  lemma {:induction false} SencTruncation(l: Leaf, first: nat)
    requires l.Senc? && WellFormed(Plain(l)) && first < TWO32 && SencCuts(l, first)
    ensures |Ser(Plain(l))| == Size(Plain(l)) == 16 + |l.table| && SencRoom(Size(Plain(l)), Size(Plain(l)), l.count, first)
    ensures SencEdit(Ser(Plain(l)), Size(Plain(l)), l.count, first) == SerAll(TruncatedSenc(l, first))
    ensures |SerAll(TruncatedSenc(l, first))| == Size(Plain(l))
  {
    hide ToBE, Ser, SerAll, CountedHead, Size, SkipBox, Put, SencFreed;
    SencSize(l);
    SencFreedIs(l, first);
    if l.count <= 1 {
      Restamp.SerAllSingle(Plain(l));
    } else if first == 0 || |l.table| - first < 8 {
      var one := Senc(l.version, l.flags, 1, l.table);
      SencHead(l, one);
      PutCount(l, one);
    } else {
      var one, hole := Senc(l.version, l.flags, 1, l.table[..first]), l.table[first..];
      SencHead(l, one);
      SencSize(one);
      assert l.table == l.table[..first] + hole;
      PutSkip(l, one, hole);
      PutLast(Ser(Plain(l)), 12, ToBE(1, 4), ToBE(16 + first, 4), 16 + first, ToBE(|hole|, 4) + ToBE(SKIP, 4));
    }
  }

  lemma SencSize(l: Leaf)
    requires l.Senc?
    ensures Size(Plain(l)) == |Ser(Plain(l))| == 16 + |l.table| && |CountedHead(l)| == 8
    ensures WellFormed(Plain(l)) ==> Size(Plain(l)) < TWO32 && l.count < TWO32
  {
    CountedSer(l);
  }

  /** The writes stay in the box and leave a senc of one sample (or the untouched box) at the front of boxes that fill it. */
  ghost predicate SencSound(l: Leaf, first: nat)
    requires l.Senc?
  {
    SencRoom(Size(Plain(l)), Size(Plain(l)), l.count, first) && 16 <= |Ser(Plain(l))| == Size(Plain(l)) &&
    exists after :: IsSencFirst(l, SencEdit(Ser(Plain(l)), Size(Plain(l)), l.count, first), after)
  }

  /** Two samples in a table of one byte, the first said to take two. */
  lemma {:induction false} LongFirstSencCorrupted()
    ensures var l := Senc(0, 0, 2, [0]);
            WellFormed(Plain(l)) && !SencSound(l, 2)
  {
    hide SencSound, Size;
    var l := Senc(0, 0, 2, [0]);
    SencSize(l);
    SencTruncationExact(l, 2);
  }

  ghost predicate IsSencFirst(l: Leaf, t: seq<byte>, after: seq<Box>)
    requires l.Senc?
  {
    after != [] && after[0].Plain? && after[0].leaf.Senc? && after[0].leaf.count == (if l.count > 1 then 1 else l.count) &&
    WellFormedAll(after) && t == SerAll(after)
  }

  /** For every count and every first sample size of 32 bits: exactly when a senc truncation is sound. */
  lemma {:induction false} SencTruncationExact(l: Leaf, first: nat)
    requires l.Senc? && WellFormed(Plain(l)) && first < TWO32
    ensures SencSound(l, first) <==> SencCuts(l, first)
  {
    hide ToBE, Ser, SerAll, Size, SkipBox, Put, SencEdit, SencFreed, WellFormed, WellFormedAll;
    SencSize(l);
    SencFreedIs(l, first);
    if SencCuts(l, first) {
      SencTruncation(l, first);
      TruncatedSencFits(l, first);
      assert IsSencFirst(l, SencEdit(Ser(Plain(l)), Size(Plain(l)), l.count, first), TruncatedSenc(l, first));
    }
  }

  lemma {:induction false} TruncatedSencFits(l: Leaf, first: nat)
    requires l.Senc? && WellFormed(Plain(l))
    ensures WellFormedAll(TruncatedSenc(l, first))
  {
    hide ToBE, Ser, SerAll, Size, SkipBox, CountedHead;
    SencSize(l);
    if l.count <= 1 {
      SingleWellFormed(Plain(l));
    } else if first == 0 || |l.table| - first < 8 {
      var one := Senc(l.version, l.flags, 1, l.table);
      SencSize(one);
      SingleWellFormed(Plain(one));
    } else {
      var one, hole := Senc(l.version, l.flags, 1, l.table[..first]), l.table[first..];
      SencSize(one);
      SkipSer(hole);
      SingleWellFormed(SkipBox(hole));
      assert [Plain(one), SkipBox(hole)][1..] == [SkipBox(hole)];
    }
  }

  lemma SencHead(l: Leaf, one: Leaf)
    requires l.Senc? && one.Senc? && one.version == l.version && one.flags == l.flags
    ensures CountedHead(one) == CountedHead(l) && |CountedHead(l)| == 8
  {
  }

  class SencIsoBmffBox {
    const buf: array<byte>
    const base: nat
    const size: nat
    const sampleCountLoc: nat
    var numSamples: nat

    ghost predicate Describes(l: Leaf)
      reads this, buf
    {
      l.Senc? && WellFormed(Plain(l)) && base + size <= buf.Length &&
      size == Size(Plain(l)) && buf[..][base..base + size] == Ser(Plain(l)) &&
      numSamples == l.count && sampleCountLoc == base + 12
    }

    /** constructSencBox */
    constructor (buf: array<byte>, sz: nat, ptr: nat, ghost l: Leaf)
      requires l.Senc? && WellFormed(Plain(l)) && 8 <= ptr && ptr + sz - 8 <= buf.Length
      requires sz == Size(Plain(l)) && buf[..][ptr - 8..ptr - 8 + sz] == Ser(Plain(l))
      ensures Describes(l) && this.buf == buf && base == ptr - 8
      ensures numSamples == At(buf[..][ptr..ptr + sz - 8], 4, 4)
    {
      hide At, Ser;
      ByteLaws.SencFields(l);
      ghost var next := ptr - 8 + sz;
      SerBody(buf[..], ptr - 8, l);
      var version, flags := ReadVersionFlags(buf, ptr, next, Field(l.count, 4, Tail(l.table)), l.version, l.flags);
      var count := ReadField(buf, ptr + 4, next, Field(l.count, 4, Tail(l.table)));
      this.buf := buf;
      this.base := ptr - 8;
      this.size := sz;
      this.sampleCountLoc := ptr + 4;
      this.numSamples := count;
    }

    /**
     Keeps the first sample, whose size the caller knows from the saiz box; the size member is left as it was. The
     source does not check that size; see SencTruncationExact.
     */
    method truncate(firstSampleSize: nat, ghost l: Leaf)
      requires Describes(l) && firstSampleSize < TWO32
      requires SencRoom(buf.Length - base, size, l.count, firstSampleSize)
      modifies this`numSamples, buf
      ensures 16 <= size
      ensures buf[..][base..] == SencEdit(old(buf[..][base..]), size, l.count, firstSampleSize)
      ensures buf[..][..base] == old(buf[..][..base])
      ensures numSamples == if l.count > 1 then 1 else l.count
      ensures SencCuts(l, firstSampleSize) ==>
              buf[..][base..base + size] == SerAll(TruncatedSenc(l, firstSampleSize)) &&
              SameOutside(old(buf[..]), buf[..], base, base + size) &&
              OnlyHeaderFields(old(buf[..]), buf[..], base, base + 12, base + Size(TruncatedSenc(l, firstSampleSize)[0]))
      ensures old(numSamples) <= 1 ==> buf[..] == old(buf[..])
      ensures old(numSamples) > 1 && firstSampleSize <= size - 16 ==>
              var n := if firstSampleSize == 0 || size - 16 - firstSampleSize < 8 then size else 16 + firstSampleSize;
              CutDown(old(buf[..][base..base + size]), buf[..][base..base + size], n, 12)
    {
      hide ToBE, Ser, SerAll, Size, TruncatedSenc, Put, SameOutside, OnlyHeaderFields, WellFormed, SencFreed, CutDown;
      SencCut(l, firstSampleSize);
      SencSize(l);
      ghost var was := buf[..];
      if numSamples > 1 {
        if firstSampleSize != 0 {
          var newEnd := sampleCountLoc + 4 + firstSampleSize;
          var oldSize := size;
          var newSize := (newEnd - base) % TWO32;
          SencFreedWraps(oldSize, firstSampleSize);
          if (oldSize - newSize) % TWO32 >= 8 {
            WriteHeaders(buf, base, newSize, newEnd, (oldSize - newSize) % TWO32);
            SameWord(16 + firstSampleSize);
          }
        }
        numSamples := 1;
        WriteCount(buf, base, sampleCountLoc, numSamples);
      }
      AfterSenc(was, buf[..], base, l, firstSampleSize);
    }
  }

  /** A senc box cut behind its first sample. */
  lemma {:induction false} SencCut(l: Leaf, first: nat)
    requires l.Senc? && WellFormed(Plain(l)) && first < TWO32
    ensures Size(Plain(l)) == 16 + |l.table|
    ensures l.count > 1 && first <= |l.table| ==>
            var n := if first == 0 || |l.table| - first < 8 then Size(Plain(l)) else 16 + first;
            CutDown(Ser(Plain(l)), SerAll(TruncatedSenc(l, first)), n, 12)
  {
    hide ToBE, Ser, SerAll, TruncatedSenc, Size, Put, SencFreed, CutDown;
    SencSize(l);
    SencFreedIs(l, first);
    if l.count > 1 && first <= |l.table| {
      SencTruncation(l, first);
      if first == 0 || |l.table| - first < 8 {
        CountCut(Ser(Plain(l)), 12);
      } else {
        HeadersCut(Ser(Plain(l)), 16 + first, 12);
        PutLast(Ser(Plain(l)), 12, ToBE(1, 4), ToBE(16 + first, 4), 16 + first, ToBE(|l.table| - first, 4) + ToBE(SKIP, 4));
      }
    }
  }

  lemma SencFreedWraps(size: nat, first: nat)
    ensures (size - (16 + first) % TWO32) % TWO32 == SencFreed(size, first)
  {
  }

  /** The size of the box at base, and a skip header at locn, seen from base on. */
  method WriteHeaders(buf: array<byte>, base: nat, newSize: nat, locn: nat, sz: nat)
    requires base + 4 <= buf.Length && base <= locn && locn + 8 <= buf.Length
    modifies buf
    ensures buf[..][base..] ==
            Put(Put(old(buf[..][base..]), 0, ToBE(newSize, 4)), locn - base, ToBE(sz, 4) + ToBE(SKIP, 4))
    ensures buf[..][..base] == old(buf[..][..base])
  {
    hide ToBE, Put;
    ghost var s0, n := buf[..], buf.Length - base;
    WriteU32(buf, base, newSize);
    ghost var s1 := buf[..];
    WriteSkip(buf, locn, sz);
    FieldFromBase(s0, s1, base, 0, ToBE(newSize, 4));
    FieldFromBase(s1, buf[..], base, locn - base, ToBE(sz, 4) + ToBE(SKIP, 4));
  }

  method WriteCount(buf: array<byte>, base: nat, loc: nat, count: nat)
    requires base <= loc && loc + 4 <= buf.Length
    modifies buf
    ensures buf[..][base..] == Put(old(buf[..][base..]), loc - base, ToBE(count, 4))
    ensures buf[..][..base] == old(buf[..][..base])
  {
    hide ToBE, Put;
    ghost var s0 := buf[..];
    WriteU32(buf, loc, count);
    FieldFromBase(s0, buf[..], base, loc - base, ToBE(count, 4));
  }

  lemma {:induction false} FieldFromBase(was: seq<byte>, now: seq<byte>, base: nat, at: nat, field: seq<byte>)
    requires base + at + |field| <= |was| && SameOutside(was, now, base + at, base + at + |field|)
    requires now[base + at..base + at + |field|] == field
    ensures now[base..] == Put(was[base..], at, field) && now[..base] == was[..base]
  {
    hide Put;
    PutSlice(was, now, base, |was| - base, at, field);
    assert was[base..base + (|was| - base)] == was[base..] && now[base..base + (|was| - base)] == now[base..];
  }

  lemma {:induction false} PutLast(s: seq<byte>, h: nat, one: seq<byte>, newSize: seq<byte>, n: nat, skip: seq<byte>)
    requires |one| == |newSize| == 4 && |skip| == 8 && 4 <= h && h + 4 <= n && n + 8 <= |s|
    ensures Put(Put(Put(s, 0, newSize), n, skip), h, one) == Put(Put(Put(s, h, one), 0, newSize), n, skip)
  {
    hide Put;
    var x1, y1 := Put(s, 0, newSize), Put(s, h, one);
    var x2, y2 := Put(x1, n, skip), Put(y1, 0, newSize);
    var x3, y3 := Put(x2, h, one), Put(y2, n, skip);
    forall i | 0 <= i < |s|
      ensures x3[i] == y3[i]
    {
      PutAt(s, 0, newSize, i);
      PutAt(x1, n, skip, i);
      PutAt(x2, h, one, i);
      PutAt(s, h, one, i);
      PutAt(y1, 0, newSize, i);
      PutAt(y2, n, skip, i);
    }
  }

  lemma SameWord(v: nat)
    ensures ToBE(v % TWO32, 4) == ToBE(v, 4)
  {
    hide ToBE;
    Widths();
    ToBECongruent(v % TWO32, v, 4);
  }

  /** A write inside the first n bytes. */
  lemma {:induction false} PutInside(s: seq<byte>, n: nat, at: nat, field: seq<byte>)
    requires at + |field| <= n <= |s|
    ensures Put(s, at, field)[..n] == Put(s[..n], at, field) && Put(s, at, field)[n..] == s[n..]
  {
  }

  lemma {:induction false} PutElsewhere(s: seq<byte>, at: nat, field: seq<byte>)
    requires at + |field| <= |s|
    ensures forall i :: 0 <= i < |s| && !(at <= i < at + |field|) ==> Put(s, at, field)[i] == s[i]
  {
  }

  /** Seen from the box: what the three writes leave when they stay inside it. */
  lemma {:induction false} ThreeWrites(s: seq<byte>, size: nat, sz: seq<byte>, at: nat, skip: seq<byte>, h: nat, one: seq<byte>)
    requires |sz| == |one| == 4 && |skip| == 8 && at + 8 <= size <= |s| && h + 4 <= size
    ensures var t := Put(Put(Put(s, 0, sz), at, skip), h, one);
            t[..size] == Put(Put(Put(s[..size], 0, sz), at, skip), h, one) && t[size..] == s[size..] &&
            forall i :: 0 <= i < |s| && !(0 <= i < 4) && !(at <= i < at + 8) && !(h <= i < h + 4) ==> t[i] == s[i]
  {
    hide Put;
    var a := Put(s, 0, sz);
    var b := Put(a, at, skip);
    PutInside(s, size, 0, sz);
    PutInside(a, size, at, skip);
    PutInside(b, size, h, one);
    PutElsewhere(s, 0, sz);
    PutElsewhere(a, at, skip);
    PutElsewhere(b, h, one);
  }

  lemma {:induction false} FromBase(was: seq<byte>, now: seq<byte>, base: nat, size: nat)
    requires base + size <= |was| == |now| && now[..base] == was[..base] && now[base..][size..] == was[base..][size..]
    ensures SameOutside(was, now, base, base + size) && now[base..base + size] == now[base..][..size]
  {
    forall i | 0 <= i < |was| && !(base <= i < base + size)
      ensures now[i] == was[i]
    {
      if i < base {
        assert now[..base][i] == was[..base][i];
      } else {
        assert now[base..][size..][i - base - size] == was[base..][size..][i - base - size];
      }
    }
  }

  lemma {:induction false} HeadersFromBase(was: seq<byte>, now: seq<byte>, base: nat, h: nat, skip: nat)
    requires base <= |was| == |now| && now[..base] == was[..base]
    requires forall i :: 0 <= i < |was| - base && !(0 <= i < 4) && !(skip <= i < skip + 8) && !(h <= i < h + 4) ==>
               now[base..][i] == was[base..][i]
    ensures OnlyHeaderFields(was, now, base, base + h, base + skip)
  {
    forall i | 0 <= i < |was| && !(base <= i < base + 4) && !(base + h <= i < base + h + 4) &&
               !(base + skip <= i < base + skip + 8)
      ensures now[i] == was[i]
    {
      if i < base {
        assert now[..base][i] == was[..base][i];
      } else {
        assert now[base..][i - base] == was[base..][i - base];
      }
    }
  }

  lemma {:induction false} AfterSenc(was: seq<byte>, now: seq<byte>, base: nat, l: Leaf, first: nat)
    requires l.Senc? && WellFormed(Plain(l)) && first < TWO32 && 16 <= Size(Plain(l)) == |Ser(Plain(l))|
    requires base + Size(Plain(l)) <= |was| == |now| && was[base..base + Size(Plain(l))] == Ser(Plain(l))
    requires SencRoom(|was| - base, Size(Plain(l)), l.count, first)
    requires now[base..] == SencEdit(was[base..], Size(Plain(l)), l.count, first) && now[..base] == was[..base]
    ensures SencCuts(l, first) ==>
            now[base..base + Size(Plain(l))] == SerAll(TruncatedSenc(l, first)) &&
            SameOutside(was, now, base, base + Size(Plain(l))) &&
            OnlyHeaderFields(was, now, base, base + 12, base + Size(TruncatedSenc(l, first)[0]))
  {
    hide ToBE, Ser, SerAll, Size, Put, SencFreed, SkipBox, SameOutside, OnlyHeaderFields;
    if SencCuts(l, first) {
      var size, s := Size(Plain(l)), was[base..];
      SencTruncation(l, first);
      SencFreedIs(l, first);
      SencSize(l);
      assert s[..size] == Ser(Plain(l));
      if l.count > 1 {
        if first == 0 || SencFreed(size, first) < 8 {
          PutInside(s, size, 12, ToBE(1, 4));
          PutElsewhere(s, 12, ToBE(1, 4));
        } else {
          SencSize(Senc(l.version, l.flags, 1, l.table[..first]));
          ThreeWrites(s, size, ToBE(16 + first, 4), 16 + first, ToBE(SencFreed(size, first), 4) + ToBE(SKIP, 4), 12, ToBE(1, 4));
        }
      }
      FromBase(was, now, base, size);
      HeadersFromBase(was, now, base, 12, Size(TruncatedSenc(l, first)[0]));
    }
  }

  // ----- saiz -----

  /** Offset of the sample count in a saiz box. */
  function InfoCountAt(l: Leaf): nat
    requires l.Saiz?
  {
    13 + |l.aux|
  }

  /** oldSize - newSize, in 32 bits: count - 1, which comes round for count 0. */
  function SaizFreed(count: nat): (f: nat)
    ensures f < TWO32
  {
    (count - 1) % TWO32
  }

  function SaizNewSize(size: nat, count: nat): (n: nat)
  {
    (size - (count - 1)) % TWO32
  }

  /** The header writes happen, and they need n bytes from the start of the box to be there. */
  predicate SaizRoom(n: nat, size: nat, count: nat)
  {
    SaizFreed(count) >= 8 ==> SaizNewSize(size, count) + 8 <= n
  }

  /** What truncate does to the bytes from the start of a saiz box of that size on; h is where its count is. */
  function SaizEdit(s: seq<byte>, size: nat, h: nat, count: nat): (t: seq<byte>)
    requires h + 4 <= |s| && SaizRoom(|s|, size, count)
    ensures |t| == |s|
  {
    var n, freed := SaizNewSize(size, count), SaizFreed(count);
    if freed < 8 then Put(s, h, ToBE(1, 4))
    else Put(Put(Put(s, 0, ToBE(n, 4)), n, ToBE(freed, 4) + ToBE(SKIP, 4)), h, ToBE(1, 4))
  }

  /** The two differences of the source, when the skip box lies in the old one and when it does not. */
  lemma {:induction false} SaizSizes(size: nat, count: nat)
    requires size < TWO32 && count < TWO32
    ensures (size - SaizNewSize(size, count)) % TWO32 == SaizFreed(count)
    ensures 1 <= count <= size + 1 ==> SaizFreed(count) == count - 1 && SaizNewSize(size, count) == size - (count - 1)
    ensures count > size + 1 ==> SaizFreed(count) == count - 1 && SaizNewSize(size, count) > size
    ensures count == 0 ==> SaizFreed(count) == TWO32 - 1 && (SaizNewSize(size, count) > size || SaizNewSize(size, count) == 0)
  {
  }

  class SaizIsoBmffBox {
    const buf: array<byte>
    const base: nat
    const size: nat
    const sampleCountLoc: nat
    var numSamples: nat
    const firstSampleInfoSize: nat

    ghost predicate Describes(l: Leaf)
      reads this, buf
    {
      l.Saiz? && WellFormed(Plain(l)) && base + size <= buf.Length &&
      size == Size(Plain(l)) && buf[..][base..base + size] == Ser(Plain(l)) &&
      numSamples == l.count && sampleCountLoc == base + InfoCountAt(l) &&
      (l.infoSize != 0 || base + InfoCountAt(l) + 4 < buf.Length) &&
      firstSampleInfoSize == if l.infoSize == 0 then buf[base + InfoCountAt(l) + 4] else l.infoSize
    }

    /** constructSaizBox; without a default size the source reads the byte behind the count, table or not. */
    constructor (buf: array<byte>, sz: nat, ptr: nat, ghost l: Leaf)
      requires l.Saiz? && WellFormed(Plain(l)) && 8 <= ptr && ptr + sz - 8 <= buf.Length
      requires sz == Size(Plain(l)) && buf[..][ptr - 8..ptr - 8 + sz] == Ser(Plain(l))
      requires l.infoSize != 0 || ptr - 8 + InfoCountAt(l) + 4 < buf.Length
      ensures Describes(l) && this.buf == buf && base == ptr - 8
      ensures var b := buf[..][ptr..ptr + sz - 8];
              var loc := if At(b, 1, 3) % 2 == 1 then 13 else 5;
              sampleCountLoc == ptr + loc && numSamples == At(b, loc, 4) && ptr + loc + 4 <= buf.Length &&
              firstSampleInfoSize ==
                if At(b, loc - 1, 1) != 0 then At(b, loc - 1, 1) else if ptr + loc + 4 < buf.Length then buf[ptr + loc + 4] else 0
    {
      hide At, LeafBytes, Ser;
      ByteLaws.SaizFields(l);
      SerBody(buf[..], ptr - 8, l);
      var loc, count, info := ReadSaiz(buf, ptr, l);
      this.buf := buf;
      this.base := ptr - 8;
      this.size := sz;
      this.sampleCountLoc := loc;
      this.numSamples := count;
      this.firstSampleInfoSize := info;
    }

    /** The source checks neither the count nor that there is a table to cut; see SaizTruncationExact. */
    method truncate(ghost l: Leaf)
      requires Describes(l) && SaizRoom(buf.Length - base, size, l.count)
      modifies this`numSamples, buf
      ensures InfoCountAt(l) + 4 <= size && numSamples == 1
      ensures buf[..][base..] == SaizEdit(old(buf[..][base..]), size, InfoCountAt(l), l.count)
      ensures buf[..][..base] == old(buf[..][..base])
      ensures SaizCuts(l) ==>
              buf[..][base..base + size] == SerAll(TruncatedSaiz(l)) &&
              SameOutside(old(buf[..]), buf[..], base, base + size) &&
              OnlyHeaderFields(old(buf[..]), buf[..], base, base + InfoCountAt(l), base + Size(TruncatedSaiz(l)[0]))
      ensures 1 <= old(numSamples) <= 8 || 9 <= old(numSamples) <= base + size - (sampleCountLoc + 4) + 1 ==>
              var n := if old(numSamples) <= 8 then size else size - (old(numSamples) - 1);
              CutDown(old(buf[..][base..base + size]), buf[..][base..base + size], n, sampleCountLoc - base)
    {
      hide ToBE, Ser, SerAll, Size, TruncatedSaiz, Put, SameOutside, OnlyHeaderFields, WellFormed, SaizFreed, SaizNewSize, CutDown;
      SaizCut(l);
      SaizSize(l);
      FitsWord(l);
      SaizSizes(size, l.count);
      ghost var was := buf[..];
      var oldSize := size;
      var newSize := NewSizeOf(oldSize, numSamples);
      if (oldSize - newSize) % TWO32 >= 8 {
        WriteHeaders(buf, base, newSize, base + newSize, (oldSize - newSize) % TWO32);
      }
      numSamples := 1;
      WriteCount(buf, base, sampleCountLoc, 1);
      AfterSaiz(was, buf[..], base, l);
    }
  }

  /** A saiz box cut by the sizes of all samples but the first. */
  lemma {:induction false} SaizCut(l: Leaf)
    requires l.Saiz? && WellFormed(Plain(l))
    ensures Size(Plain(l)) == InfoCountAt(l) + 4 + |l.table|
    ensures SaizCuts(l) ==>
            CutDown(Ser(Plain(l)), SerAll(TruncatedSaiz(l)), if l.count <= 8 then Size(Plain(l)) else Size(Plain(l)) - (l.count - 1),
                    InfoCountAt(l))
  {
    hide ToBE, Ser, SerAll, TruncatedSaiz, Size, Put, SaizFreed, SaizNewSize, CutDown;
    SaizSize(l);
    FitsWord(l);
    if SaizCuts(l) {
      var s, h, n := Ser(Plain(l)), InfoCountAt(l), Size(Plain(l)) - (l.count - 1);
      SaizTruncation(l);
      SaizSizes(Size(Plain(l)), l.count);
      if l.count <= 8 {
        CountCut(s, h);
      } else {
        HeadersCut(s, n, h);
        PutLast(s, h, ToBE(1, 4), ToBE(n, 4), n, ToBE(l.count - 1, 4) + ToBE(SKIP, 4));
      }
    }
  }

  /** oldSize - (numSamples - 1) on uint32_t. */
  method NewSizeOf(oldSize: nat, numSamples: nat) returns (newSize: nat)
    ensures newSize == SaizNewSize(oldSize, numSamples)
  {
    var less := (numSamples - 1) % TWO32;
    newSize := (oldSize - less) % TWO32;
  }

  lemma {:induction false} AfterSaiz(was: seq<byte>, now: seq<byte>, base: nat, l: Leaf)
    requires l.Saiz? && WellFormed(Plain(l)) && InfoCountAt(l) + 4 <= Size(Plain(l)) == |Ser(Plain(l))|
    requires base + Size(Plain(l)) <= |was| == |now| && was[base..base + Size(Plain(l))] == Ser(Plain(l))
    requires SaizRoom(|was| - base, Size(Plain(l)), l.count)
    requires now[base..] == SaizEdit(was[base..], Size(Plain(l)), InfoCountAt(l), l.count) && now[..base] == was[..base]
    ensures SaizCuts(l) ==>
            now[base..base + Size(Plain(l))] == SerAll(TruncatedSaiz(l)) &&
            SameOutside(was, now, base, base + Size(Plain(l))) &&
            OnlyHeaderFields(was, now, base, base + InfoCountAt(l), base + Size(TruncatedSaiz(l)[0]))
  {
    hide ToBE, Ser, SerAll, Size, Put, SaizFreed, SaizNewSize, SkipBox, SameOutside, OnlyHeaderFields;
    if SaizCuts(l) {
      var size, s, h := Size(Plain(l)), was[base..], InfoCountAt(l);
      SaizTruncation(l);
      FitsWord(l);
      SaizSizes(size, l.count);
      assert s[..size] == Ser(Plain(l));
      if SaizFreed(l.count) < 8 {
        PutInside(s, size, h, ToBE(1, 4));
        PutElsewhere(s, h, ToBE(1, 4));
      } else {
        var n := SaizNewSize(size, l.count);
        ThreeWrites(s, size, ToBE(n, 4), n, ToBE(SaizFreed(l.count), 4) + ToBE(SKIP, 4), h, ToBE(1, 4));
        SaizSize(l);
        SaizSize(OneInfo(l, l.table[..|l.table| - (l.count - 1)]));
      }
      FromBase(was, now, base, size);
      HeadersFromBase(was, now, base, h, Size(TruncatedSaiz(l)[0]));
    }
  }

  lemma SaizSize(l: Leaf)
    requires l.Saiz?
    ensures Size(Plain(l)) == |Ser(Plain(l))| == InfoCountAt(l) + 4 + |l.table|
    ensures |CountedHead(l)| == 9 + |l.aux|
  {
    CountedSer(l);
  }

  method ReadSaiz(buf: array<byte>, start: nat, ghost l: Leaf)
    returns (sample_count_loc: nat, sample_count: nat, sample_info_size: nat)
    requires l.Saiz? && WellFormedLeaf(l) && 8 <= start && start - 8 + Size(Plain(l)) <= buf.Length
    requires buf[..][start - 8..start - 8 + Size(Plain(l))] == Ser(Plain(l))
    requires l.infoSize != 0 || start - 8 + InfoCountAt(l) + 4 < buf.Length
    ensures sample_count_loc == start - 8 + InfoCountAt(l) && sample_count == l.count
    ensures sample_info_size == if l.infoSize == 0 then buf[start - 8 + InfoCountAt(l) + 4] else l.infoSize
  {
    hide ToBE, Ser, Bit;
    ghost var s, next := buf[..], start - 8 + Size(Plain(l));
    SerBody(s, start - 8, l);
    ghost var count := Field(l.count, 4, Tail(l.table));
    ghost var info := Field(l.infoSize, 1, count);
    var ptr := start;
    var version, flags := ReadVersionFlags(buf, ptr, next, Raw(l.aux, info), l.version, l.flags);
    ptr := ptr + 4;
    TakeBytes(s, ptr, next, l.aux, Flat(info));
    if Bit(flags, 1) {
      ptr := ptr + 8;
    }
    TakeBytes(s, ptr, next, ToBE(l.infoSize, 1), Flat(count));
    ToBE1(l.infoSize);
    assert s[ptr] == s[ptr..ptr + 1][0];
    var default_sample_info_size := buf[ptr];
    ptr := ptr + 1;
    sample_count_loc := ptr;
    sample_count := ReadField(buf, ptr, next, count);
    ptr := ptr + 4;
    if default_sample_info_size == 0 {
      sample_info_size := buf[ptr];
    } else {
      sample_info_size := default_sample_info_size;
    }
  }

  /** When it cuts, the edit stays in the box and leaves a saiz of one sample and, if 8 bytes are freed, a skip box. */
  lemma {:induction false} SaizTruncation(l: Leaf)
    requires l.Saiz? && WellFormed(Plain(l)) && SaizCuts(l)
    ensures |Ser(Plain(l))| == Size(Plain(l)) == InfoCountAt(l) + 4 + |l.table|
    ensures SaizRoom(Size(Plain(l)), Size(Plain(l)), l.count)
    ensures SaizEdit(Ser(Plain(l)), Size(Plain(l)), InfoCountAt(l), l.count) == SerAll(TruncatedSaiz(l))
    ensures |SerAll(TruncatedSaiz(l))| == Size(Plain(l))
  {
    hide ToBE, Ser, SerAll, CountedHead, Size, SkipBox, Put, SaizFreed, SaizNewSize;
    SaizSize(l);
    FitsWord(l);
    SaizSizes(Size(Plain(l)), l.count);
    if l.count <= 8 {
      var one := OneInfo(l, l.table);
      SaizHead(l, one);
      PutCount(l, one);
    } else {
      var n := |l.table| - (l.count - 1);
      var one, hole := OneInfo(l, l.table[..n]), l.table[n..];
      SaizHead(l, one);
      SaizSize(one);
      assert l.table == l.table[..n] + hole;
      PutSkip(l, one, hole);
      PutLast(Ser(Plain(l)), InfoCountAt(l), ToBE(1, 4), ToBE(Size(Plain(one)), 4), Size(Plain(one)),
              ToBE(|hole|, 4) + ToBE(SKIP, 4));
    }
  }

  lemma SaizHead(l: Leaf, one: Leaf)
    requires l.Saiz? && one.Saiz? && one.version == l.version && one.flags == l.flags
    requires one.aux == l.aux && one.infoSize == l.infoSize
    ensures CountedHead(one) == CountedHead(l)
  {
  }

  /** The writes stay in the box and leave a saiz of one sample at the front of well-formed boxes that fill it. */
  ghost predicate SaizSound(l: Leaf)
    requires l.Saiz?
  {
    InfoCountAt(l) + 4 <= |Ser(Plain(l))| == Size(Plain(l)) && SaizRoom(Size(Plain(l)), Size(Plain(l)), l.count) &&
    exists after :: IsSaizFirst(SaizEdit(Ser(Plain(l)), Size(Plain(l)), InfoCountAt(l), l.count), after)
  }

  /** Nine samples of one size, and no table. */
  lemma {:induction false} ConstantSaizCorrupted()
    ensures var l := Saiz(0, 0, [], 4, 9, []);
            WellFormed(Plain(l)) && !SaizSound(l)
  {
    hide SaizSound, Size;
    var l := Saiz(0, 0, [], 4, 9, []);
    SaizSize(l);
    SaizTruncationExact(l);
  }

  ghost predicate IsSaizFirst(t: seq<byte>, after: seq<Box>)
  {
    after != [] && after[0].Plain? && after[0].leaf.Saiz? && after[0].leaf.count == 1 && WellFormedAll(after) &&
    t == SerAll(after)
  }

  /**
   For every count a saiz box can hold, 0 and those that wrap included: exactly when truncating it is sound. A box
   with one size for all samples (no table) is corrupted from nine samples on.
   */
  lemma {:induction false} SaizTruncationExact(l: Leaf)
    requires l.Saiz? && WellFormed(Plain(l))
    ensures SaizSound(l) <==> SaizCuts(l)
  {
    hide ToBE, Ser, SerAll, Size, SkipBox, Put, SaizEdit, SaizFreed, SaizNewSize, WellFormed, WellFormedAll, IsSaizFirst;
    SaizSize(l);
    var t := Ser(Plain(l));
    if SaizCuts(l) {
      SaizTruncation(l);
      TruncatedSaizFits(l);
      FirstInfo(l);
      assert IsSaizFirst(SaizEdit(t, Size(Plain(l)), InfoCountAt(l), l.count), TruncatedSaiz(l));
    } else if SaizSound(l) {
      var after :| IsSaizFirst(SaizEdit(t, Size(Plain(l)), InfoCountAt(l), l.count), after);
      SaizHasTable(l, after);
    }
  }

  lemma FirstInfo(l: Leaf)
    requires l.Saiz? && SaizCuts(l) && WellFormedAll(TruncatedSaiz(l))
    ensures IsSaizFirst(SerAll(TruncatedSaiz(l)), TruncatedSaiz(l))
  {
    hide SerAll, WellFormedAll, SkipBox;
  }

  lemma {:induction false} TruncatedSaizFits(l: Leaf)
    requires l.Saiz? && WellFormed(Plain(l)) && SaizCuts(l)
    ensures WellFormedAll(TruncatedSaiz(l))
  {
    hide ToBE, Ser, SerAll, Size, SkipBox;
    SaizSize(l);
    if l.count <= 8 {
      SaizOneFits(l, |l.table|);
      assert l.table[..|l.table|] == l.table;
      SingleWellFormed(Plain(OneInfo(l, l.table)));
    } else {
      var n := |l.table| - (l.count - 1);
      SaizOneFits(l, n);
      SkipSer(l.table[n..]);
      SingleWellFormed(SkipBox(l.table[n..]));
      assert [Plain(OneInfo(l, l.table[..n])), SkipBox(l.table[n..])][1..] == [SkipBox(l.table[n..])];
    }
  }

  lemma SaizOneFits(l: Leaf, n: nat)
    requires l.Saiz? && WellFormed(Plain(l)) && n <= |l.table|
    ensures WellFormed(Plain(OneInfo(l, l.table[..n])))
  {
    SaizSize(l);
    SaizSize(OneInfo(l, l.table[..n]));
  }

  /** If a saiz is left at the front, nothing was freed or there was a table to free it from. */
  lemma {:induction false} SaizHasTable(l: Leaf, after: seq<Box>)
    requires l.Saiz? && WellFormed(Plain(l)) && InfoCountAt(l) + 4 <= Size(Plain(l)) == |Ser(Plain(l))|
    requires SaizRoom(Size(Plain(l)), Size(Plain(l)), l.count)
    requires IsSaizFirst(SaizEdit(Ser(Plain(l)), Size(Plain(l)), InfoCountAt(l), l.count), after)
    ensures SaizCuts(l)
  {
    hide ToBE, Ser, SerAll, Size, Put, SaizEdit, CountedHead, WellFormed, Bit, SaizFreed, SaizNewSize;
    var s, h, size, one := Ser(Plain(l)), InfoCountAt(l), Size(Plain(l)), after[0].leaf;
    SaizSize(l);
    SaizSize(one);
    FitsWord(l);
    FitsWord(one);
    SaizSizes(size, l.count);
    SaizFront(l);
    SaizFront(one);
    SerAllUnfold(after);
    var t, u := SaizEdit(s, size, h, l.count), Ser(Plain(one));
    assert t[..|u|] == u;
    if SaizFreed(l.count) >= 8 {
      var n := SaizNewSize(size, l.count);
      SaizEditFront(s, size, h, l.count);
      NotSkip();
      assert t[7] == u[7] && u[7] == u[4..8][3];
      assert t[..4] == u[..4];
      WordInjective(n, Size(Plain(one)));
      assert t[8..12] == u[8..12];
      FlagsInjective(l, one);
    }
  }

  /** The last characters of the two kinds differ, and that of saiz is none of those of skip. */
  lemma NotSkip()
    ensures ToBE(SAIZ, 4)[3] !in {ToBE(SKIP, 4)[0], ToBE(SKIP, 4)[1], ToBE(SKIP, 4)[2], ToBE(SKIP, 4)[3]}
  {
    hide ToBE;
    ToBE4(SAIZ);
    ToBE4(SKIP);
    var a, b := ToBE(SAIZ, 4), ToBE(SKIP, 4);
    assert a[3] == 0x7a && b == [0x73, 0x6b, 0x69, 0x70];
  }

  lemma FitsWord(l: Leaf)
    requires WellFormed(Plain(l)) && l.Saiz?
    ensures Size(Plain(l)) < TWO32 && l.count < TWO32 && l.flags < 0x100_0000 && |l.aux| == if Bit(l.flags, 1) then 8 else 0
  {
  }

  /** The front of the edited bytes: size and flags, or a kind that the skip header has run into. */
  lemma {:induction false} SaizEditFront(s: seq<byte>, size: nat, h: nat, count: nat)
    requires |s| == size && 13 <= h && h + 4 <= size && SaizRoom(size, size, count) && SaizFreed(count) >= 8
    ensures var n, t := SaizNewSize(size, count), SaizEdit(s, size, h, count);
            (n >= 4 ==> t[..4] == ToBE(n, 4)) && (n >= 12 ==> t[8..12] == s[8..12]) &&
            (n < 4 ==> t[7] == ToBE(SKIP, 4)[3 - n])
  {
    hide ToBE, SaizFreed, SaizNewSize;
    var n, freed := SaizNewSize(size, count), SaizFreed(count);
    var skip := ToBE(freed, 4) + ToBE(SKIP, 4);
    var a := Put(s, 0, ToBE(n, 4));
    var b := Put(a, n, skip);
    var t := Put(b, h, ToBE(1, 4));
    assert t[..12] == b[..12];
    if n >= 4 {
      assert a[..4] == ToBE(n, 4) && b[..4] == a[..4] && t[..4] == b[..4];
      if n >= 12 {
        assert a[8..12] == s[8..12] && b[8..12] == a[8..12] && t[8..12] == b[8..12];
      }
    } else {
      assert b[7] == skip[7 - n] == ToBE(SKIP, 4)[3 - n];
    }
  }

  lemma {:induction false} SaizFront(l: Leaf)
    requires l.Saiz?
    ensures var s := Ser(Plain(l));
            |s| >= 17 && s[..4] == ToBE(Size(Plain(l)), 4) && s[4..8] == ToBE(SAIZ, 4) &&
            s[8..12] == ToBE(l.version, 1) + ToBE(l.flags, 3)
  {
    hide ToBE, Size;
    SaizSize(l);
    CountedSer(l);
    var head := CountedHead(l);
    var vf := ToBE(l.version, 1) + ToBE(l.flags, 3);
    assert head[..4] == ToBE(SAIZ, 4) && head[4..8] == vf;
    var s := Ser(Plain(l));
    assert s[4..4 + |head|] == head;
    assert s[4..8] == head[..4] && s[8..12] == head[4..8];
  }

  lemma {:induction false} WordInjective(a: nat, b: nat)
    requires a < TWO32 && b < TWO32 && ToBE(a, 4) == ToBE(b, 4)
    ensures a == b
  {
    hide ToBE, BE;
    Widths();
    BEOfToBE(a, 4);
    BEOfToBE(b, 4);
  }

  lemma {:induction false} FlagsInjective(l: Leaf, one: Leaf)
    requires l.Saiz? && one.Saiz? && l.flags < 0x100_0000 && one.flags < 0x100_0000
    requires ToBE(l.version, 1) + ToBE(l.flags, 3) == ToBE(one.version, 1) + ToBE(one.flags, 3)
    ensures l.flags == one.flags
  {
    hide ToBE;
    Widths();
    var a, b := ToBE(l.version, 1) + ToBE(l.flags, 3), ToBE(one.version, 1) + ToBE(one.flags, 3);
    assert ToBE(l.flags, 3) == a[1..] == b[1..] == ToBE(one.flags, 3);
    BEOfToBE(l.flags, 3);
    BEOfToBE(one.flags, 3);
  }

  // ----- tfdt -----

  /** ReadUint64FromBuffer: two words, the first the more significant. */
  method ReadU64(buf: array<byte>, at: nat) returns (v: nat)
    requires at + 8 <= buf.Length
    ensures v == BE(buf[..][at..at + 8])
  {
    hide BE;
    var high := ReadU32(buf, at);
    var low := ReadU32(buf, at + 4);
    BEHalves(buf[..][at..at + 8]);
    SubSlice(buf[..], at, at + 8, 0, 4);
    SubSlice(buf[..], at, at + 8, 4, 8);
    v := high * TWO32 + low;
  }

  lemma {:induction false} BEHalves(s: seq<byte>)
    requires |s| == 8
    ensures BE(s) == BE(s[0..4]) * TWO32 + BE(s[4..8])
  {
    BESplit(s, 4);
    Widths();
    assert s[..4] == s[0..4] && s[4..] == s[4..8];
  }

  lemma {:induction false} BESplit(s: seq<byte>, k: nat)
    requires k <= |s|
    ensures BE(s) == BE(s[..k]) * Pow256(|s| - k) + BE(s[k..])
    decreases |s|
  {
    if k == |s| {
      assert s[..k] == s && s[k..] == [];
    } else {
      var t := s[..|s| - 1];
      BESplit(t, k);
      assert t[..k] == s[..k] && t[k..] == s[k..][..|s| - k - 1];
      ScaleUp(BE(s[..k]), Pow256(|s| - k - 1), BE(t[k..]));
    }
  }

  lemma ScaleUp(a: int, p: int, b: int)
    ensures (a * p + b) * 256 == a * (256 * p) + b * 256
  {
    assert a * (256 * p) == 256 * (a * p);
  }

  /** WriteUint64ToBuffer: the high word, then the low word. */
  method WriteU64(buf: array<byte>, at: nat, v: nat)
    requires at + 8 <= buf.Length && v < TWO64
    modifies buf
    ensures buf[..][at..at + 8] == ToBE(v, 8) && SameOutside(old(buf[..]), buf[..], at, at + 8)
  {
    var msw := v / TWO32;
    WriteU32(buf, at, msw);
    ghost var mid := buf[..];
    WriteU32(buf, at + 4, v);
    ghost var now := buf[..];
    assert now[at..at + 4] == mid[at..at + 4];
    assert now[at..at + 8] == now[at..at + 4] + now[at + 4..at + 8];
    HalvesOf(v);
  }

  lemma {:induction false} HalvesOf(v: nat)
    requires v < TWO64
    ensures ToBE(v, 8) == ToBE(v / TWO32, 4) + ToBE(v, 4)
  {
    hide ToBE;
    Widths();
    var s := ToBE(v / TWO32, 4) + ToBE(v, 4);
    assert s[0..4] == ToBE(v / TWO32, 4) && s[4..8] == ToBE(v, 4);
    BEOfToBE(v / TWO32, 4);
    BEOfToBE(v, 4);
    BEHalves(s);
    assert BE(s) == v / TWO32 * TWO32 + v % TWO32 == v;
    ToBEOfBE(s);
  }

  class TfdtIsoBmffBox {
    const buf: array<byte>
    const version: byte
    const baseMDT_loc: nat
    var baseMDT: nat

    /** The object tells what the tfdt l, whose body is buf[ptr..next), says. */
    ghost predicate Describes(l: Leaf, ptr: nat, next: nat)
      reads this, buf
    {
      l.Tfdt? && WellFormedLeaf(l) && ptr <= next <= buf.Length && buf[..][ptr..next] == LeafBytes(l) &&
      version == l.version && baseMDT == l.time && baseMDT_loc == ptr + 4
    }

    /** constructTfdtBox */
    constructor (buf: array<byte>, ptr: nat, ghost next: nat, ghost l: Leaf)
      requires l.Tfdt? && WellFormedLeaf(l) && ptr <= next <= buf.Length && buf[..][ptr..next] == LeafBytes(l)
      ensures Describes(l, ptr, next) && this.buf == buf
      ensures version == At(buf[..][ptr..next], 0, 1) && baseMDT == At(buf[..][ptr..next], 4, if version == 1 then 8 else 4)
    {
      hide At;
      ByteLaws.TfdtFields(l);
      var v, f := ReadVersionFlags(buf, ptr, next, Field(l.time, TimeWidth(l.version), Tail(l.trailing)), l.version, l.flags);
      TakeField(buf[..], ptr + 4, next, l.time, TimeWidth(l.version), l.trailing);
      var mdt;
      if v == 1 {
        mdt := ReadU64(buf, ptr + 4);
      } else {
        mdt := ReadU32(buf, ptr + 4);
      }
      this.buf := buf;
      this.version := v;
      this.baseMDT_loc := ptr + 4;
      this.baseMDT := mdt;
    }

    method getBaseMDT(ghost l: Leaf, ghost ptr: nat, ghost next: nat) returns (mdt: nat)
      requires Describes(l, ptr, next)
      ensures mdt == l.time
    {
      mdt := baseMDT;
    }

    /** The box now says mdt, cut to the width of its field. */
    method setBaseMDT(mdt: nat, ghost l: Leaf, ghost ptr: nat, ghost next: nat)
      requires Describes(l, ptr, next) && mdt < TWO64
      modifies this`baseMDT, buf
      ensures baseMDT == mdt && SameOutside(old(buf[..]), buf[..], ptr, next)
      ensures buf[..][ptr..next] == LeafBytes(Tfdt(l.version, l.flags, mdt % Pow256(TimeWidth(l.version)), l.trailing))
    {
      hide LeafBytes, ToBE, Pow256;
      ghost var was := buf[..];
      Restamp.TfdtBytes(l);
      ghost var w := TimeWidth(l.version);
      TakeBytes(was, ptr, next, Restamp.TfdtHead(l), ToBE(l.time, w) + l.trailing);
      TakeBytes(was, ptr + 4, next, ToBE(l.time, w), l.trailing);
      baseMDT := mdt;
      if version == 1 {
        WriteU64(buf, baseMDT_loc, mdt);
      } else {
        WriteU32(buf, baseMDT_loc, mdt % TWO32);
      }
      ghost var now := buf[..];
      StoredMdt(mdt, l.version);
      ghost var l2 := Tfdt(l.version, l.flags, mdt % Pow256(w), l.trailing);
      Restamp.TfdtBytes(l2);
      SliceOutside(was, now, ptr + 4, ptr + 4 + w, ptr, ptr + 4);
      SliceOutside(was, now, ptr + 4, ptr + 4 + w, ptr + 4 + w, next);
      Glue2(now, ptr, ptr + 4, next);
      Glue2(now, ptr + 4, ptr + 4 + w, next);
    }
  }

  lemma {:induction false} StoredMdt(mdt: nat, version: byte)
    requires mdt < TWO64
    ensures ToBE(mdt % Pow256(TimeWidth(version)), TimeWidth(version)) ==
            if version == 1 then ToBE(mdt, 8) else ToBE(mdt % TWO32, 4)
  {
    hide ToBE;
    Widths();
  }

  /**
   setBaseMDT(getBaseMDT() + delta), computed in 64 bits, writes what the restamping walker writes for
   the same box: the tfdt stamped by delta.
   */
  method RestampThroughBox(buf: array<byte>, ptr: nat, ghost next: nat, delta: int, ghost l: Leaf)
    requires l.Tfdt? && WellFormedLeaf(l) && ptr <= next <= buf.Length && buf[..][ptr..next] == LeafBytes(l)
    modifies buf
    ensures buf[..][ptr..next] == LeafBytes(Restamp.Stamp(l, delta)) && SameOutside(old(buf[..]), buf[..], ptr, next)
  {
    hide LeafBytes, ToBE, Pow256;
    var box := new TfdtIsoBmffBox(buf, ptr, next, l);
    var mdt := box.getBaseMDT(l, ptr, next);
    box.setBaseMDT((mdt + delta) % TWO64, l, ptr, next);
    WrapTwice(mdt + delta, l.version);
  }

  lemma WrapTwice(v: int, version: byte)
    ensures v % TWO64 % Pow256(TimeWidth(version)) == v % Pow256(TimeWidth(version))
  {
    Widths();
    assert v % TWO64 % TWO32 == v % TWO32;
  }
}
