/**
 The grammar, the demuxer and the restamper read and write what ByteLayout says is at which byte.
 */
module ByteLaws {
  import opened Bytes
  import opened Boxes
  import opened Mp4Demux
  import opened ByteLayout
  import Restamp

  /** The type constants are their four characters. */
  lemma KindNames()
    ensures MOOF == Name('m', 'o', 'o', 'f') && TRAF == Name('t', 'r', 'a', 'f') && MOOV == Name('m', 'o', 'o', 'v')
    ensures TRAK == Name('t', 'r', 'a', 'k') && MINF == Name('m', 'i', 'n', 'f') && DINF == Name('d', 'i', 'n', 'f')
    ensures MVEX == Name('m', 'v', 'e', 'x') && MDIA == Name('m', 'd', 'i', 'a') && STBL == Name('s', 't', 'b', 'l')
    ensures STSD == Name('s', 't', 's', 'd') && HEV1 == Name('h', 'e', 'v', '1') && HVC1 == Name('h', 'v', 'c', '1')
    ensures AVC1 == Name('a', 'v', 'c', '1') && MP4A == Name('m', 'p', '4', 'a') && EC_3 == Name('e', 'c', '-', '3')
    ensures TFHD == Name('t', 'f', 'h', 'd') && TFDT == Name('t', 'f', 'd', 't') && TRUN == Name('t', 'r', 'u', 'n')
    ensures TREX == Name('t', 'r', 'e', 'x') && MVHD == Name('m', 'v', 'h', 'd') && MDHD == Name('m', 'd', 'h', 'd')
    ensures SENC == Name('s', 'e', 'n', 'c') && SAIZ == Name('s', 'a', 'i', 'z') && SKIP == Name('s', 'k', 'i', 'p')
  {
  }

  // ----- numbers -----

  /** The most significant byte comes first, in numbers of two, three and four bytes. */
  lemma {:induction false} NumberOfBytes(a: byte, b: byte, c: byte, d: byte)
    ensures BE([a]) == a && BE([a, b]) == a * 0x100 + b && BE([a, b, c]) == a * 0x1_0000 + b * 0x100 + c
    ensures BE([a, b, c, d]) == a * 0x100_0000 + b * 0x1_0000 + c * 0x100 + d
  {
    assert [a][..0] == [] && [a, b][..1] == [a] && [a, b, c][..2] == [a, b] && [a, b, c, d][..3] == [a, b, c];
    assert BE([a]) == BE([]) * 256 + a;
    assert BE([a, b]) == BE([a]) * 256 + b;
    assert BE([a, b, c]) == BE([a, b]) * 256 + c;
  }

  /** The first four of eight bytes are the high word. */
  lemma {:induction false} NumberOfWords(s: seq<byte>)
    requires |s| == 8
    ensures BE(s) == BE(s[..4]) * 0x1_0000_0000 + BE(s[4..])
  {
    hide BE;
    var high, k := BE(s[0..4]), 4;
    assert BE(s[4..4]) == 0 by {
      NumberOfNone(s[4..4]);
    }
    while k < 8
      invariant 4 <= k <= 8 && BE(s[0..k]) == high * Pow256(k - 4) + BE(s[4..k])
    {
      BESnoc(s, 0, k);
      BESnoc(s, 4, k);
      k := k + 1;
    }
    Widths();
    assert s[0..8] == s && s[4..8] == s[4..] && s[0..4] == s[..4];
  }

  lemma NumberOfNone(s: seq<byte>)
    requires s == []
    ensures BE(s) == 0
  {
  }

  /** And so they are written, for every integer: the low bits of its two's complement. */
  lemma {:induction false} BytesOfNumber(v: int)
    ensures ToBE(v, 4) == [v / 0x100_0000 % 256, v / 0x1_0000 % 256, v / 0x100 % 256, v % 256]
    ensures ToBE(v, 8) == ToBE(v / 0x1_0000_0000, 4) + ToBE(v, 4)
  {
    ToBE4(v);
    var a, b, c, d := v / 0x100, v / 0x1_0000, v / 0x100_0000, v / 0x1_0000_0000;
    assert a / 256 == b && b / 256 == c && c / 256 == d;
    assert ToBE(c, 5) == ToBE(d, 4) + [c % 256];
    assert ToBE(b, 6) == ToBE(c, 5) + [b % 256];
    assert ToBE(a, 7) == ToBE(b, 6) + [a % 256];
  }

  /** A word with its top bit set is negative. */
  lemma SignedNumber(u: int)
    requires 0 <= u < 0x1_0000_0000
    ensures -0x8000_0000 <= Signed32(u) < 0x8000_0000 && Signed32(u) % 0x1_0000_0000 == u
  {
  }

  // ----- flags -----

  /** The mask operation. */
  predicate Masked(c: bv8, mask: bv8)
  {
    c & mask != 0
  }

  function Octet(c: bv8): nat
  {
    c as nat
  }

  lemma Mask1(c: bv8)
    ensures Octet(c) / 1 % 2 == 1 <==> Masked(c, 0x01)
  {
  }

  lemma Mask2(c: bv8)
    ensures Octet(c) / 2 % 2 == 1 <==> Masked(c, 0x02)
  {
  }

  lemma Mask4(c: bv8)
    ensures Octet(c) / 4 % 2 == 1 <==> Masked(c, 0x04)
  {
  }

  lemma Mask8(c: bv8)
    ensures Octet(c) / 8 % 2 == 1 <==> Masked(c, 0x08)
  {
  }

  lemma Mask16(c: bv8)
    ensures Octet(c) / 16 % 2 == 1 <==> Masked(c, 0x10)
  {
  }

  lemma Mask32(c: bv8)
    ensures Octet(c) / 32 % 2 == 1 <==> Masked(c, 0x20)
  {
  }

  /** A flag test is the mask operation, on the byte of the flag word the mask is in. */
  lemma {:induction false} FlagMasks(a: bv8, b: bv8, c: bv8)
    ensures var f := (Octet(a) * 256 + Octet(b)) * 256 + Octet(c);
            (Bit(f, 0x1) <==> Masked(c, 0x01)) && (Bit(f, 0x2) <==> Masked(c, 0x02)) && (Bit(f, 0x4) <==> Masked(c, 0x04)) &&
            (Bit(f, 0x8) <==> Masked(c, 0x08)) && (Bit(f, 0x10) <==> Masked(c, 0x10)) && (Bit(f, 0x20) <==> Masked(c, 0x20)) &&
            (Bit(f, 0x100) <==> Masked(b, 0x01)) && (Bit(f, 0x200) <==> Masked(b, 0x02)) &&
            (Bit(f, 0x400) <==> Masked(b, 0x04)) && (Bit(f, 0x800) <==> Masked(b, 0x08))
  {
    hide Bit, Masked, Octet;
    Mask1(c);
    Mask2(c);
    Mask4(c);
    Mask8(c);
    Mask16(c);
    Mask32(c);
    Mask1(b);
    Mask2(b);
    Mask4(b);
    Mask8(b);
    OctetBound(b);
    OctetBound(c);
    FlagDigits(Octet(a), Octet(b), Octet(c));
  }

  lemma OctetBound(c: bv8)
    ensures Octet(c) < 256
  {
  }

  lemma {:induction false} FlagDigits(x: nat, y: nat, z: nat)
    requires y < 256 && z < 256
    ensures var f := (x * 256 + y) * 256 + z;
            (Bit(f, 0x1) <==> z % 2 == 1) && (Bit(f, 0x2) <==> z / 2 % 2 == 1) && (Bit(f, 0x4) <==> z / 4 % 2 == 1) &&
            (Bit(f, 0x8) <==> z / 8 % 2 == 1) && (Bit(f, 0x10) <==> z / 16 % 2 == 1) && (Bit(f, 0x20) <==> z / 32 % 2 == 1) &&
            (Bit(f, 0x100) <==> y % 2 == 1) && (Bit(f, 0x200) <==> y / 2 % 2 == 1) &&
            (Bit(f, 0x400) <==> y / 4 % 2 == 1) && (Bit(f, 0x800) <==> y / 8 % 2 == 1)
  {
    hide Bit;
    LowBit(x * 256 + y, z, 1, 128);
    LowBit(x * 256 + y, z, 2, 64);
    LowBit(x * 256 + y, z, 4, 32);
    LowBit(x * 256 + y, z, 8, 16);
    LowBit(x * 256 + y, z, 16, 8);
    LowBit(x * 256 + y, z, 32, 4);
    HighBit(x, y, z, 1, 128);
    HighBit(x, y, z, 2, 64);
    HighBit(x, y, z, 4, 32);
    HighBit(x, y, z, 8, 16);
  }

  lemma {:induction false} LowBit(h: nat, z: nat, m: nat, q: nat)
    requires m >= 1 && m * (2 * q) == 256
    ensures Bit(h * 256 + z, m) <==> z / m % 2 == 1
  {
    hide Bit;
    var d := z / m;
    Doubled(m, h, q, d);
    BitOf(h * 256 + z, m, h * q + d / 2, d % 2, z % m);
  }

  lemma Doubled(m: nat, h: nat, q: nat, d: nat)
    requires m * (2 * q) == 256
    ensures m * (2 * (h * q + d / 2) + d % 2) == h * 256 + m * d
  {
    var k := 2 * (h * q);
    assert m * k == h * (m * (2 * q));
    assert 2 * (h * q + d / 2) + d % 2 == k + d;
    assert m * (k + d) == m * k + m * d;
  }

  lemma {:induction false} HighBit(x: nat, y: nat, z: nat, m: nat, q: nat)
    requires z < 256 && m >= 1 && m * (2 * q) == 256
    ensures Bit((x * 256 + y) * 256 + z, 0x100 * m) <==> y / m % 2 == 1
  {
    hide Bit;
    var d := y / m;
    Doubled(m, x, q, d);
    assert 0x100 * m * (2 * (x * q + d / 2) + d % 2) == 0x100 * (m * (2 * (x * q + d / 2) + d % 2));
    BitOf((x * 256 + y) * 256 + z, 0x100 * m, x * q + d / 2, d % 2, y % m * 256 + z);
  }

  /** A binary digit, from what is above and below it. */
  lemma {:induction false} BitOf(f: nat, m: nat, above: nat, digit: nat, below: nat)
    requires m > 0 && digit < 2 && below < m && f == m * (2 * above + digit) + below
    ensures Bit(f, m) <==> digit == 1
  {
    DivModUnique(f, m, 2 * above + digit, below);
  }

  // ----- fields at their places -----

  lemma {:induction false} FieldAt(s: seq<byte>, at: nat, lay: Layout)
    requires at <= |s| && s[at..] == Flat(lay) && lay.Field? && 0 <= lay.v < Pow256(lay.n)
    ensures at + lay.n <= |s| && At(s, at, lay.n) == lay.v && s[at + lay.n..] == Flat(lay.next)
  {
    hide ToBE, BE;
    assert s[at..|s|] == s[at..];
    TakeField(s, at, |s|, lay.v, lay.n, Flat(lay.next));
    assert s[at + lay.n..|s|] == s[at + lay.n..];
  }

  lemma {:induction false} SignedAt(s: seq<byte>, at: nat, lay: Layout)
    requires at <= |s| && s[at..] == Flat(lay) && lay.Field? && lay.n == 4 && -TWO31 <= lay.v < TWO31
    ensures at + 4 <= |s| && Signed32(At(s, at, 4)) == lay.v && s[at + 4..] == Flat(lay.next)
  {
    hide ToBE, BE, Signed32;
    assert s[at..|s|] == s[at..];
    Widths();
    TakeField(s, at, |s|, lay.v, 4, Flat(lay.next));
    SignedField(lay.v);
    assert s[at + 4..|s|] == s[at + 4..];
  }

  lemma {:induction false} OptAt(s: seq<byte>, at: nat, present: bool, v: nat, n: nat, next: Layout)
    requires at <= |s| && s[at..] == Flat(OptField(present, v, n, next)) && v < Pow256(n)
    ensures present ==> At(s, at, n) == v
    ensures at + (if present then n else 0) <= |s| && s[at + (if present then n else 0)..] == Flat(next)
  {
    hide Flat, At;
    if present {
      FieldAt(s, at, Field(v, n, next));
    }
  }

  lemma {:induction false} HeaderAt(s: seq<byte>, version: byte, flags: nat, next: Layout)
    requires s == Flat(FullHeader(version, flags, next)) && flags < 0x100_0000
    ensures 4 <= |s| && At(s, 0, 1) == version && At(s, 1, 3) == flags && s[4..] == Flat(next)
  {
    hide Flat, At;
    Widths();
    assert s[0..] == s;
    FieldAt(s, 0, Field(version, 1, Field(flags, 3, next)));
    FieldAt(s, 1, Field(flags, 3, next));
  }

  // ----- the rows of a track run -----

  /** One row: which word is which. */
  lemma {:induction false} RowAt(s: seq<byte>, r: nat, f: nat, e: Entry, next: Layout)
    requires r <= |s| && s[r..] == Flat(EntryLayout(f, e, next)) && WellFormedEntry(e)
    ensures var size := r + (if f / 0x100 % 2 == 1 then 4 else 0);
            var offset := size + (if f / 0x200 % 2 == 1 then 4 else 0) + (if f / 0x400 % 2 == 1 then 4 else 0);
            var behind := offset + (if f / 0x800 % 2 == 1 then 4 else 0);
            behind <= |s| && s[behind..] == Flat(next) &&
            (f / 0x100 % 2 == 1 ==> At(s, r, 4) == e.duration) && (f / 0x200 % 2 == 1 ==> At(s, size, 4) == e.size) &&
            (f / 0x800 % 2 == 1 ==> Signed32(At(s, offset, 4)) == e.compositionOffset)
  {
    hide Flat, At, Signed32;
    Widths();
    var d, z, g, c := Bit(f, 0x100), Bit(f, 0x200), Bit(f, 0x400), Bit(f, 0x800);
    var l4 := OptField(c, e.compositionOffset, 4, next);
    var l3 := OptField(g, e.flags, 4, l4);
    var l2 := OptField(z, e.size, 4, l3);
    OptAt(s, r, d, e.duration, 4, l2);
    var size := r + (if d then 4 else 0);
    OptAt(s, size, z, e.size, 4, l3);
    var flags := size + (if z then 4 else 0);
    OptAt(s, flags, g, e.flags, 4, l4);
    var offset := flags + (if g then 4 else 0);
    if c {
      SignedAt(s, offset, Field(e.compositionOffset, 4, next));
    }
  }

  /** What the loop over the bytes makes of one row. */
  lemma {:induction false} RowRead(s: seq<byte>, r: nat, n: nat, f: nat, e: Entry, next: Layout, ptr: int, dts: nat, p: Parse)
    requires n > 0 && r <= |s| && s[r..] == Flat(EntryLayout(f, e, next)) && WellFormedEntry(e)
    ensures var c := if Bit(f, 0x800) then e.compositionOffset else 0;
            var len, d := Length(f, e, p.defaultSize), Duration(f, e, p.defaultDuration);
            r + EntryWidth(f) <= |s| && s[r + EntryWidth(f)..] == Flat(next) &&
            ReadRows(s, r, n, f, ptr, dts, p) ==
            [Sample(ptr, len, dts % TWO64, (dts + c) % TWO64, if Bit(f, 0x100) then e.duration else 0, p.timescale)] +
            ReadRows(s, r + EntryWidth(f), n - 1, f, ptr + len, dts + d, p)
  {
    hide Flat, At, Signed32, EntryLayout;
    RowAt(s, r, f, e, next);
  }

  lemma ReadNone(s: seq<byte>, r: nat, f: nat, ptr: int, dts: nat, p: Parse)
    ensures ReadRows(s, r, 0, f, ptr, dts, p) == []
  {
  }

  /** From row i on the loop over the bytes reports the samples of the run. */
  lemma {:induction false} RowsRead(s: seq<byte>, l: Leaf, i: nat, r: nat, p: Parse)
    requires l.Trun? && i <= |l.entries| && (forall e :: e in l.entries ==> WellFormedEntry(e))
    requires r <= |s| && s[r..] == Flat(TableLayout(l.flags, l.entries[i..], Tail(l.trailing)))
    ensures ReadRows(s, r, |l.entries| - i, l.flags, p.moof + l.dataOffset + TotalLength(l.flags, l.entries[..i], p.defaultSize),
                     p.baseMediaDecodeTime + TotalDuration(l.flags, l.entries[..i], p.defaultDuration), p) ==
            RunSamples(l, p)[i..]
    decreases |l.entries| - i
  {
    hide Flat, ReadRows, EntryLayout, EntryWidth, WellFormedEntry, TotalLength, TotalDuration, Length, Duration, Bit;
    var ptr := p.moof + l.dataOffset + TotalLength(l.flags, l.entries[..i], p.defaultSize);
    var dts := p.baseMediaDecodeTime + TotalDuration(l.flags, l.entries[..i], p.defaultDuration);
    if i == |l.entries| {
      ReadNone(s, r, l.flags, ptr, dts, p);
    } else {
      var e, left := l.entries[i], l.entries[i + 1..];
      assert e in l.entries;
      assert l.entries[i..][0] == e && l.entries[i..][1..] == left;
      RowRead(s, r, |l.entries| - i, l.flags, e, TableLayout(l.flags, left, Tail(l.trailing)), ptr, dts, p);
      TotalsSnoc(l.flags, l.entries, i, p.defaultDuration, p.defaultSize);
      RowsRead(s, l, i + 1, r + EntryWidth(l.flags), p);
      assert RunSamples(l, p)[i..] == [SampleAt(l, p, i)] + RunSamples(l, p)[i + 1..];
    }
  }

  lemma {:induction false} TrunRead(l: Leaf, p: Parse)
    requires l.Trun? && WellFormedLeaf(l) && Bit(l.flags, 0x1)
    ensures TrunFrom(LeafBytes(l), p) == StepLeaf(l, p)
  {
    hide Flat, At, Signed32, TableLayout, ReadRows, RunSamples;
    Widths();
    var s := LeafBytes(l);
    var table := TableLayout(l.flags, l.entries, Tail(l.trailing));
    var first := OptField(Bit(l.flags, 0x4), l.firstFlags, 4, table);
    HeaderAt(s, l.version, l.flags, Field(|l.entries|, 4, Field(l.dataOffset, 4, first)));
    FieldAt(s, 4, Field(|l.entries|, 4, Field(l.dataOffset, 4, first)));
    SignedAt(s, 8, Field(l.dataOffset, 4, first));
    OptAt(s, 12, Bit(l.flags, 0x4), l.firstFlags, 4, table);
    assert l.entries[0..] == l.entries && l.entries[..0] == [];
    TotalsEmpty(l.flags, p.defaultDuration, p.defaultSize);
    RowsRead(s, l, 0, if Bit(l.flags, 0x4) then 16 else 12, p);
    assert RunSamples(l, p)[0..] == RunSamples(l, p);
  }

  /** Where row i is. */
  lemma {:induction false} RowsFrom(s: seq<byte>, l: Leaf, start: nat, i: nat)
    requires l.Trun? && i <= |l.entries| && WellFormedLeaf(l)
    requires start <= |s| && s[start..] == Flat(TableLayout(l.flags, l.entries, Tail(l.trailing)))
    ensures var r := start + i * RowWidth(l.flags);
            r <= |s| && s[r..] == Flat(TableLayout(l.flags, l.entries[i..], Tail(l.trailing)))
  {
    hide Flat, EntryLayout, RowWidth;
    if i == 0 {
      assert l.entries[0..] == l.entries;
    } else {
      RowsFrom(s, l, start, i - 1);
      var e := l.entries[i - 1];
      assert e in l.entries;
      assert l.entries[i - 1..][0] == e && l.entries[i - 1..][1..] == l.entries[i..];
      RowBehind(s, start + (i - 1) * RowWidth(l.flags), l.flags, e, TableLayout(l.flags, l.entries[i..], Tail(l.trailing)));
      assert i * RowWidth(l.flags) == (i - 1) * RowWidth(l.flags) + RowWidth(l.flags);
    }
  }

  lemma RowBehind(s: seq<byte>, r: nat, f: nat, e: Entry, next: Layout)
    requires r <= |s| && s[r..] == Flat(EntryLayout(f, e, next)) && WellFormedEntry(e)
    ensures r + RowWidth(f) <= |s| && s[r + RowWidth(f)..] == Flat(next)
  {
    hide Flat, EntryLayout;
    RowAt(s, r, f, e, next);
  }

  /** The head of a track run, and where its rows begin. */
  lemma {:induction false} TrunHead(l: Leaf)
    requires l.Trun? && WellFormedLeaf(l)
    ensures var s := LeafBytes(l);
            var start := 8 + 4 * (l.flags % 2) + 4 * (l.flags / 4 % 2);
            At(s, 0, 1) == l.version && At(s, 1, 3) == l.flags && At(s, 4, 4) == |l.entries| && start <= |s| &&
            (l.flags % 2 == 1 ==> Signed32(At(s, 8, 4)) == l.dataOffset) &&
            (l.flags / 4 % 2 == 1 ==> At(s, start - 4, 4) == l.firstFlags) &&
            s[start..] == Flat(TableLayout(l.flags, l.entries, Tail(l.trailing)))
  {
    hide Flat, At, Signed32, TableLayout;
    Widths();
    var s, a, b := LeafBytes(l), Bit(l.flags, 0x1), Bit(l.flags, 0x4);
    var table := TableLayout(l.flags, l.entries, Tail(l.trailing));
    var first := OptField(b, l.firstFlags, 4, table);
    var offset := OptField(a, l.dataOffset, 4, first);
    HeaderAt(s, l.version, l.flags, Field(|l.entries|, 4, offset));
    FieldAt(s, 4, Field(|l.entries|, 4, offset));
    if a {
      SignedAt(s, 8, Field(l.dataOffset, 4, first));
    }
    OptAt(s, if a then 12 else 8, b, l.firstFlags, 4, table);
  }

  /** What row i of a track run says, read at its place. */
  lemma {:induction false} RowFields(l: Leaf, i: nat)
    requires l.Trun? && WellFormedLeaf(l) && i < |l.entries|
    ensures var s, f, e := LeafBytes(l), l.flags, l.entries[i];
            var r := RowStart(f, i);
            var size := r + 4 * (f / 0x100 % 2);
            var offset := size + 4 * (f / 0x200 % 2) + 4 * (f / 0x400 % 2);
            (f / 0x100 % 2 == 1 ==> At(s, r, 4) == e.duration) && (f / 0x200 % 2 == 1 ==> At(s, size, 4) == e.size) &&
            (f / 0x800 % 2 == 1 ==> Signed32(At(s, offset, 4)) == e.compositionOffset)
  {
    hide Flat, At, Signed32, EntryLayout, RowWidth;
    var s := LeafBytes(l);
    TrunHead(l);
    RowsFrom(s, l, RowStart(l.flags, 0), i);
    assert l.entries[i] in l.entries;
    RowAt(s, RowStart(l.flags, i), l.flags, l.entries[i], TableLayout(l.flags, l.entries[i + 1..], Tail(l.trailing)));
  }

  /**
   Sample i of a track run on the bytes s of its box: flags in bytes 1 to 3, count at 4, data offset at 8, the first
   sample's flags at 12 if bit 0x4 is set, then the rows, row i at r: duration, size, flags and composition offset,
   each if its bit is set.
   */
  lemma {:induction false} SampleOnBytes(l: Leaf, p: Parse, i: nat)
    requires l.Trun? && WellFormedLeaf(l) && Bit(l.flags, 0x1) && i < |l.entries|
    ensures |StepLeaf(l, p).samples| == |p.samples| + At(LeafBytes(l), 4, 4) && |p.samples| + i < |StepLeaf(l, p).samples|
    ensures var s, f, x := LeafBytes(l), At(LeafBytes(l), 1, 3), StepLeaf(l, p).samples[|p.samples| + i];
            var r := RowStart(f, i);
            var size := r + 4 * (f / 0x100 % 2);
            var offset := size + 4 * (f / 0x200 % 2) + 4 * (f / 0x400 % 2);
            x.duration == (if f / 0x100 % 2 == 1 then At(s, r, 4) else 0) &&
            x.len == (if f / 0x200 % 2 == 1 then At(s, size, 4) else p.defaultSize) &&
            x.pts == (x.dts + if f / 0x800 % 2 == 1 then Signed32(At(s, offset, 4)) else 0) % TWO64 &&
            x.timescale == p.timescale
  {
    hide Flat, At, Signed32, LeafBytes, TotalLength, TotalDuration, RowStart;
    TrunHead(l);
    RowFields(l, i);
    assert StepLeaf(l, p).samples[|p.samples| + i] == SampleAt(l, p, i);
    var at := p.baseMediaDecodeTime + TotalDuration(l.flags, l.entries[..i], p.defaultDuration);
    AddMod(at, if Bit(l.flags, 0x800) then l.entries[i].compositionOffset else 0);
  }

  /** Data and times run on from sample to sample, from the data offset and the base time on. */
  lemma {:induction false} SampleRunsOn(l: Leaf, p: Parse, i: nat)
    requires l.Trun? && WellFormedLeaf(l) && Bit(l.flags, 0x1) && i < |l.entries|
    ensures |StepLeaf(l, p).samples| == |p.samples| + |l.entries|
    ensures var q, k := StepLeaf(l, p).samples, |p.samples|;
            if i == 0 then
              q[k].ptr == p.moof + Signed32(At(LeafBytes(l), 8, 4)) && q[k].dts == p.baseMediaDecodeTime % TWO64
            else
              var d := if At(LeafBytes(l), 1, 3) / 0x100 % 2 == 1 then q[k + i - 1].duration else p.defaultDuration;
              q[k + i].ptr == q[k + i - 1].ptr + q[k + i - 1].len && q[k + i].dts == (q[k + i - 1].dts + d) % TWO64
  {
    hide Flat, At, Signed32, LeafBytes, TotalLength, TotalDuration;
    TrunHead(l);
    var q, k := StepLeaf(l, p).samples, |p.samples|;
    assert q[k + i] == SampleAt(l, p, i);
    if i == 0 {
      assert l.entries[..0] == [];
      TotalsEmpty(l.flags, p.defaultDuration, p.defaultSize);
    } else {
      assert q[k + i - 1] == SampleAt(l, p, i - 1);
      TotalsSnoc(l.flags, l.entries, i - 1, p.defaultDuration, p.defaultSize);
      var before := p.baseMediaDecodeTime + TotalDuration(l.flags, l.entries[..i - 1], p.defaultDuration);
      AddMod(before, Duration(l.flags, l.entries[i - 1], p.defaultDuration));
    }
  }

  // ----- the other leaves -----

  lemma {:induction false} TfhdRead(l: Leaf, p: Parse)
    requires l.Tfhd? && WellFormedLeaf(l)
    ensures TfhdFrom(LeafBytes(l), p) == StepLeaf(l, p)
  {
    hide Flat, At;
    Widths();
    TfhdShape(l);
    var s := LeafBytes(l);
    var r5 := OptField(Bit(l.flags, 0x20), l.defaultFlags, 4, Tail(l.trailing));
    var r4 := OptField(Bit(l.flags, 0x10), l.defaultSize, 4, r5);
    var r3 := OptField(Bit(l.flags, 0x8), l.defaultDuration, 4, r4);
    var r2 := OptField(Bit(l.flags, 0x2), l.descriptionIndex, 4, r3);
    var r1 := OptField(Bit(l.flags, 0x1), l.baseDataOffset, 8, r2);
    HeaderAt(s, l.version, l.flags, Field(l.trackId, 4, r1));
    FieldAt(s, 4, Field(l.trackId, 4, r1));
    OptAt(s, 8, Bit(l.flags, 0x1), l.baseDataOffset, 8, r2);
    var index := 8 + (if Bit(l.flags, 0x1) then 8 else 0);
    OptAt(s, index, Bit(l.flags, 0x2), l.descriptionIndex, 4, r3);
    var duration := index + (if Bit(l.flags, 0x2) then 4 else 0);
    OptAt(s, duration, Bit(l.flags, 0x8), l.defaultDuration, 4, r4);
    var size := duration + (if Bit(l.flags, 0x8) then 4 else 0);
    OptAt(s, size, Bit(l.flags, 0x10), l.defaultSize, 4, r5);
    var more := size + (if Bit(l.flags, 0x10) then 4 else 0);
    OptAt(s, more, Bit(l.flags, 0x20), l.defaultFlags, 4, Tail(l.trailing));
  }

  lemma {:induction false} TfdtFields(l: Leaf)
    requires l.Tfdt? && WellFormedLeaf(l)
    ensures At(LeafBytes(l), 0, 1) == l.version
    ensures At(LeafBytes(l), 4, if l.version == 1 then 8 else 4) == l.time
    ensures |LeafBytes(l)| >= 4 + if l.version == 1 then 8 else 4
  {
    hide Flat, At;
    var s := LeafBytes(l);
    var time := Field(l.time, TimeWidth(l.version), Tail(l.trailing));
    HeaderAt(s, l.version, l.flags, time);
    FieldAt(s, 4, time);
  }

  lemma {:induction false} TimescaleAt(l: Leaf)
    requires l.TimeHeader? && WellFormedLeaf(l)
    ensures At(LeafBytes(l), 0, 1) == l.version
    ensures At(LeafBytes(l), if l.version == 1 then 20 else 12, 4) == l.timescale
  {
    hide Flat, At;
    Widths();
    var s := LeafBytes(l);
    var scale := Field(l.timescale, 4, Tail(l.trailing));
    HeaderAt(s, l.version, l.flags, Raw(l.times, scale));
    FlatRaw(Raw(l.times, scale));
    var at := 4 + |l.times|;
    assert s[at..] == s[4..][|l.times|..] == Flat(scale);
    FieldAt(s, at, scale);
  }

  lemma {:induction false} TrexFields(l: Leaf)
    requires l.Trex? && WellFormedLeaf(l)
    ensures At(LeafBytes(l), 8, 4) == l.descriptionIndex && At(LeafBytes(l), 12, 4) == l.defaultDuration
    ensures At(LeafBytes(l), 16, 4) == l.defaultSize && At(LeafBytes(l), 20, 4) == l.defaultFlags
  {
    hide Flat, At;
    Widths();
    var s := LeafBytes(l);
    var r4 := Field(l.defaultFlags, 4, Tail(l.trailing));
    var r3 := Field(l.defaultSize, 4, r4);
    var r2 := Field(l.defaultDuration, 4, r3);
    var r1 := Field(l.descriptionIndex, 4, r2);
    HeaderAt(s, l.version, l.flags, Field(l.trackId, 4, r1));
    FieldAt(s, 4, Field(l.trackId, 4, r1));
    FieldAt(s, 8, r1);
    FieldAt(s, 12, r2);
    FieldAt(s, 16, r3);
    FieldAt(s, 20, r4);
  }

  lemma {:induction false} SencFields(l: Leaf)
    requires l.Senc? && WellFormedLeaf(l)
    ensures At(LeafBytes(l), 4, 4) == l.count && |LeafBytes(l)| >= 8 && LeafBytes(l)[8..] == l.table
  {
    hide Flat, At;
    Widths();
    var s := LeafBytes(l);
    var count := Field(l.count, 4, Tail(l.table));
    HeaderAt(s, l.version, l.flags, count);
    FieldAt(s, 4, count);
    TailBytes(l.table);
  }

  lemma TailBytes(t: seq<byte>)
    ensures Flat(Tail(t)) == t
  {
  }

  /** saiz: the default size stands before the count, both behind the optional type words. */
  lemma {:induction false} SaizFields(l: Leaf)
    requires l.Saiz? && WellFormedLeaf(l)
    ensures var s := LeafBytes(l);
            var loc := if At(s, 1, 3) % 2 == 1 then 13 else 5;
            At(s, loc - 1, 1) == l.infoSize && At(s, loc, 4) == l.count && |s| >= loc + 4 && s[loc + 4..] == l.table &&
            loc == 5 + |l.aux|
  {
    hide Flat, At;
    Widths();
    var s := LeafBytes(l);
    var count := Field(l.count, 4, Tail(l.table));
    var info := Field(l.infoSize, 1, count);
    HeaderAt(s, l.version, l.flags, Raw(l.aux, info));
    FlatRaw(Raw(l.aux, info));
    var at := 4 + |l.aux|;
    assert s[at..] == s[4..][|l.aux|..] == Flat(info);
    FieldAt(s, at, info);
    FieldAt(s, at + 1, count);
    TailBytes(l.table);
  }

  lemma {:induction false} LeafRead(l: Leaf, p: Parse)
    requires WellFormedLeaf(l) && (l.Trun? ==> Bit(l.flags, 0x1))
    ensures ReadLeaf(LeafKind(l), LeafBytes(l), p) == StepLeaf(l, p)
  {
    hide Flat, At, LeafBytes, TrunFrom, TfhdFrom, RunSamples, Bit;
    match l
    case Tfhd(_, _, _, _, _, _, _, _, _) => TfhdRead(l, p);
    case Trun(_, _, _, _, _, _) => TrunRead(l, p);
    case Tfdt(_, _, _, _) => TfdtFields(l);
    case TimeHeader(_, _, _, _, _, _) => TimescaleAt(l);
    case Trex(_, _, _, _, _, _, _, _) => TrexFields(l);
    case _ =>
  }

  // ----- the walks -----

  lemma {:induction false} FrontAt(b: Box, rest: seq<byte>)
    requires WellFormed(b)
    ensures var s := Ser(b) + rest;
            8 <= Size(b) <= |s| && At(s, 0, 4) == Size(b) && At(s, 4, 4) == Kind(b) &&
            s[8..Size(b)] == Body(b) && s[Size(b)..] == rest && s[..8] == Ser(b)[..8]
  {
    hide Ser, Body, Kind, BE, ToBE, SerAll, WellFormed;
    var s := Ser(b) + rest;
    assert s[0..|Ser(b)|] == Ser(b) && s[|Ser(b)|..] == rest;
    SerAllEmpty([b]);
    OneWellFormed(b);
    Restamp.SerAllSingle(b);
    BoxHeader(Ser(b), 0, |Ser(b)|, [b]);
    assert Ser(b)[0..4] == s[0..4] && Ser(b)[4..8] == s[4..8] && Ser(b)[8..Size(b)] == s[8..Size(b)];
  }

  lemma OneWellFormed(b: Box)
    requires WellFormed(b)
    ensures WellFormedAll([b])
  {
    assert [b][1..] == [];
  }

  /** The kinds are the four characters, and containers begin where the names say. */
  lemma {:induction false} ShapeByName(b: Box)
    requires WellFormed(b)
    ensures b.Container? ==>
            ChildrenFrom(Kind(b)) == 8 + |b.prelude| <= Size(b) && Body(b)[|b.prelude|..] == SerAll(b.children) &&
            Kind(b) == b.kind && (PureContainer(b.kind) <==> ChildrenFrom(b.kind) == 8) && WellFormedAll(b.children) &&
            b.kind != Name('t', 'f', 'd', 't')
    ensures b.Plain? ==>
            ChildrenFrom(Kind(b)) == 0 && Body(b) == LeafBytes(b.leaf) && Kind(b) == LeafKind(b.leaf) && WellFormedLeaf(b.leaf) &&
            (Kind(b) == Name('t', 'f', 'd', 't') <==> b.leaf.Tfdt?)
    ensures MOOF == Name('m', 'o', 'o', 'f')
  {
    hide LeafBytes;
    if b.Container? {
      assert Body(b) == b.prelude + SerAll(b.children);
    }
  }

  /** The demuxer's fold over the boxes is the reading of their bytes. */
  lemma {:induction false} DemuxIsReading(bs: seq<Box>, at: int, p: Parse)
    requires WellFormedAll(bs) && ReadyAll(bs)
    ensures FoldAll(bs, at, p) == ReadMedia(SerAll(bs), at, p)
    decreases bs
  {
    hide Ser, SerAll, Body, Kind, Size, At, ChildrenFrom, ReadLeaf, StepLeaf, FoldBox, LeafBytes, PureContainer, Ready;
    if bs == [] {
      SerAllEmpty(bs);
      NothingToRead(at, p);
    } else {
      var b, s := bs[0], SerAll(bs);
      SerAllUnfold(bs);
      FrontAt(b, SerAll(bs[1..]));
      ShapeByName(b);
      FoldParts(b, at, p);
      ReadyParts(b);
      if b.Container? {
        var from := 8 + |b.prelude|;
        assert s[from..Size(b)] == Body(b)[|b.prelude|..];
        DemuxIsReading(b.children, at + from, if b.kind == MOOF then p.(moof := at) else p);
      } else {
        LeafRead(b.leaf, p);
      }
      DemuxIsReading(bs[1..], at + Size(b), FoldBox(b, at, p));
    }
  }

  lemma NothingToRead(at: int, p: Parse)
    ensures ReadMedia([], at, p) == p
  {
  }

  lemma {:induction false} StampedBytes(l: Leaf, delta: int, rest: seq<byte>)
    requires l.Tfdt? && WellFormed(Plain(l))
    ensures var s := Ser(Plain(l)) + rest;
            var w := if l.version == 1 then 8 else 4;
            At(s, 8, 1) == l.version && At(s, 12, w) == l.time && 12 + w <= |s| &&
            s[..12] + ToBE((l.time + delta) % TWO64, w) + s[12 + w..] == Ser(Plain(Restamp.Stamp(l, delta))) + rest
  {
    hide Ser, ToBE, BE, LeafBytes, Pow256, Size, Kind, Body, At, WellFormed;
    var b, c := Plain(l), Plain(Restamp.Stamp(l, delta));
    var w := TimeWidth(l.version);
    TfdtSer(l);
    TfdtSer(Restamp.Stamp(l, delta));
    StampedWord(l, delta);
    Restamp.RestampHeadSize(b, delta);
    TfdtPlaces(l, rest);
    var head, field := ToBE(Size(b), 4) + ToBE(Kind(b), 4) + Restamp.TfdtHead(l), ToBE(l.time, w);
    Swap(head, field, ToBE((l.time + delta) % TWO64, w), l.trailing, rest);
  }

  lemma Swap(head: seq<byte>, field: seq<byte>, now: seq<byte>, trailing: seq<byte>, rest: seq<byte>)
    requires |now| == |field|
    ensures var s := head + (field + trailing) + rest;
            s[..|head|] + now + s[|head| + |field|..] == head + (now + trailing) + rest
  {
  }

  lemma {:induction false} TfdtSer(l: Leaf)
    requires l.Tfdt?
    ensures var b := Plain(l);
            Ser(b) == ToBE(Size(b), 4) + ToBE(Kind(b), 4) + Restamp.TfdtHead(l) + (ToBE(l.time, TimeWidth(l.version)) + l.trailing) &&
            |ToBE(Size(b), 4) + ToBE(Kind(b), 4) + Restamp.TfdtHead(l)| == 12
  {
    hide Ser, ToBE, LeafBytes, Size, Kind;
    var b := Plain(l);
    Restamp.SerSplit(b);
    Restamp.PlainBody(b);
    Restamp.TfdtBytes(l);
    Associative(ToBE(Size(b), 4) + ToBE(Kind(b), 4), Restamp.TfdtHead(l), ToBE(l.time, TimeWidth(l.version)) + l.trailing);
  }

  lemma {:induction false} TfdtPlaces(l: Leaf, rest: seq<byte>)
    requires l.Tfdt? && WellFormed(Plain(l))
    ensures var s := Ser(Plain(l)) + rest;
            var w := if l.version == 1 then 8 else 4;
            At(s, 8, 1) == l.version && At(s, 12, w) == l.time && 12 + w <= |s|
  {
    hide Ser, BE, LeafBytes;
    var b := Plain(l);
    var s, w := Ser(b) + rest, TimeWidth(l.version);
    TfdtFields(l);
    Restamp.PlainBody(b);
    FrontAt(b, rest);
    assert s[8..9] == Body(b)[0..1] && s[12..12 + w] == Body(b)[4..4 + w];
  }

  lemma {:induction false} StampedWord(l: Leaf, delta: int)
    requires l.Tfdt?
    ensures var w := TimeWidth(l.version);
            ToBE(Restamp.Stamp(l, delta).time, w) == ToBE((l.time + delta) % TWO64, w) &&
            Restamp.TfdtHead(Restamp.Stamp(l, delta)) == Restamp.TfdtHead(l)
  {
    hide ToBE, Pow256;
    Widths();
    var v, w := l.time + delta, TimeWidth(l.version);
    if w == 4 {
      Word32Of64(v);
      ToBECongruent(v % TWO32, v % TWO64, 4);
    }
  }

  lemma Word32Of64(v: int)
    ensures v % TWO64 % TWO32 == v % TWO32 == v % TWO32 % TWO32
  {
    var q := v / TWO64;
    assert v == TWO64 * q + v % TWO64;
    DivModUnique(v, TWO32, TWO32 * q + v % TWO64 / TWO32, v % TWO64 % TWO32);
  }

  lemma {:induction false} ContainerBytes(b: Box, inner: seq<Box>, rest: seq<byte>)
    requires b.Container? && b.prelude == [] && |SerAll(inner)| == |SerAll(b.children)| && WellFormed(b)
    ensures var s := Ser(b) + rest;
            s[8..Size(b)] == SerAll(b.children) && s[..8] + SerAll(inner) == Ser(Container(b.kind, [], inner))
  {
    hide Ser, SerAll, ToBE;
    var c := Container(b.kind, [], inner);
    FrontAt(b, rest);
    Restamp.SerSplit(b);
    Restamp.SerSplit(c);
    assert Body(b) == [] + SerAll(b.children) && Body(c) == [] + SerAll(inner);
  }

  /** The restamped boxes and the reported time are what moving the time on the bytes gives. */
  lemma {:induction false} RestampIsMoving(bs: seq<Box>, delta: int)
    requires WellFormedAll(bs)
    ensures Moved(SerAll(bs), delta) == (SerAll(Restamp.RestampAll(bs, delta)), Restamp.Reported(bs, delta))
    ensures |SerAll(Restamp.RestampAll(bs, delta))| == |SerAll(bs)|
    decreases bs
  {
    hide Ser, SerAll, Body, Kind, Size, At, ChildrenFrom, LeafBytes, PureContainer, ToBE;
    if bs == [] {
      SerAllEmpty(bs);
      NothingToMove(delta);
    } else {
      var b, rest := bs[0], bs[1..];
      SerAllUnfold(bs);
      FrontAt(b, SerAll(rest));
      ShapeByName(b);
      RestampIsMoving(rest, delta);
      var t, n := SerAll(bs), Size(b);
      if b.Plain? && b.leaf.Tfdt? {
        StampedBytes(b.leaf, delta, SerAll(rest));
        MovedTime(t, delta);
        Restamp.RestampHeadSize(b, delta);
        SerAllUnfold([Plain(Restamp.Stamp(b.leaf, delta))] + rest);
      } else if b.Container? && PureContainer(b.kind) {
        var c := Container(b.kind, [], Restamp.RestampAll(b.children, delta));
        assert b.prelude == [];
        RestampIsMoving(b.children, delta);
        ContainerBytes(b, c.children, SerAll(rest));
        MovedOn(t, delta, (SerAll(c.children), Restamp.Reported(b.children, delta)));
        SerAllUnfold([c] + rest);
        SerAllUnfold([c] + Restamp.RestampAll(rest, delta));
      } else {
        MovedOn(t, delta, (t[8..n], 0));
        assert t[..8] + t[8..n] == Ser(b);
        SerAllUnfold([b] + Restamp.RestampAll(rest, delta));
      }
    }
  }

  lemma MovedTime(s: seq<byte>, delta: int)
    requires 8 <= At(s, 0, 4) <= |s| && At(s, 4, 4) == Name('t', 'f', 'd', 't')
    ensures var w := if At(s, 8, 1) == 1 then 8 else 4;
            var time := (At(s, 12, w) + delta) % TWO64;
            12 + w <= |s| ==> Moved(s, delta) == (s[..12] + ToBE(time, w) + s[12 + w..], time)
  {
    hide At, ToBE, ChildrenFrom;
  }

  lemma MovedOn(s: seq<byte>, delta: int, inner: (seq<byte>, nat))
    requires 8 <= At(s, 0, 4) <= |s| && At(s, 4, 4) != Name('t', 'f', 'd', 't')
    requires inner == if ChildrenFrom(At(s, 4, 4)) == 8 then Moved(s[8..At(s, 0, 4)], delta) else (s[8..At(s, 0, 4)], 0)
    ensures var n := At(s, 0, 4);
            Moved(s, delta) ==
            if inner.1 != 0 then (s[..8] + inner.0 + s[n..], inner.1)
            else (s[..8] + inner.0 + Moved(s[n..], delta).0, Moved(s[n..], delta).1)
  {
    hide At, ToBE, ChildrenFrom;
  }

  lemma NothingToMove(delta: int)
    ensures Moved([], delta) == ([], 0)
  {
  }

  // ----- the code -----

  /** The demuxer on a buffer of well-formed boxes: its samples are those of the reading. */
  method DemuxBuffer(buf: seq<byte>, timescale: nat, junk: Parse, ghost bs: seq<Box>) returns (samples: seq<Sample>)
    requires buf == SerAll(bs) && WellFormedAll(bs) && ReadyAll(bs)
    ensures samples == ReadMedia(buf, 0, junk.(timescale := timescale, samples := [])).samples
  {
    hide SerAll, FoldAll, ReadMedia;
    var demuxer := new Demuxer(buf, timescale, junk, bs);
    samples := demuxer.samples;
    DemuxIsReading(bs, 0, junk.(timescale := timescale, samples := []));
  }

  /** The restamper on such a buffer: what it leaves in it and returns. */
  method RestampBuffer(buf: array<byte>, delta: int, ghost bs: seq<Box>) returns (time: nat)
    requires buf[..] == SerAll(bs) && WellFormedAll(bs) && -TWO64 / 2 <= delta < TWO64 / 2
    modifies buf
    ensures (buf[..], time) == Moved(old(buf[..]), delta)
  {
    hide SerAll, Moved;
    assert buf[..][0..buf.Length] == buf[..];
    time := Restamp.AdjustMediaDecodeTime(buf, 0, buf.Length, delta, bs);
    assert buf[..][0..buf.Length] == buf[..];
    RestampIsMoving(bs, delta);
  }
}
