/**
 Mp4Demux: the cursor-driven walker that turns a movie fragment into a list of samples.
 Pointers are offsets from the start of the buffer. A time is kept as integer ticks next to the
 timescale it is divided by.
 */
module Mp4Demux {
  import opened Bytes
  import opened Boxes

  /** What the demuxer reports of one sample; dts, pts and duration are ticks of timescale. */
  datatype Sample = Sample(ptr: int, len: nat, dts: nat, pts: nat, duration: nat, timescale: nat)

  /** The parsing state a later box may depend on. */
  datatype Parse = Parse(
    timescale: nat, baseMediaDecodeTime: nat, baseDataOffset: nat, descriptionIndex: nat,
    defaultDuration: nat, defaultSize: nat, defaultFlags: nat, moof: int, samples: seq<Sample>)

  // ----- specification: a fold over the tree -----

  function Duration(flags: nat, e: Entry, default: nat): nat
  {
    if Bit(flags, 0x100) then e.duration else default
  }

  function Length(flags: nat, e: Entry, default: nat): nat
  {
    if Bit(flags, 0x200) then e.size else default
  }

  function TotalDuration(flags: nat, entries: seq<Entry>, default: nat): nat
  {
    if entries == [] then 0
    else TotalDuration(flags, entries[..|entries| - 1], default) + Duration(flags, entries[|entries| - 1], default)
  }

  function TotalLength(flags: nat, entries: seq<Entry>, default: nat): nat
  {
    if entries == [] then 0
    else TotalLength(flags, entries[..|entries| - 1], default) + Length(flags, entries[|entries| - 1], default)
  }

  /** Sample i of a track run, from the rows before it (ISO/IEC 14496-12 section 8.8.8). */
  function SampleAt(t: Leaf, p: Parse, i: nat): Sample
    requires t.Trun? && i < |t.entries|
  {
    var e := t.entries[i];
    var dts := p.baseMediaDecodeTime + TotalDuration(t.flags, t.entries[..i], p.defaultDuration);
    Sample(p.moof + t.dataOffset + TotalLength(t.flags, t.entries[..i], p.defaultSize),
           Length(t.flags, e, p.defaultSize),
           dts % TWO64,
           (dts + (if Bit(t.flags, 0x800) then e.compositionOffset else 0)) % TWO64,
           if Bit(t.flags, 0x100) then e.duration else 0,
           p.timescale)
  }

  function RunSamples(t: Leaf, p: Parse): seq<Sample>
    requires t.Trun?
  {
    seq(|t.entries|, i requires 0 <= i < |t.entries| => SampleAt(t, p, i))
  }

  function StepLeaf(l: Leaf, p: Parse): Parse
  {
    match l
    case Tfhd(_, flags, _, offset, index, duration, size, defaultFlags, _) =>
      p.(baseDataOffset := if Bit(flags, 0x1) then offset else p.baseDataOffset,
         descriptionIndex := if Bit(flags, 0x2) then index else p.descriptionIndex,
         defaultDuration := if Bit(flags, 0x8) then duration else p.defaultDuration,
         defaultSize := if Bit(flags, 0x10) then size else p.defaultSize,
         defaultFlags := if Bit(flags, 0x20) then defaultFlags else p.defaultFlags)
    case Trex(_, _, _, index, duration, size, defaultFlags, _) =>
      p.(descriptionIndex := index, defaultDuration := duration, defaultSize := size, defaultFlags := defaultFlags)
    case Tfdt(_, _, time, _) => p.(baseMediaDecodeTime := time)
    case TimeHeader(_, _, _, _, timescale, _) => p.(timescale := timescale)
    case Trun(_, _, _, _, _, _) => p.(samples := p.samples + RunSamples(l, p))
    case _ => p
  }

  function FoldBox(b: Box, at: int, p: Parse): Parse
    decreases b, 0
  {
    match b
    case Plain(l) => StepLeaf(l, p)
    case Container(kind, prelude, children) =>
      FoldAll(children, at + 8 + |prelude|, if kind == MOOF then p.(moof := at) else p)
  }

  /** The state after the boxes bs, the first of which starts at offset at. */
  function FoldAll(bs: seq<Box>, at: int, p: Parse): Parse
    decreases bs, 1
  {
    if bs == [] then p else FoldAll(bs[1..], at + Size(bs[0]), FoldBox(bs[0], at, p))
  }

  /** What the walker asserts of its input: a data offset in every trun, one sample entry in stsd, 0xffff padding. */
  predicate Ready(b: Box)
    decreases b, 0
  {
    match b
    case Plain(l) => l.Trun? ==> Bit(l.flags, 0x1)
    case Container(kind, prelude, children) =>
      (kind == STSD ==> |prelude| == 8 && BE(prelude[4..]) == 1) &&
      (PreludeLength(kind) == 78 ==> |prelude| == 78 && BE(prelude[76..]) == 0xffff) &&
      ReadyAll(children)
  }

  predicate ReadyAll(bs: seq<Box>)
    decreases bs, 1
  {
    bs == [] || (Ready(bs[0]) && ReadyAll(bs[1..]))
  }

  // ----- helper facts -----

  lemma {:induction false} Pow256Monotone(m: nat, n: nat)
    requires m <= n
    ensures Pow256(m) <= Pow256(n)
    decreases n
  {
    if m < n {
      Pow256Monotone(m, n - 1);
    }
  }

  lemma {:induction false} BESnoc(s: seq<byte>, lo: nat, i: nat)
    requires lo <= i < |s|
    ensures BE(s[lo..i + 1]) == BE(s[lo..i]) * 256 + s[i]
  {
    var t := s[lo..i + 1];
    assert t[..|t| - 1] == s[lo..i];
  }

  lemma AddMod(x: int, y: int)
    ensures (x % TWO64 + y) % TWO64 == (x + y) % TWO64
  {
  }

  /** A signed 32-bit field: the stored word read back as two's complement. */
  lemma {:induction false} SignedField(v: int)
    requires -TWO31 <= v < TWO31
    ensures Signed32(v % TWO32) == v
  {
  }

  lemma TotalsEmpty(flags: nat, d: nat, z: nat)
    ensures TotalDuration(flags, [], d) == 0 && TotalLength(flags, [], z) == 0
  {
  }

  lemma {:induction false} TotalsSnoc(flags: nat, entries: seq<Entry>, i: nat, d: nat, z: nat)
    requires i < |entries|
    ensures TotalDuration(flags, entries[..i + 1], d) == TotalDuration(flags, entries[..i], d) + Duration(flags, entries[i], d)
    ensures TotalLength(flags, entries[..i + 1], z) == TotalLength(flags, entries[..i], z) + Length(flags, entries[i], z)
  {
    var t := entries[..i + 1];
    assert t[..|t| - 1] == entries[..i];
  }

  /** Half way through the table: i samples are appended, and the next one has this offset and time. */
  ghost predicate RunSoFar(l: Leaf, p: Parse, i: nat, samples: seq<Sample>, ptr: int, dts: nat)
    requires l.Trun?
  {
    i <= |l.entries| && samples == p.samples + RunSamples(l, p)[..i] &&
    ptr == p.moof + l.dataOffset + TotalLength(l.flags, l.entries[..i], p.defaultSize) &&
    dts == (p.baseMediaDecodeTime + TotalDuration(l.flags, l.entries[..i], p.defaultDuration)) % TWO64
  }

  lemma RunStart(l: Leaf, p: Parse, ptr: int, dts: nat)
    requires l.Trun? && ptr == p.moof + l.dataOffset && dts == p.baseMediaDecodeTime % TWO64
    ensures RunSoFar(l, p, 0, p.samples, ptr, dts)
  {
    assert l.entries[..0] == [];
    TotalsEmpty(l.flags, p.defaultDuration, p.defaultSize);
    assert p.samples + RunSamples(l, p)[..0] == p.samples;
  }

  lemma RunEnd(l: Leaf, p: Parse, samples: seq<Sample>, ptr: int, dts: nat)
    requires l.Trun? && RunSoFar(l, p, |l.entries|, samples, ptr, dts)
    ensures samples == p.samples + RunSamples(l, p)
  {
  }

  /** One turn of the sample loop. */
  lemma {:induction false} RunNext(l: Leaf, p: Parse, i: nat, samples: seq<Sample>, ptr: int, dts: nat)
    requires l.Trun? && i < |l.entries| && RunSoFar(l, p, i, samples, ptr, dts)
    ensures var e := l.entries[i];
            var c := if Bit(l.flags, 0x800) then e.compositionOffset else 0;
            var len, d := Length(l.flags, e, p.defaultSize), Duration(l.flags, e, p.defaultDuration);
            RunSoFar(l, p, i + 1, samples + [Sample(ptr, len, dts, (dts + c) % TWO64,
                                                    if Bit(l.flags, 0x100) then e.duration else 0, p.timescale)],
                     ptr + len, (dts + d) % TWO64)
  {
    hide Bit, Length, Duration, TotalLength, TotalDuration;
    TotalsSnoc(l.flags, l.entries, i, p.defaultDuration, p.defaultSize);
    var at := p.baseMediaDecodeTime + TotalDuration(l.flags, l.entries[..i], p.defaultDuration);
    AddMod(at, Duration(l.flags, l.entries[i], p.defaultDuration));
    AddMod(at, if Bit(l.flags, 0x800) then l.entries[i].compositionOffset else 0);
    assert RunSamples(l, p)[..i + 1] == RunSamples(l, p)[..i] + [SampleAt(l, p, i)];
  }

  lemma FlatRaw(at: Layout)
    requires at.Raw?
    ensures Flat(at) == at.bytes + Flat(at.next)
  {
  }

  lemma AtTail(s: seq<byte>, lo: nat, hi: nat, tail: seq<byte>)
    requires lo <= hi <= |s| && s[lo..hi] == Flat(Tail(tail))
    ensures lo + |tail| == hi
  {
    assert |s[lo..hi]| == hi - lo;
  }

  function TfhdDefaults(l: Leaf): Layout
    requires l.Tfhd?
  {
    OptField(Bit(l.flags, 0x8), l.defaultDuration, 4,
    OptField(Bit(l.flags, 0x10), l.defaultSize, 4,
    OptField(Bit(l.flags, 0x20), l.defaultFlags, 4, Tail(l.trailing))))
  }

  lemma TfhdShape(l: Leaf)
    requires l.Tfhd? && WellFormedLeaf(l)
    ensures LeafLayout(l) ==
            Field(l.version, 1, Field(l.flags, 3, Field(l.trackId, 4,
            OptField(Bit(l.flags, 0x1), l.baseDataOffset, 8,
            OptField(Bit(l.flags, 0x2), l.descriptionIndex, 4, TfhdDefaults(l))))))
    ensures l.flags < 0x100_0000 && l.trackId < Pow256(4) && l.baseDataOffset < Pow256(8)
    ensures l.descriptionIndex < Pow256(4)
  {
    Widths();
  }

  lemma TfhdStep(l: Leaf, p: Parse)
    requires l.Tfhd?
    ensures StepLeaf(l, p) ==
            p.(baseDataOffset := if Bit(l.flags, 0x1) then l.baseDataOffset else p.baseDataOffset,
               descriptionIndex := if Bit(l.flags, 0x2) then l.descriptionIndex else p.descriptionIndex,
               defaultDuration := if Bit(l.flags, 0x8) then l.defaultDuration else p.defaultDuration,
               defaultSize := if Bit(l.flags, 0x10) then l.defaultSize else p.defaultSize,
               defaultFlags := if Bit(l.flags, 0x20) then l.defaultFlags else p.defaultFlags)
  {
    hide Bit;
  }

  lemma TrexShape(l: Leaf, p: Parse)
    requires l.Trex? && WellFormedLeaf(l)
    ensures LeafLayout(l) ==
            Field(l.version, 1, Field(l.flags, 3, Field(l.trackId, 4, Field(l.descriptionIndex, 4,
            Field(l.defaultDuration, 4, Field(l.defaultSize, 4, Field(l.defaultFlags, 4, Tail(l.trailing))))))))
    ensures l.flags < 0x100_0000 && l.trackId < Pow256(4) && l.descriptionIndex < Pow256(4)
    ensures l.defaultDuration < Pow256(4) && l.defaultSize < Pow256(4) && l.defaultFlags < Pow256(4)
    ensures StepLeaf(l, p) ==
            p.(descriptionIndex := l.descriptionIndex, defaultDuration := l.defaultDuration,
               defaultSize := l.defaultSize, defaultFlags := l.defaultFlags)
  {
    Widths();
  }

  /** The demuxer object. */
  class Demuxer {
    const buf: seq<byte>
    var timescale: nat
    var samples: seq<Sample>
    var moof_ptr: int
    var ptr: nat
    var version: byte
    var flags: nat
    var baseMediaDecodeTime: nat
    var track_id: nat
    var base_data_offset: nat
    var default_sample_description_index: nat
    var default_sample_duration: nat
    var default_sample_size: nat
    var default_sample_flags: nat

    ghost function View(): Parse
      reads this
    {
      Parse(timescale, baseMediaDecodeTime, base_data_offset, default_sample_description_index,
            default_sample_duration, default_sample_size, default_sample_flags, moof_ptr, samples)
    }

    /**
     Runs the whole demux. Members the C++ constructor leaves uninitialised, and the null moof
     pointer as an offset, come from junk.
     */
    constructor (buf: seq<byte>, timescale: nat, junk: Parse, ghost bs: seq<Box>)
      requires buf == SerAll(bs) && WellFormedAll(bs) && ReadyAll(bs)
      ensures this.buf == buf && ptr == |buf|
      ensures View() == FoldAll(bs, 0, junk.(timescale := timescale, samples := []))
    {
      this.buf := buf;
      this.timescale := timescale;
      this.samples := [];
      this.moof_ptr := junk.moof;
      this.ptr := 0;
      this.version := 0;
      this.flags := 0;
      this.baseMediaDecodeTime := junk.baseMediaDecodeTime;
      this.track_id := 0;
      this.base_data_offset := junk.baseDataOffset;
      this.default_sample_description_index := junk.descriptionIndex;
      this.default_sample_duration := junk.defaultDuration;
      this.default_sample_size := junk.defaultSize;
      this.default_sample_flags := junk.defaultFlags;
      new;
      assert buf[0..|buf|] == SerAll(bs);
      DemuxHelper(|buf|, bs);
    }

    method ReadBytes(n: nat) returns (rc: nat)
      requires n <= 8 && ptr + n <= |buf|
      modifies this`ptr
      ensures ptr == old(ptr) + n && rc == BE(buf[old(ptr)..ptr])
    {
      rc := 0;
      var i := 0;
      assert buf[ptr..ptr] == [];
      while i < n
        invariant 0 <= i <= n && ptr == old(ptr) + i
        invariant rc == BE(buf[old(ptr)..ptr])
      {
        BEBound(buf[old(ptr)..ptr]);
        Pow256Monotone(i + 1, 8);
        Widths();
        BESnoc(buf, old(ptr), ptr);
        rc := rc * 256 % TWO64 + buf[ptr];
        ptr := ptr + 1;
        i := i + 1;
      }
    }

    /** Reads the field the grammar has at the cursor. */
    method ReadField(n: nat, ghost at: Layout, ghost next: nat) returns (rc: nat)
      requires n <= 8 && at.Field? && at.n == n && 0 <= at.v < Pow256(n)
      requires ptr <= next <= |buf| && buf[ptr..next] == Flat(at)
      modifies this`ptr
      ensures ptr == old(ptr) + n <= next && buf[ptr..next] == Flat(at.next) && rc == at.v
    {
      TakeField(buf, ptr, next, at.v, n, Flat(at.next));
      rc := ReadBytes(n);
    }

    /** Reads a field if its flag is set and keeps the default otherwise. */
    method ReadIf(present: bool, n: nat, default: nat, ghost v: nat, ghost rest: Layout, ghost next: nat)
      returns (rc: nat)
      requires n <= 8 && v < Pow256(n)
      requires ptr <= next <= |buf| && buf[ptr..next] == Flat(OptField(present, v, n, rest))
      modifies this`ptr
      ensures ptr == old(ptr) + (if present then n else 0) <= next && buf[ptr..next] == Flat(rest)
      ensures rc == if present then v else default
    {
      rc := default;
      if present {
        rc := ReadField(n, Field(v, n, rest), next);
      }
    }

    method ReadI32(ghost at: Layout, ghost next: nat) returns (rc: int)
      requires at.Field? && at.n == 4 && -TWO31 <= at.v < TWO31
      requires ptr <= next <= |buf| && buf[ptr..next] == Flat(at)
      modifies this`ptr
      ensures ptr == old(ptr) + 4 <= next && buf[ptr..next] == Flat(at.next) && rc == at.v
    {
      Widths();
      TakeField(buf, ptr, next, at.v, 4, Flat(at.next));
      var word := ReadBytes(4);
      SignedField(at.v);
      rc := Signed32(word);
    }

    method ReadHeader(ghost at: Layout, ghost next: nat)
      requires at.Field? && at.n == 1 && 0 <= at.v < 256
      requires at.next.Field? && at.next.n == 3 && 0 <= at.next.v < 0x100_0000
      requires ptr <= next <= |buf| && buf[ptr..next] == Flat(at)
      modifies this`ptr, this`version, this`flags
      ensures ptr == old(ptr) + 4 <= next && buf[ptr..next] == Flat(at.next.next)
      ensures version == at.v && flags == at.next.v
    {
      Widths();
      TakeField(buf, ptr, next, at.v, 1, Flat(at.next));
      BESingle(buf, ptr);
      version := buf[ptr];
      ptr := ptr + 1;
      flags := ReadField(3, at.next, next);
    }

    method parseTrackFragmentHeaderBox(ghost l: Leaf, ghost next: nat)
      requires l.Tfhd? && WellFormedLeaf(l)
      requires ptr <= next <= |buf| && buf[ptr..next] == LeafBytes(l)
      modifies this
      ensures ptr + |l.trailing| == next && View() == StepLeaf(l, old(View()))
    {
      hide Flat, Bit, LeafLayout, WellFormedLeaf, OptField, TfhdDefaults, StepLeaf, Pow256;
      TfhdShape(l);
      TfhdStep(l, View());
      ghost var at := LeafLayout(l);
      ReadHeader(at, next);
      at := at.next.next;
      track_id := ReadField(4, at, next);
      parseTrackFragmentLocation(l, next);
      parseTrackFragmentDefaults(l, next);
    }

    /** The optional fields of a track fragment header that say where and how its samples are stored. */
    method parseTrackFragmentLocation(ghost l: Leaf, ghost next: nat)
      requires l.Tfhd? && flags == l.flags && l.baseDataOffset < Pow256(8) && l.descriptionIndex < Pow256(4)
      requires ptr <= next <= |buf|
      requires buf[ptr..next] == Flat(OptField(Bit(l.flags, 0x1), l.baseDataOffset, 8,
                                      OptField(Bit(l.flags, 0x2), l.descriptionIndex, 4, TfhdDefaults(l))))
      modifies this`ptr, this`base_data_offset, this`default_sample_description_index
      ensures ptr <= next && buf[ptr..next] == Flat(TfhdDefaults(l))
      ensures base_data_offset == if Bit(l.flags, 0x1) then l.baseDataOffset else old(base_data_offset)
      ensures default_sample_description_index ==
              if Bit(l.flags, 0x2) then l.descriptionIndex else old(default_sample_description_index)
    {
      hide Flat, Bit, OptField, TfhdDefaults, Pow256;
      ghost var r1 := OptField(Bit(l.flags, 0x2), l.descriptionIndex, 4, TfhdDefaults(l));
      base_data_offset := ReadIf(Bit(flags, 0x1), 8, base_data_offset, l.baseDataOffset, r1, next);
      default_sample_description_index :=
        ReadIf(Bit(flags, 0x2), 4, default_sample_description_index, l.descriptionIndex, TfhdDefaults(l), next);
    }

    /** The per-sample defaults that end a track fragment header. */
    method parseTrackFragmentDefaults(ghost l: Leaf, ghost next: nat)
      requires l.Tfhd? && WellFormedLeaf(l) && flags == l.flags
      requires ptr <= next <= |buf| && buf[ptr..next] == Flat(TfhdDefaults(l))
      modifies this`ptr, this`default_sample_duration, this`default_sample_size, this`default_sample_flags
      ensures ptr + |l.trailing| == next
      ensures default_sample_duration == if Bit(l.flags, 0x8) then l.defaultDuration else old(default_sample_duration)
      ensures default_sample_size == if Bit(l.flags, 0x10) then l.defaultSize else old(default_sample_size)
      ensures default_sample_flags == if Bit(l.flags, 0x20) then l.defaultFlags else old(default_sample_flags)
    {
      hide Flat, Bit;
      Widths();
      ghost var r4 := OptField(Bit(l.flags, 0x20), l.defaultFlags, 4, Tail(l.trailing));
      ghost var r3 := OptField(Bit(l.flags, 0x10), l.defaultSize, 4, r4);
      default_sample_duration := ReadIf(Bit(flags, 0x8), 4, default_sample_duration, l.defaultDuration, r3, next);
      default_sample_size := ReadIf(Bit(flags, 0x10), 4, default_sample_size, l.defaultSize, r4, next);
      default_sample_flags := ReadIf(Bit(flags, 0x20), 4, default_sample_flags, l.defaultFlags, Tail(l.trailing), next);
      AtTail(buf, ptr, next, l.trailing);
    }

    method parseTrackExtendsBox(ghost l: Leaf, ghost next: nat)
      requires l.Trex? && WellFormedLeaf(l)
      requires ptr <= next <= |buf| && buf[ptr..next] == LeafBytes(l)
      modifies this
      ensures ptr + |l.trailing| == next && View() == StepLeaf(l, old(View()))
    {
      hide Flat, Bit, LeafLayout, WellFormedLeaf, StepLeaf, Pow256;
      TrexShape(l, View());
      ghost var at := LeafLayout(l);
      ReadHeader(at, next);
      at := at.next.next;
      track_id := ReadField(4, at, next);
      default_sample_description_index := ReadField(4, at.next, next);
      default_sample_duration := ReadField(4, at.next.next, next);
      at := at.next.next.next;
      default_sample_size := ReadField(4, at, next);
      default_sample_flags := ReadField(4, at.next, next);
      AtTail(buf, ptr, next, l.trailing);
    }

    method parseTrackFragmentBaseMediaDecodeTimeBox(ghost l: Leaf, ghost next: nat)
      requires l.Tfdt? && WellFormedLeaf(l)
      requires ptr <= next <= |buf| && buf[ptr..next] == LeafBytes(l)
      modifies this
      ensures ptr + |l.trailing| == next && View() == StepLeaf(l, old(View()))
    {
      hide Flat, Bit;
      ghost var at := LeafLayout(l);
      ReadHeader(at, next);
      var sz := if version == 1 then 8 else 4;
      baseMediaDecodeTime := ReadField(sz, at.next.next, next);
      AtTail(buf, ptr, next, l.trailing);
    }

    /** mvhd and mdhd: the part both share, up to the timescale. */
    method parseTimeHeader(ghost l: Leaf, ghost next: nat)
      requires l.TimeHeader? && WellFormedLeaf(l)
      requires ptr <= next <= |buf| && buf[ptr..next] == LeafBytes(l)
      modifies this
      ensures ptr + |l.trailing| == next && View() == StepLeaf(l, old(View()))
    {
      hide Flat, Bit;
      Widths();
      ghost var at := LeafLayout(l);
      ReadHeader(at, next);
      at := at.next.next;
      var sz := if version == 1 then 8 else 4;
      FlatRaw(at);
      TakeBytes(buf, ptr, next, at.bytes, Flat(at.next));
      var creation_time := ReadBytes(sz);
      var modification_time := ReadBytes(sz);
      timescale := ReadField(4, at.next, next);
      AtTail(buf, ptr, next, l.trailing);
    }

    /** Reads one row of the table; absent fields yield the defaults. */
    method ReadEntry(ghost e: Entry, ghost next: nat, ghost rest: Layout)
      returns (sample_duration: nat, duration: nat, len: nat, composition: int)
      requires WellFormedEntry(e)
      requires ptr <= next <= |buf| && buf[ptr..next] == Flat(EntryLayout(flags, e, rest))
      modifies this`ptr
      ensures ptr == old(ptr) + EntryWidth(flags) <= next && buf[ptr..next] == Flat(rest)
      ensures sample_duration == Duration(flags, e, default_sample_duration)
      ensures duration == if Bit(flags, 0x100) then e.duration else 0
      ensures len == Length(flags, e, default_sample_size)
      ensures composition == if Bit(flags, 0x800) then e.compositionOffset else 0
    {
      hide Flat, Bit;
      Widths();
      ghost var at := EntryLayout(flags, e, rest);
      ghost var r3 := OptField(Bit(flags, 0x800), e.compositionOffset, 4, rest);
      ghost var r2 := OptField(Bit(flags, 0x400), e.flags, 4, r3);
      ghost var r1 := OptField(Bit(flags, 0x200), e.size, 4, r2);
      assert at == OptField(Bit(flags, 0x100), e.duration, 4, r1);
      sample_duration := ReadIf(Bit(flags, 0x100), 4, default_sample_duration, e.duration, r1, next);
      duration := if Bit(flags, 0x100) then sample_duration else 0;
      len := ReadIf(Bit(flags, 0x200), 4, default_sample_size, e.size, r2, next);
      var sample_flags := ReadIf(Bit(flags, 0x400), 4, 0, e.flags, r3, next);
      composition := 0;
      if Bit(flags, 0x800) {
        composition := ReadI32(r3, next);
      }
    }

    method parseTrackFragmentRunBox(ghost l: Leaf, ghost next: nat)
      requires l.Trun? && WellFormedLeaf(l) && Bit(l.flags, 0x1)
      requires ptr <= next <= |buf| && buf[ptr..next] == LeafBytes(l)
      modifies this
      ensures ptr + |l.trailing| == next && View() == StepLeaf(l, old(View()))
    {
      hide Flat, Bit;
      Widths();
      ghost var p := View();
      ghost var at := LeafLayout(l);
      ReadHeader(at, next);
      at := at.next.next;
      var sample_count := ReadField(4, at, next);
      at := at.next;
      var data_ptr := moof_ptr;
      var data_offset := ReadI32(at, next);
      at := at.next;
      data_ptr := data_ptr + data_offset;
      if Bit(flags, 0x4) {
        var sample_flags := ReadField(4, at, next);
        at := at.next;
      }
      ReadRun(l, next, sample_count, data_ptr);
    }

    /** The sample loop of a track run. */
    method ReadRun(ghost l: Leaf, ghost next: nat, sample_count: nat, start: int)
      requires l.Trun? && WellFormedLeaf(l) && flags == l.flags && sample_count == |l.entries|
      requires start == moof_ptr + l.dataOffset
      requires ptr <= next <= |buf| && buf[ptr..next] == Flat(TableLayout(l.flags, l.entries, Tail(l.trailing)))
      modifies this`ptr, this`samples
      ensures ptr + |l.trailing| == next
      ensures samples == old(samples) + RunSamples(l, old(View()))
    {
      hide Flat, Bit, ToBE, RunSoFar, RunSamples;
      ghost var p := View();
      var data_ptr := start;
      var dts: nat := baseMediaDecodeTime % TWO64;
      var i := 0;
      assert l.entries[0..] == l.entries;
      RunStart(l, p, data_ptr, dts);
      while i < sample_count
        invariant 0 <= i <= sample_count == |l.entries| && ptr <= next
        invariant RunSoFar(l, p, i, samples, data_ptr, dts)
        invariant buf[ptr..next] == Flat(TableLayout(l.flags, l.entries[i..], Tail(l.trailing)))
      {
        ghost var e := l.entries[i];
        assert l.entries[i..][0] == e && l.entries[i..][1..] == l.entries[i + 1..];
        var sample_duration, duration, len, composition :=
          ReadEntry(e, next, TableLayout(l.flags, l.entries[i + 1..], Tail(l.trailing)));
        RunNext(l, p, i, samples, data_ptr, dts);
        samples := samples + [Sample(data_ptr, len, dts, (dts + composition) % TWO64, duration, timescale)];
        data_ptr := data_ptr + len;
        dts := (dts + sample_duration) % TWO64;
        i := i + 1;
      }
      RunEnd(l, p, samples, data_ptr, dts);
      AtTail(buf, ptr, next, l.trailing);
    }

    /** stsd and the sample entries: passes over the prelude, checking what the source asserts of it. */
    method parsePrelude(kind: nat, ghost prelude: seq<byte>)
      requires |prelude| == PreludeLength(kind) && (kind == STSD || PreludeLength(kind) > 8)
      requires kind == STSD ==> BE(prelude[4..]) == 1
      requires PreludeLength(kind) == 78 ==> BE(prelude[76..]) == 0xffff
      requires ptr + |prelude| <= |buf| && buf[ptr..ptr + |prelude|] == prelude
      modifies this`ptr
      ensures ptr == old(ptr) + |prelude|
    {
      ghost var start := ptr;
      if kind == STSD {
        ptr := ptr + 4;
        assert buf[ptr..start + 8] == prelude[4..];
        var count := ReadBytes(4);
        assert count == 1;
      } else if kind == HEV1 || kind == AVC1 || kind == HVC1 {
        ptr := ptr + 76;
        assert buf[ptr..start + 78] == prelude[76..];
        var pad := ReadBytes(2);
        assert pad == 0xffff;
      } else {
        ptr := ptr + 28;
      }
    }

    /** Walks the boxes between the cursor and fin. */
    method DemuxHelper(fin: nat, ghost bs: seq<Box>)
      requires ptr <= fin <= |buf| && buf[ptr..fin] == SerAll(bs)
      requires WellFormedAll(bs) && ReadyAll(bs)
      modifies this
      ensures ptr == fin && View() == FoldAll(bs, old(ptr), old(View()))
      decreases fin - ptr, 0
    {
      hide Ser, SerAll, BE, Pow256, ToBE, FoldBox, FoldAll, Ready, WellFormed, Kind, Body;
      ghost var rest := bs;
      FoldNone(old(ptr), old(View()));
      while ptr < fin
        invariant old(ptr) <= ptr <= fin && buf[ptr..fin] == SerAll(rest)
        invariant WellFormedAll(rest) && ReadyAll(rest)
        invariant FoldAll(rest, ptr, View()) == FoldAll(bs, old(ptr), old(View()))
        decreases fin - ptr
      {
        SerAllEmpty(rest);
        BoxHeader(buf, ptr, fin, rest);
        FoldFirst(rest, ptr, View());
        var size := ReadBytes(4);
        var next := ptr + size - 4;
        var type_ := ReadBytes(4);
        DemuxBox(type_, next, rest[0]);
        ptr := next;
        rest := rest[1..];
      }
      SerAllEmpty(rest);
      FoldNone(ptr, View());
    }

    /** The switch on the type of the box whose header has been read. */
    method DemuxBox(type_: nat, next: nat, ghost b: Box)
      requires 8 <= ptr <= next <= |buf| && buf[ptr..next] == Body(b)
      requires WellFormed(b) && Ready(b) && type_ == Kind(b)
      modifies this
      ensures View() == FoldBox(b, old(ptr) - 8, old(View()))
      decreases next - ptr, 1
    {
      hide Ser, SerAll, LeafBytes, BE, StepLeaf, FoldBox, FoldAll, Ready, PreludeLength, PureContainer, WellFormed, Kind, Body;
      KindIsShape(b);
      PreludeShape(b);
      ReadyParts(b);
      FoldParts(b, ptr - 8, View());
      if type_ == TFHD {
        parseTrackFragmentHeaderBox(b.leaf, next);
      } else if type_ == TRUN {
        parseTrackFragmentRunBox(b.leaf, next);
      } else if type_ == TFDT {
        parseTrackFragmentBaseMediaDecodeTimeBox(b.leaf, next);
      } else if type_ == MVHD || type_ == MDHD {
        parseTimeHeader(b.leaf, next);
      } else if type_ == TREX {
        parseTrackExtendsBox(b.leaf, next);
      } else if type_ == MOOF {
        moof_ptr := ptr - 8;
        NoPrelude(b);
        DemuxHelper(next, b.children);
      } else if PureContainer(type_) {
        NoPrelude(b);
        DemuxHelper(next, b.children);
      } else if PreludeLength(type_) >= 0 {
        TakeBytes(buf, ptr, next, b.prelude, SerAll(b.children));
        parsePrelude(type_, b.prelude);
        DemuxHelper(next, b.children);
      }
    }
  }

  lemma FoldNone(at: int, p: Parse)
    ensures FoldAll([], at, p) == p
  {
  }

  /** One turn of the walk. */
  lemma FoldFirst(bs: seq<Box>, at: int, p: Parse)
    requires bs != []
    ensures FoldAll(bs, at, p) == FoldAll(bs[1..], at + Size(bs[0]), FoldBox(bs[0], at, p))
  {
    hide Size, FoldBox;
  }

  lemma FoldParts(b: Box, at: int, p: Parse)
    ensures match b
            case Plain(l) => FoldBox(b, at, p) == StepLeaf(l, p) && (l.Senc? || l.Saiz? || l.Other? ==> StepLeaf(l, p) == p)
            case Container(kind, prelude, children) =>
              FoldBox(b, at, p) == FoldAll(children, at + 8 + |prelude|, if kind == MOOF then p.(moof := at) else p)
  {
    hide RunSamples, FoldAll;
  }

  lemma ReadyParts(b: Box)
    requires Ready(b)
    ensures b.Plain? && b.leaf.Trun? ==> Bit(b.leaf.flags, 0x1)
    ensures b.Container? ==>
            ReadyAll(b.children) && (b.kind == STSD ==> |b.prelude| == 8 && BE(b.prelude[4..]) == 1) &&
            (PreludeLength(b.kind) == 78 ==> |b.prelude| == 78 && BE(b.prelude[76..]) == 0xffff)
  {
    hide BE, Bit;
  }

  lemma {:induction false} BESingle(s: seq<byte>, i: nat)
    requires i < |s|
    ensures BE(s[i..i + 1]) == s[i]
  {
    BESnoc(s, i, i);
    assert s[i..i] == [];
  }

  lemma SerAllEmpty(bs: seq<Box>)
    ensures SerAll(bs) == [] <==> bs == []
  {
    if bs != [] {
      SerAllUnfold(bs);
    }
  }

  /** The header of the first box, its end, and what follows it. */
  lemma {:induction false} BoxHeader(s: seq<byte>, lo: nat, hi: nat, bs: seq<Box>)
    requires lo <= hi <= |s| && bs != [] && s[lo..hi] == SerAll(bs) && WellFormedAll(bs)
    ensures lo + Size(bs[0]) <= hi
    ensures BE(s[lo..lo + 4]) == Size(bs[0]) && BE(s[lo + 4..lo + 8]) == Kind(bs[0])
    ensures s[lo..lo + Size(bs[0])] == Ser(bs[0])
    ensures s[lo + 8..lo + Size(bs[0])] == Body(bs[0])
    ensures s[lo + Size(bs[0])..hi] == SerAll(bs[1..])
  {
    hide SerAll, Body, Kind, ToBE, BE, WellFormed;
    var b := bs[0];
    HeaderFits(bs);
    SerAllUnfold(bs);
    TakeBytes(s, lo, hi, Ser(b), SerAll(bs[1..]));
    var next := lo + Size(b);
    TakeField(s, lo, next, Size(b), 4, ToBE(Kind(b), 4) + Body(b));
    TakeField(s, lo + 4, next, Kind(b), 4, Body(b));
  }

  lemma HeaderFits(bs: seq<Box>)
    requires bs != [] && WellFormedAll(bs)
    ensures WellFormed(bs[0]) && WellFormedAll(bs[1..])
    ensures Kind(bs[0]) < Pow256(4) && Size(bs[0]) < Pow256(4)
  {
    Widths();
  }

  /** The kind field alone tells which layout the body has. */
  lemma KindIsShape(b: Box)
    requires WellFormed(b)
    ensures b.Container? <==> PreludeLength(Kind(b)) >= 0
    ensures Kind(b) == TFHD <==> b.Plain? && b.leaf.Tfhd?
    ensures Kind(b) == TFDT <==> b.Plain? && b.leaf.Tfdt?
    ensures Kind(b) == TREX <==> b.Plain? && b.leaf.Trex?
    ensures Kind(b) == TRUN <==> b.Plain? && b.leaf.Trun?
    ensures Kind(b) == MVHD || Kind(b) == MDHD <==> b.Plain? && b.leaf.TimeHeader?
    ensures Kind(b) == SENC <==> b.Plain? && b.leaf.Senc?
    ensures Kind(b) == SAIZ <==> b.Plain? && b.leaf.Saiz?
  {
  }

  lemma PreludeShape(b: Box)
    requires WellFormed(b)
    ensures PureContainer(MOOF) && (PureContainer(Kind(b)) ==> PreludeLength(Kind(b)) == 0)
    ensures b.Plain? ==> Body(b) == LeafBytes(b.leaf) && WellFormedLeaf(b.leaf)
    ensures b.Container? ==>
            Kind(b) == b.kind && WellFormedAll(b.children) && |b.prelude| == PreludeLength(b.kind) &&
            Body(b) == b.prelude + SerAll(b.children)
    ensures b.Container? && !PureContainer(b.kind) ==> b.kind == STSD || PreludeLength(b.kind) > 8
  {
    hide LeafBytes;
  }

  lemma NoPrelude(b: Box)
    requires WellFormed(b) && b.Container? && PureContainer(b.kind)
    ensures b.prelude == [] && Body(b) == SerAll(b.children)
  {
    assert b.prelude == [];
    assert Body(b) == [] + SerAll(b.children);
  }
}
