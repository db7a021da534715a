/**
 The grammar of ISO BMFF boxes (ISO/IEC 14496-12 section 4.2) that the three walkers read:
 a tree of boxes and the byte string it stands for. Boxes whose fields some walker reads or
 edits are laid out field by field; every other leaf is a kind and a payload.
 */
module Boxes {
  import opened Bytes

  const MOOF: nat := 0x6d6f6f66
  const TRAF: nat := 0x74726166
  const MOOV: nat := 0x6d6f6f76
  const TRAK: nat := 0x7472616b
  const MINF: nat := 0x6d696e66
  const DINF: nat := 0x64696e66
  const MVEX: nat := 0x6d766578
  const MDIA: nat := 0x6d646961
  const STBL: nat := 0x7374626c
  const STSD: nat := 0x73747364
  const HEV1: nat := 0x68657631
  const HVC1: nat := 0x68766331
  const AVC1: nat := 0x61766331
  const MP4A: nat := 0x6d703461
  const EC_3: nat := 0x65632d33
  const TFHD: nat := 0x74666864
  const TFDT: nat := 0x74666474
  const TRUN: nat := 0x7472756e
  const TREX: nat := 0x74726578
  const MVHD: nat := 0x6d766864
  const MDHD: nat := 0x6d646864
  const SENC: nat := 0x73656e63
  const SAIZ: nat := 0x7361697a
  const SKIP: nat := 0x736b6970

  /** One row of a trun table; a field the flags leave out takes no room in the box. */
  datatype Entry = Entry(duration: nat, size: nat, flags: nat, compositionOffset: int)

  datatype Leaf =
    | Tfhd(version: byte, flags: nat, trackId: nat, baseDataOffset: nat, descriptionIndex: nat,
           defaultDuration: nat, defaultSize: nat, defaultFlags: nat, trailing: seq<byte>)
    | Tfdt(version: byte, flags: nat, time: nat, trailing: seq<byte>)
    | Trex(version: byte, flags: nat, trackId: nat, descriptionIndex: nat,
           defaultDuration: nat, defaultSize: nat, defaultFlags: nat, trailing: seq<byte>)
    | Trun(version: byte, flags: nat, dataOffset: int, firstFlags: nat, entries: seq<Entry>, trailing: seq<byte>)
    | TimeHeader(movie: bool, version: byte, flags: nat, times: seq<byte>, timescale: nat, trailing: seq<byte>)
    | Senc(version: byte, flags: nat, count: nat, table: seq<byte>)
    | Saiz(version: byte, flags: nat, aux: seq<byte>, infoSize: byte, count: nat, table: seq<byte>)
    | Other(kind: nat, payload: seq<byte>)

  datatype Box =
    | Container(kind: nat, prelude: seq<byte>, children: seq<Box>)
    | Plain(leaf: Leaf)

  // ----- layout -----

  /** A run of big-endian fields and raw bytes; Flat gives the bytes it stands for. */
  datatype Layout =
    | Tail(bytes: seq<byte>)
    | Field(v: int, n: nat, next: Layout)
    | Raw(bytes: seq<byte>, next: Layout)

  function Flat(l: Layout): seq<byte>
  {
    match l
    case Tail(bytes) => bytes
    case Field(v, n, next) => ToBE(v, n) + Flat(next)
    case Raw(bytes, next) => bytes + Flat(next)
  }

  /** An optional field: present or taking no room. */
  function OptField(present: bool, v: int, n: nat, next: Layout): Layout
  {
    if present then Field(v, n, next) else next
  }

  /** Width of the time fields of a full box whose version may be 1. */
  function TimeWidth(version: byte): nat
  {
    if version == 1 then 8 else 4
  }

  function EntryLayout(flags: nat, e: Entry, next: Layout): Layout
  {
    OptField(Bit(flags, 0x100), e.duration, 4,
    OptField(Bit(flags, 0x200), e.size, 4,
    OptField(Bit(flags, 0x400), e.flags, 4,
    OptField(Bit(flags, 0x800), e.compositionOffset, 4, next))))
  }

  function TableLayout(flags: nat, entries: seq<Entry>, next: Layout): Layout
  {
    if entries == [] then next else EntryLayout(flags, entries[0], TableLayout(flags, entries[1..], next))
  }

  /** The version byte and the 24-bit flag word of a full box. */
  function FullHeader(version: byte, flags: nat, next: Layout): Layout
  {
    Field(version, 1, Field(flags, 3, next))
  }

  function LeafLayout(l: Leaf): Layout
  {
    match l
    case Tfhd(version, flags, trackId, offset, index, duration, size, defaultFlags, trailing) =>
      FullHeader(version, flags, Field(trackId, 4,
      OptField(Bit(flags, 0x1), offset, 8,
      OptField(Bit(flags, 0x2), index, 4,
      OptField(Bit(flags, 0x8), duration, 4,
      OptField(Bit(flags, 0x10), size, 4,
      OptField(Bit(flags, 0x20), defaultFlags, 4, Tail(trailing))))))))
    case Tfdt(version, flags, time, trailing) =>
      FullHeader(version, flags, Field(time, TimeWidth(version), Tail(trailing)))
    case Trex(version, flags, trackId, index, duration, size, defaultFlags, trailing) =>
      FullHeader(version, flags, Field(trackId, 4, Field(index, 4, Field(duration, 4,
      Field(size, 4, Field(defaultFlags, 4, Tail(trailing)))))))
    case Trun(version, flags, offset, firstFlags, entries, trailing) =>
      FullHeader(version, flags, Field(|entries|, 4,
      OptField(Bit(flags, 0x1), offset, 4,
      OptField(Bit(flags, 0x4), firstFlags, 4, TableLayout(flags, entries, Tail(trailing))))))
    case TimeHeader(_, version, flags, times, timescale, trailing) =>
      FullHeader(version, flags, Raw(times, Field(timescale, 4, Tail(trailing))))
    case Senc(version, flags, count, table) =>
      FullHeader(version, flags, Field(count, 4, Tail(table)))
    case Saiz(version, flags, aux, infoSize, count, table) =>
      FullHeader(version, flags, Raw(aux, Field(infoSize, 1, Field(count, 4, Tail(table)))))
    case Other(_, payload) => Tail(payload)
  }

  function LeafBytes(l: Leaf): seq<byte>
  {
    Flat(LeafLayout(l))
  }

  function LeafKind(l: Leaf): nat
  {
    match l
    case Tfhd(_, _, _, _, _, _, _, _, _) => TFHD
    case Tfdt(_, _, _, _) => TFDT
    case Trex(_, _, _, _, _, _, _, _) => TREX
    case Trun(_, _, _, _, _, _) => TRUN
    case TimeHeader(movie, _, _, _, _, _) => if movie then MVHD else MDHD
    case Senc(_, _, _, _) => SENC
    case Saiz(_, _, _, _, _, _) => SAIZ
    case Other(kind, _) => kind
  }

  function Kind(b: Box): nat
  {
    match b
    case Container(kind, _, _) => kind
    case Plain(l) => LeafKind(l)
  }

  function Body(b: Box): seq<byte>
    decreases b, 0
  {
    match b
    case Container(_, prelude, children) => prelude + SerAll(children)
    case Plain(l) => LeafBytes(l)
  }

  function Size(b: Box): nat
    decreases b, 1
  {
    8 + |Body(b)|
  }

  /** The bytes of one box: 32-bit size, four-character kind, body. */
  function Ser(b: Box): (s: seq<byte>)
    ensures |s| == Size(b)
    decreases b, 2
  {
    ToBE(8 + |Body(b)|, 4) + (ToBE(Kind(b), 4) + Body(b))
  }

  function SerAll(bs: seq<Box>): seq<byte>
    decreases bs, 3
  {
    if bs == [] then [] else Ser(bs[0]) + SerAll(bs[1..])
  }

  // ----- well-formedness -----

  predicate WellFormedEntry(e: Entry)
  {
    e.duration < TWO32 && e.size < TWO32 && e.flags < TWO32 && -TWO31 <= e.compositionOffset < TWO31
  }

  predicate WellFormedLeaf(l: Leaf)
  {
    match l
    case Tfhd(_, flags, trackId, offset, index, duration, size, defaultFlags, _) =>
      flags < 0x100_0000 && trackId < TWO32 && offset < TWO64 && index < TWO32 &&
      duration < TWO32 && size < TWO32 && defaultFlags < TWO32
    case Tfdt(version, flags, time, _) =>
      flags < 0x100_0000 && time < Pow256(TimeWidth(version))
    case Trex(_, flags, trackId, index, duration, size, defaultFlags, _) =>
      flags < 0x100_0000 && trackId < TWO32 && index < TWO32 &&
      duration < TWO32 && size < TWO32 && defaultFlags < TWO32
    case Trun(_, flags, offset, firstFlags, entries, _) =>
      flags < 0x100_0000 && -TWO31 <= offset < TWO31 && firstFlags < TWO32 && |entries| < TWO32 &&
      forall e :: e in entries ==> WellFormedEntry(e)
    case TimeHeader(_, version, flags, times, timescale, _) =>
      flags < 0x100_0000 && |times| == 2 * TimeWidth(version) && timescale < TWO32
    case Senc(_, flags, count, _) =>
      flags < 0x100_0000 && count < TWO32
    case Saiz(_, flags, aux, _, count, _) =>
      flags < 0x100_0000 && count < TWO32 && |aux| == (if Bit(flags, 1) then 8 else 0)
    case Other(kind, _) =>
      kind < TWO32 && !Structured(kind) && PreludeLength(kind) < 0
  }

  /** The kinds that have a leaf layout of their own. */
  predicate Structured(kind: nat)
  {
    kind == TFHD || kind == TFDT || kind == TREX || kind == TRUN || kind == MVHD || kind == MDHD ||
    kind == SENC || kind == SAIZ
  }

  /** The kinds that hold nothing but boxes. */
  predicate PureContainer(kind: nat)
  {
    kind == MOOF || kind == TRAF || kind == MOOV || kind == TRAK || kind == MINF || kind == DINF ||
    kind == MVEX || kind == MDIA || kind == STBL
  }

  /** Bytes between the header of a container and its first child; -1 for a kind that is not a container. */
  function PreludeLength(kind: nat): int
  {
    if PureContainer(kind) then 0
    else if kind == STSD then 8
    else if kind == HEV1 || kind == HVC1 || kind == AVC1 then 78
    else if kind == MP4A || kind == EC_3 then 28
    else -1
  }

  /** Sizes fit their 32-bit field, fields fit theirs, children tile their container. */
  predicate WellFormed(b: Box)
    decreases b, 1
  {
    Size(b) < TWO32 &&
    match b
    case Container(kind, prelude, children) => |prelude| == PreludeLength(kind) && WellFormedAll(children)
    case Plain(l) => WellFormedLeaf(l)
  }

  predicate WellFormedAll(bs: seq<Box>)
    decreases bs, 2
  {
    bs == [] || (WellFormed(bs[0]) && WellFormedAll(bs[1..]))
  }

  // ----- facts about layout -----

  lemma Associative(a: seq<byte>, b: seq<byte>, c: seq<byte>)
    ensures (a + b) + c == a + (b + c)
  {
  }

  lemma ConcatTail(a: seq<Box>, b: seq<Box>)
    requires a != []
    ensures (a + b)[0] == a[0] && (a + b)[1..] == a[1..] + b
  {
  }

  lemma SerAllUnfold(bs: seq<Box>)
    requires bs != []
    ensures SerAll(bs) == Ser(bs[0]) + SerAll(bs[1..])
  {
  }

  lemma {:induction false} SerAllConcat(a: seq<Box>, b: seq<Box>)
    ensures SerAll(a + b) == SerAll(a) + SerAll(b)
  {
    if a == [] {
      assert a + b == b;
      assert SerAll(a) == [];
    } else {
      SerAllConcat(a[1..], b);
      ConcatTail(a, b);
      SerAllUnfold(a);
      SerAllUnfold(a + b);
      Associative(Ser(a[0]), SerAll(a[1..]), SerAll(b));
    }
  }

  lemma {:induction false} WellFormedConcat(a: seq<Box>, b: seq<Box>)
    ensures WellFormedAll(a + b) <==> WellFormedAll(a) && WellFormedAll(b)
  {
    if a == [] {
      assert a + b == b;
    } else {
      WellFormedConcat(a[1..], b);
      assert (a + b)[1..] == a[1..] + b;
    }
  }

  /** Bytes a flag word gives each row of a trun table. */
  function EntryWidth(flags: nat): nat
  {
    (if Bit(flags, 0x100) then 4 else 0) + (if Bit(flags, 0x200) then 4 else 0) +
    (if Bit(flags, 0x400) then 4 else 0) + (if Bit(flags, 0x800) then 4 else 0)
  }

  lemma {:induction false} OptFieldLength(present: bool, v: int, n: nat, next: Layout)
    ensures |Flat(OptField(present, v, n, next))| == (if present then n else 0) + |Flat(next)|
  {
  }

  lemma {:induction false} EntryLength(flags: nat, e: Entry, next: Layout)
    ensures |Flat(EntryLayout(flags, e, next))| == EntryWidth(flags) + |Flat(next)|
  {
    var l4 := OptField(Bit(flags, 0x800), e.compositionOffset, 4, next);
    var l3 := OptField(Bit(flags, 0x400), e.flags, 4, l4);
    var l2 := OptField(Bit(flags, 0x200), e.size, 4, l3);
    OptFieldLength(Bit(flags, 0x800), e.compositionOffset, 4, next);
    OptFieldLength(Bit(flags, 0x400), e.flags, 4, l4);
    OptFieldLength(Bit(flags, 0x200), e.size, 4, l3);
    OptFieldLength(Bit(flags, 0x100), e.duration, 4, l2);
  }

  lemma {:induction false} TableLength(flags: nat, entries: seq<Entry>, next: Layout)
    ensures |Flat(TableLayout(flags, entries, next))| == |entries| * EntryWidth(flags) + |Flat(next)|
  {
    if entries != [] {
      TableLength(flags, entries[1..], next);
      EntryLength(flags, entries[0], TableLayout(flags, entries[1..], next));
      assert |entries| * EntryWidth(flags) == EntryWidth(flags) + (|entries| - 1) * EntryWidth(flags);
    }
  }
}
