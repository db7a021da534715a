/**
 The media walkers once more, straight on the bytes: box types by their four characters, fields by their
 offsets (ISO/IEC 14496-12 sections 8.1 to 8.8), no grammar in between. An independent reading for the
 grammar, the walkers and their laws to agree with.
 */
module ByteLayout {
  import opened Bytes
  import opened Mp4Demux

  /** A box type spelt out. */
  function Name(a: char, b: char, c: char, d: char): nat
  {
    ((a as int * 256 + b as int) * 256 + c as int) * 256 + d as int
  }

  /** The n bytes at i as a big-endian number; 0 where there are none. */
  function At(b: seq<byte>, i: nat, n: nat): nat
  {
    if i + n <= |b| then BE(b[i..i + n]) else 0
  }

  // ----- the fields of the boxes -----

  /** tfhd: track id at 4, then what the flags announce. */
  function TfhdFrom(b: seq<byte>, p: Parse): Parse
  {
    var f := At(b, 1, 3);
    var index := 8 + (if f % 2 == 1 then 8 else 0);
    var duration := index + (if f / 2 % 2 == 1 then 4 else 0);
    var size := duration + (if f / 8 % 2 == 1 then 4 else 0);
    var more := size + (if f / 16 % 2 == 1 then 4 else 0);
    p.(baseDataOffset := if f % 2 == 1 then At(b, 8, 8) else p.baseDataOffset,
       descriptionIndex := if f / 2 % 2 == 1 then At(b, index, 4) else p.descriptionIndex,
       defaultDuration := if f / 8 % 2 == 1 then At(b, duration, 4) else p.defaultDuration,
       defaultSize := if f / 16 % 2 == 1 then At(b, size, 4) else p.defaultSize,
       defaultFlags := if f / 32 % 2 == 1 then At(b, more, 4) else p.defaultFlags)
  }

  /** The sample loop: n rows from r on, the sample data at ptr, the time at dts. */
  function ReadRows(b: seq<byte>, r: nat, n: nat, f: nat, ptr: int, dts: nat, p: Parse): seq<Sample>
    decreases n
  {
    if n == 0 then []
    else
      var size := r + (if f / 0x100 % 2 == 1 then 4 else 0);
      var offset := size + (if f / 0x200 % 2 == 1 then 4 else 0) + (if f / 0x400 % 2 == 1 then 4 else 0);
      var next := offset + (if f / 0x800 % 2 == 1 then 4 else 0);
      var length := if f / 0x200 % 2 == 1 then At(b, size, 4) else p.defaultSize;
      var time := if f / 0x100 % 2 == 1 then At(b, r, 4) else p.defaultDuration;
      var shift := if f / 0x800 % 2 == 1 then Signed32(At(b, offset, 4)) else 0;
      [Sample(ptr, length, dts % TWO64, (dts + shift) % TWO64, if f / 0x100 % 2 == 1 then time else 0, p.timescale)] +
      ReadRows(b, next, n - 1, f, ptr + length, dts + time, p)
  }

  /** Bytes of one row, four for each column the flags announce. */
  function RowWidth(f: nat): nat
  {
    4 * (f / 0x100 % 2) + 4 * (f / 0x200 % 2) + 4 * (f / 0x400 % 2) + 4 * (f / 0x800 % 2)
  }

  /** Where row i of a track run begins, behind the optional data offset and first sample flags. */
  function RowStart(f: nat, i: nat): nat
  {
    8 + 4 * (f % 2) + 4 * (f / 4 % 2) + i * RowWidth(f)
  }

  /** The words at r, r + w, ..., n of them, added up. */
  function ColumnSum(b: seq<byte>, r: nat, w: nat, n: nat): nat
    decreases n
  {
    if n == 0 then 0 else At(b, r, 4) + ColumnSum(b, r + w, w, n - 1)
  }

  /** trun: count at 4, data offset at 8, first sample flags at 12 if announced, then the rows. */
  function TrunFrom(b: seq<byte>, p: Parse): Parse
  {
    var f := At(b, 1, 3);
    var start := if f / 4 % 2 == 1 then 16 else 12;
    p.(samples := p.samples +
         ReadRows(b, start, At(b, 4, 4), f, p.moof + Signed32(At(b, 8, 4)), p.baseMediaDecodeTime, p))
  }

  function ReadLeaf(kind: nat, b: seq<byte>, p: Parse): Parse
  {
    var wide := At(b, 0, 1) == 1;
    if kind == Name('t', 'f', 'h', 'd') then TfhdFrom(b, p)
    else if kind == Name('t', 'r', 'u', 'n') then TrunFrom(b, p)
    else if kind == Name('t', 'f', 'd', 't') then p.(baseMediaDecodeTime := At(b, 4, if wide then 8 else 4))
    else if kind == Name('m', 'v', 'h', 'd') || kind == Name('m', 'd', 'h', 'd') then
      p.(timescale := At(b, if wide then 20 else 12, 4))
    else if kind == Name('t', 'r', 'e', 'x') then
      p.(descriptionIndex := At(b, 8, 4), defaultDuration := At(b, 12, 4), defaultSize := At(b, 16, 4),
         defaultFlags := At(b, 20, 4))
    else p
  }

  // ----- the walk -----

  /** Where the children of a container begin, counted from the start of the box; 0 for a box without children. */
  function ChildrenFrom(kind: nat): nat
  {
    if kind == Name('m', 'o', 'o', 'f') || kind == Name('t', 'r', 'a', 'f') || kind == Name('m', 'o', 'o', 'v') ||
       kind == Name('t', 'r', 'a', 'k') || kind == Name('m', 'i', 'n', 'f') || kind == Name('d', 'i', 'n', 'f') ||
       kind == Name('m', 'v', 'e', 'x') || kind == Name('m', 'd', 'i', 'a') || kind == Name('s', 't', 'b', 'l') then 8
    else if kind == Name('s', 't', 's', 'd') then 16
    else if kind == Name('h', 'e', 'v', '1') || kind == Name('h', 'v', 'c', '1') || kind == Name('a', 'v', 'c', '1') then 86
    else if kind == Name('m', 'p', '4', 'a') || kind == Name('e', 'c', '-', '3') then 36
    else 0
  }

  /** What the demuxer has read after the bytes s, which start at offset at of its buffer. */
  function ReadMedia(s: seq<byte>, at: int, p: Parse): Parse
    decreases |s|
  {
    var n := At(s, 0, 4);
    if n < 8 || n > |s| then p
    else
      var kind := At(s, 4, 4);
      var from := ChildrenFrom(kind);
      var q :=
        if 0 < from <= n then
          ReadMedia(s[from..n], at + from, if kind == Name('m', 'o', 'o', 'f') then p.(moof := at) else p)
        else ReadLeaf(kind, s[8..n], p);
      ReadMedia(s[n..], at + n, q)
  }

  /** The bytes s with the decode time moved, and the time the walk reports: 0 if it has found none, or found 0. */
  function Moved(s: seq<byte>, delta: int): (r: (seq<byte>, nat))
    decreases |s|
  {
    var n := At(s, 0, 4);
    if n < 8 || n > |s| then (s, 0)
    else
      var kind := At(s, 4, 4);
      if kind == Name('t', 'f', 'd', 't') then
        var w := if At(s, 8, 1) == 1 then 8 else 4;
        var time := (At(s, 12, w) + delta) % TWO64;
        (if 12 + w <= |s| then s[..12] + ToBE(time, w) + s[12 + w..] else s, time)
      else
        var inner := if ChildrenFrom(kind) == 8 then Moved(s[8..n], delta) else (s[8..n], 0);
        if inner.1 != 0 then (s[..8] + inner.0 + s[n..], inner.1)
        else
          var rest := Moved(s[n..], delta);
          (s[..8] + inner.0 + rest.0, rest.1)
  }
}
