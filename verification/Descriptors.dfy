/**
 The esds part of Mp4Demux: readLen and parseCodecConfigHelper on MPEG-4 descriptors
 (ISO/IEC 14496-1 section 8.3.3 for the expandable lengths).
 */
module Descriptors {
  import opened Bytes

  // ----- expandable lengths -----

  /** How many octets the length at the front of s takes: up to the first with a clear top bit. */
  function LenOctets(s: seq<byte>): (n: nat)
    ensures n <= |s| + 1
  {
    if s == [] || s[0] < 128 then 1 else 1 + LenOctets(s[1..])
  }

  function LenValue(s: seq<byte>): nat
  {
    if s == [] then 0 else LenValue(s[..|s| - 1]) * 128 + s[|s| - 1] % 128
  }

  function Pow128(n: nat): (p: nat)
    ensures p >= 1
  {
    if n == 0 then 1 else 128 * Pow128(n - 1)
  }

  /** k octets with the top bit set. */
  function Continued(v: nat, k: nat): (s: seq<byte>)
    ensures |s| == k && forall i :: 0 <= i < k ==> s[i] >= 128
    decreases k
  {
    if k == 0 then [] else Continued(v / 128, k - 1) + [v % 128 + 128]
  }

  /** The length v in k octets. */
  function PrintLen(v: nat, k: nat): (s: seq<byte>)
    requires k >= 1
    ensures |s| == k
  {
    Continued(v / 128, k - 1) + [v % 128]
  }

  lemma {:induction false} ContinuedValue(v: nat, k: nat)
    requires v < Pow128(k)
    ensures LenValue(Continued(v, k)) == v
    decreases k
  {
    if k > 0 {
      ContinuedValue(v / 128, k - 1);
      var s := Continued(v, k);
      assert s[..k - 1] == Continued(v / 128, k - 1) && s[k - 1] == v % 128 + 128;
    }
  }

  lemma {:induction false} OctetsOf(s: seq<byte>, last: byte, rest: seq<byte>)
    requires (forall i :: 0 <= i < |s| ==> s[i] >= 128) && last < 128
    ensures LenOctets(s + [last] + rest) == |s| + 1
  {
    var t := s + [last] + rest;
    if s != [] {
      OctetsOf(s[1..], last, rest);
      assert t[1..] == s[1..] + [last] + rest;
    }
  }

  /** Reading inverts printing, for every number of octets and whatever follows. */
  lemma {:induction false} LenRoundTrip(v: nat, k: nat, rest: seq<byte>)
    requires k >= 1 && v < Pow128(k)
    ensures LenOctets(PrintLen(v, k) + rest) == k && LenValue(PrintLen(v, k)) == v
  {
    var s := PrintLen(v, k);
    OctetsOf(Continued(v / 128, k - 1), v % 128, rest);
    assert v / 128 < Pow128(k - 1) by {
      assert Pow128(k) == 128 * Pow128(k - 1);
    }
    ContinuedValue(v / 128, k - 1);
    assert s[..k - 1] == Continued(v / 128, k - 1) && s[k - 1] == v % 128;
  }

  // ----- descriptors -----

  datatype Descr = Descr(octets: nat, body: Body)

  datatype Body =
    | ES(head: seq<byte>, children: seq<Descr>)
    | DecoderConfig(objectType: byte, streamType: byte, upStream: byte, bufferSize: nat, maxBitrate: nat,
                    avgBitrate: nat, children: seq<Descr>)
    | DecoderSpecific(data: seq<byte>)
    | SLConfig(data: seq<byte>)

  function Tag(b: Body): byte
  {
    match b
    case ES(_, _) => 3
    case DecoderConfig(_, _, _, _, _, _, _) => 4
    case DecoderSpecific(_) => 5
    case SLConfig(_) => 6
  }

  function Front(b: Body): seq<byte>
  {
    match b
    case ES(head, _) => head
    case DecoderConfig(o, s, u, size, max, avg, _) => [o, s, u] + (ToBE(size, 2) + (ToBE(max, 4) + ToBE(avg, 4)))
    case DecoderSpecific(data) => data
    case SLConfig(data) => data
  }

  predicate Nests(b: Body)
  {
    b.ES? || b.DecoderConfig?
  }

  function Children(b: Body): seq<Descr>
  {
    if Nests(b) then b.children else []
  }

  function Payload(b: Body): seq<byte>
    decreases b, 0
  {
    Front(b) + (if Nests(b) then Print(b.children) else [])
  }

  function PrintOne(d: Descr): seq<byte>
    decreases d, 1
  {
    [Tag(d.body)] + PrintLen(|Payload(d.body)|, if d.octets >= 1 then d.octets else 1) + Payload(d.body)
  }

  function Print(ds: seq<Descr>): seq<byte>
    decreases ds, 2
  {
    if ds == [] then [] else PrintOne(ds[0]) + Print(ds[1..])
  }

  /** Lengths that fit their octets and a 32-bit word, and fields that fit their widths. */
  predicate WellFormed(d: Descr)
    decreases d, 1
  {
    d.octets >= 1 && |Payload(d.body)| < Pow128(d.octets) && |Payload(d.body)| < TWO32 && Fields(d.body) &&
    (Nests(d.body) ==> WellFormedAll(d.body.children))
  }

  predicate Fields(b: Body)
  {
    match b
    case ES(head, _) => |head| == 3
    case DecoderConfig(_, _, _, size, max, avg, _) => size < 0x1_0000 && max < TWO32 && avg < TWO32
    case _ => true
  }

  predicate WellFormedAll(ds: seq<Descr>)
    decreases ds, 2
  {
    ds == [] || (WellFormed(ds[0]) && WellFormedAll(ds[1..]))
  }

  /** The fields of info that descriptors set. */
  datatype Info = Info(objectTypeId: nat, streamType: nat, upStream: nat, bufferSize: nat, maxBitrate: nat,
                       avgBitrate: nat, codecData: seq<byte>)

  function OwnFields(b: Body, info: Info): Info
  {
    match b
    case DecoderConfig(o, s, u, size, max, avg, _) => Info(o, s, u, size, max, avg, info.codecData)
    case DecoderSpecific(data) => info.(codecData := data)
    case _ => info
  }

  function FoldOne(d: Descr, info: Info): Info
    decreases d, 0
  {
    if Nests(d.body) then Fold(d.body.children, OwnFields(d.body, info)) else OwnFields(d.body, info)
  }

  /** What a list of descriptors leaves in info: the later one wins, an inner one comes after its parent. */
  function Fold(ds: seq<Descr>, info: Info): Info
    decreases ds, 1
  {
    if ds == [] then info else Fold(ds[1..], FoldOne(ds[0], info))
  }

  lemma PrintEmpty(ds: seq<Descr>)
    ensures ds == [] <==> Print(ds) == []
  {
  }

  // ----- the same, straight on the bytes -----

  /** How many octets a length takes: the first with a clear top bit is its last. */
  lemma {:induction false} LastOctet(s: seq<byte>)
    ensures var n := LenOctets(s);
            n >= 1 && (n <= |s| ==> s[n - 1] < 128) && forall i :: 0 <= i < n - 1 ==> i < |s| && s[i] >= 128
  {
    if s != [] && s[0] >= 128 {
      LastOctet(s[1..]);
      var n := LenOctets(s[1..]);
      assert n <= |s[1..]| ==> s[n] == s[1..][n - 1];
      forall i: nat | i < n
        ensures i < |s| && s[i] >= 128
      {
        assert i > 0 ==> s[i] == s[1..][i - 1];
      }
    }
  }

  /** Seven bits an octet, the first the most significant. */
  lemma {:induction false} LenOfOctets(a: byte, b: byte, c: byte, d: byte)
    ensures LenValue([a]) == a % 128 && LenValue([a, b]) == a % 128 * 0x80 + b % 128
    ensures LenValue([a, b, c]) == a % 128 * 0x4000 + b % 128 * 0x80 + c % 128
    ensures LenValue([a, b, c, d]) == a % 128 * 0x20_0000 + b % 128 * 0x4000 + c % 128 * 0x80 + d % 128
  {
    assert [a][..0] == [] && [a, b][..1] == [a] && [a, b, c][..2] == [a, b] && [a, b, c, d][..3] == [a, b, c];
    assert LenValue([]) == 0;
    assert LenValue([a, b]) == LenValue([a]) * 128 + b % 128;
    assert LenValue([a, b, c]) == LenValue([a, b]) * 128 + c % 128;
  }

  /** What the descriptors in s leave in info: tag, length, and by tag what the bytes behind them are. */
  function ReadDescriptors(s: seq<byte>, info: Info): Info
    decreases |s|
  {
    if s == [] then info
    else
      var from := 1 + LenOctets(s[1..]);
      if from > |s| then info
      else
        var end := from + LenValue(s[1..from]);
        if end > |s| then info
        else
          var after :=
            if s[0] == 0x03 && from + 3 <= end then ReadDescriptors(s[from + 3..end], info)
            else if s[0] == 0x04 && from + 13 <= end then
              ReadDescriptors(s[from + 13..end],
                              Info(s[from], s[from + 1], s[from + 2], BE(s[from + 3..from + 5]), BE(s[from + 5..from + 9]),
                                   BE(s[from + 9..from + 13]), info.codecData))
            else if s[0] == 0x05 then info.(codecData := s[from..end])
            else info;
          ReadDescriptors(s[end..], after)
  }

  lemma {:induction false} FoldIsReading(ds: seq<Descr>, info: Info)
    requires WellFormedAll(ds)
    ensures Fold(ds, info) == ReadDescriptors(Print(ds), info)
    decreases ds
  {
    hide Print, PrintOne, Payload, WellFormed, WellFormedAll, Fields, FoldOne, Fold, LenOctets, LenValue, PrintLen, Tag,
      Front, Children, OwnFields, BE, Nests, Pow128, Continued;
    var s := Print(ds);
    PrintEmpty(ds);
    if ds == [] {
      FoldNone(info);
    } else {
      var b := ds[0].body;
      assert s[0..|s|] == s;
      Header(s, 0, |s|, ds);
      FoldStep(ds, info);
      var from := 1 + LenOctets(s[1..]);
      var end := from + LenValue(s[1..from]);
      assert s[end..|s|] == s[end..];
      ReadOne(s, from, end, ds[0], info);
      FoldIsReading(ds[1..], Fold(Children(b), OwnFields(b, info)));
    }
  }

  /** One descriptor: what the branches of the reading make of its payload. */
  lemma {:induction false} ReadOne(s: seq<byte>, from: nat, end: nat, d: Descr, info: Info)
    requires var b := d.body; Fields(b) && WellFormedAll(Children(b)) && 1 <= from <= end <= |s| && s[0] == Tag(b)
    requires s[from..end] == Front(d.body) + Print(Children(d.body)) && from == 1 + LenOctets(s[1..]) && end == from + LenValue(s[1..from])
    ensures ReadDescriptors(s, info) == ReadDescriptors(s[end..], Fold(Children(d.body), OwnFields(d.body, info)))
    decreases d
  {
    hide Print, WellFormedAll, Fields, Fold, LenOctets, LenValue, Tag, Front, Children, OwnFields, BE;
    var b := d.body;
    BodyParts(b, info);
    TagNumber(b);
    FoldNone(OwnFields(b, info));
    TakeBytes(s, from, end, Front(b), Print(Children(b)));
    if b.ES? {
      FoldIsReading(b.children, info);
    } else if b.DecoderConfig? {
      ConfigFields(s, from, b);
      FoldIsReading(b.children, OwnFields(b, info));
    }
  }

  lemma TagNumber(b: Body)
    ensures Tag(b) == if b.ES? then 3 else if b.DecoderConfig? then 4 else if b.DecoderSpecific? then 5 else 6
  {
  }

  // ----- the code -----

  class CodecConfigParser {
    const buf: seq<byte>
    var ptr: nat
    var info: Info

    constructor (buf: seq<byte>, ptr: nat, info: Info)
      ensures this.buf == buf && this.ptr == ptr && this.info == info
    {
      this.buf := buf;
      this.ptr := ptr;
      this.info := info;
    }

    /** The length in a 32-bit word, from which longer ones lose their top bits. */
    method readLen() returns (rc: nat)
      requires ptr <= |buf| && ptr + LenOctets(buf[ptr..]) <= |buf|
      modifies this`ptr
      ensures ptr == old(ptr) + LenOctets(buf[old(ptr)..]) && rc == LenValue(buf[old(ptr)..ptr]) % TWO32
    {
      hide LenValue;
      rc := 0;
      ghost var from, n := ptr, LenOctets(buf[ptr..]);
      LenValueNone();
      assert buf[ptr..ptr] == [];
      while true
        invariant from <= ptr < from + n <= |buf| && ptr - from + LenOctets(buf[ptr..]) == n
        invariant rc == LenValue(buf[from..ptr]) % TWO32
        decreases from + n - ptr
      {
        var octet := buf[ptr];
        LenValueSnoc(buf, from, ptr);
        assert buf[ptr..][1..] == buf[ptr + 1..];
        ptr := ptr + 1;
        NextOctet(LenValue(buf[from..ptr - 1]), octet % 128);
        rc := rc * 128 % TWO32;
        rc := rc + octet % 128;
        if octet < 128 {
          return;
        }
      }
    }

    method ReadBE(n: nat) returns (v: nat)
      requires ptr + n <= |buf|
      modifies this`ptr
      ensures ptr == old(ptr) + n && v == BE(buf[old(ptr)..ptr])
    {
      v := BE(buf[ptr..ptr + n]);
      ptr := ptr + n;
    }

    /** The fields of DecoderConfigDescriptor. */
    method parseDecoderConfig(ghost b: Body)
      requires b.DecoderConfig? && Fields(b) && ptr + 13 <= |buf| && |Front(b)| == 13
      requires buf[ptr..ptr + |Front(b)|] == Front(b)
      modifies this`ptr, this`info
      ensures ptr == old(ptr) + 13 && info == OwnFields(b, old(info))
    {
      hide BE, Front, Fields;
      ConfigFields(buf, ptr, b);
      var objectType, streamType, upStream := buf[ptr], buf[ptr + 1], buf[ptr + 2];
      ptr := ptr + 3;
      var bufferSize := ReadBE(2);
      var maxBitrate := ReadBE(4);
      var avgBitrate := ReadBE(4);
      info := Info(objectType, streamType, upStream, bufferSize, maxBitrate, avgBitrate, info.codecData);
    }

    method parseCodecConfigHelper(next: nat, ghost ds: seq<Descr>)
      requires ptr <= next <= |buf| && buf[ptr..next] == Print(ds) && WellFormedAll(ds)
      modifies this`ptr, this`info
      ensures ptr == next && info == Fold(ds, old(info)) && info == ReadDescriptors(buf[old(ptr)..next], old(info))
      decreases next - ptr
    {
      hide Print, PrintOne, Payload, WellFormed, WellFormedAll, Fields, FoldOne, Fold, LenOctets, LenValue, PrintLen, Tag,
        Front, Children, OwnFields, BE, Nests, Pow128, Continued, ReadDescriptors;
      FoldIsReading(ds, info);
      ghost var rest := ds;
      while ptr < next
        invariant old(ptr) <= ptr <= next && buf[ptr..next] == Print(rest) && WellFormedAll(rest)
        invariant Fold(rest, info) == Fold(ds, old(info))
        decreases next - ptr
      {
        Header(buf, ptr, next, rest);
        FoldStep(rest, info);
        var tag := buf[ptr];
        ptr := ptr + 1;
        var len := readLen();
        var end := ptr + len;
        parseDescriptor(tag, len, rest[0].body);
        assert ptr == end;
        rest := rest[1..];
      }
      PrintEmpty(rest);
      FoldNone(info);
    }

    /** The switch on the tag: one descriptor of len bytes. */
    method parseDescriptor(tag: byte, len: nat, ghost b: Body)
      requires tag == Tag(b) && Fields(b) && WellFormedAll(Children(b)) && ptr + len <= |buf|
      requires buf[ptr..ptr + len] == Front(b) + Print(Children(b))
      modifies this`ptr, this`info
      ensures ptr == old(ptr) + len && info == Fold(Children(b), OwnFields(b, old(info)))
      decreases len
    {
      hide Print, WellFormedAll, Fields, Fold, Tag, Front, Children, OwnFields, BE;
      ghost var was := info;
      BodyParts(b, was);
      FoldNone(OwnFields(b, was));
      var end := ptr + len;
      TakeBytes(buf, ptr, end, Front(b), Print(Children(b)));
      if tag == 3 {
        ptr := ptr + 3;
        parseCodecConfigHelper(end, b.children);
      } else if tag == 4 {
        parseDecoderConfig(b);
        parseCodecConfigHelper(end, b.children);
      } else if tag == 5 {
        info := info.(codecData := buf[ptr..ptr + len]);
        ptr := ptr + len;
      } else {
        ptr := ptr + len;
      }
    }
  }

  lemma LenValueNone()
    ensures LenValue([]) == 0
  {
  }

  lemma FoldNone(info: Info)
    ensures Fold([], info) == info
  {
  }

  lemma LenValueSnoc(s: seq<byte>, lo: nat, hi: nat)
    requires lo <= hi < |s|
    ensures LenValue(s[lo..hi + 1]) == LenValue(s[lo..hi]) * 128 + s[hi] % 128
  {
    var t := s[lo..hi + 1];
    assert t[..|t| - 1] == s[lo..hi];
  }

  /** A shift of the word by seven leaves room for seven bits, so that setting them is an addition. */
  lemma NextOctet(v: nat, d: nat)
    requires d < 128
    ensures v % TWO32 * 128 % TWO32 + d == (v * 128 + d) % TWO32
  {
    var q, r := v / 0x200_0000, v % 0x200_0000;
    DivModUnique(v * 128 + d, TWO32, q, r * 128 + d);
    DivModUnique(v % TWO32 * 128, TWO32, v % TWO32 / 0x200_0000, r * 128);
  }

  lemma FoldStep(ds: seq<Descr>, info: Info)
    requires ds != []
    ensures Fold(ds, info) == Fold(ds[1..], Fold(Children(ds[0].body), OwnFields(ds[0].body, info)))
  {
    hide OwnFields;
    FoldNone(OwnFields(ds[0].body, info));
  }

  /** What the tag says about a body. */
  lemma BodyParts(b: Body, i: Info)
    ensures Tag(b) == 3 <==> b.ES?
    ensures Tag(b) == 4 <==> b.DecoderConfig?
    ensures Tag(b) == 5 <==> b.DecoderSpecific?
    ensures Children(b) == if b.ES? || b.DecoderConfig? then b.children else []
    ensures b.DecoderSpecific? || b.SLConfig? ==> Front(b) == b.data && Print(Children(b)) == []
    ensures b.ES? && Fields(b) ==> |Front(b)| == 3
    ensures b.DecoderConfig? ==> |Front(b)| == 13
    ensures OwnFields(b, i) ==
            if b.DecoderConfig?
            then Info(b.objectType, b.streamType, b.upStream, b.bufferSize, b.maxBitrate, b.avgBitrate, i.codecData)
            else if b.DecoderSpecific? then i.(codecData := b.data) else i
  {
    hide ToBE;
  }

  /** The first descriptor between at and next: its tag, its length and where it ends. */
  lemma {:induction false} Header(s: seq<byte>, at: nat, next: nat, ds: seq<Descr>)
    requires at < next <= |s| && s[at..next] == Print(ds) && WellFormedAll(ds)
    ensures ds != [] && WellFormedAll(ds[1..]) && Fields(ds[0].body) && WellFormedAll(Children(ds[0].body))
    ensures var d := ds[0];
            var n := LenOctets(s[at + 1..]);
            var from := at + 1 + n;
            var end := from + |Payload(d.body)|;
            s[at] == Tag(d.body) && n == d.octets && from <= end <= next &&
            LenValue(s[at + 1..from]) == |Payload(d.body)| < TWO32 &&
            s[from..end] == Front(d.body) + Print(Children(d.body)) && s[end..next] == Print(ds[1..])
  {
    hide Tag, Fields, Front, LenOctets, LenValue, PrintLen, Pow128;
    PrintEmpty(ds);
    PrintEmpty([]);
    var d := ds[0];
    var len := |Payload(d.body)|;
    var p := PrintLen(len, d.octets);
    TakeBytes(s, at, next, PrintOne(d), Print(ds[1..]));
    var end := at + |PrintOne(d)|;
    assert PrintOne(d) == [Tag(d.body)] + (p + Payload(d.body));
    TakeBytes(s, at, end, [Tag(d.body)], p + Payload(d.body));
    assert s[at..at + 1][0] == s[at];
    TakeBytes(s, at + 1, end, p, Payload(d.body));
    LenRoundTrip(len, d.octets, s[at + 1 + d.octets..]);
    assert s[at + 1..] == p + s[at + 1 + d.octets..] by {
      assert s[at + 1..] == s[at + 1..at + 1 + d.octets] + s[at + 1 + d.octets..];
    }
  }

  /** The thirteen bytes of a decoder configuration. */
  lemma {:induction false} ConfigFields(s: seq<byte>, at: nat, b: Body)
    requires b.DecoderConfig? && Fields(b) && at + 13 <= |s| && s[at..at + |Front(b)|] == Front(b) && |Front(b)| == 13
    ensures s[at] == b.objectType && s[at + 1] == b.streamType && s[at + 2] == b.upStream
    ensures BE(s[at + 3..at + 5]) == b.bufferSize && BE(s[at + 5..at + 9]) == b.maxBitrate
    ensures BE(s[at + 9..at + 13]) == b.avgBitrate
  {
    hide ToBE, BE;
    Widths();
    var head := [b.objectType, b.streamType, b.upStream];
    var tail := ToBE(b.bufferSize, 2) + (ToBE(b.maxBitrate, 4) + ToBE(b.avgBitrate, 4));
    TakeBytes(s, at, at + 13, head, tail);
    assert s[at..at + 3][0] == s[at] && s[at..at + 3][1] == s[at + 1] && s[at..at + 3][2] == s[at + 2];
    TakeField(s, at + 3, at + 13, b.bufferSize, 2, ToBE(b.maxBitrate, 4) + ToBE(b.avgBitrate, 4));
    TakeField(s, at + 5, at + 13, b.maxBitrate, 4, ToBE(b.avgBitrate, 4));
    assert ToBE(b.avgBitrate, 4) + [] == ToBE(b.avgBitrate, 4);
    TakeField(s, at + 9, at + 13, b.avgBitrate, 4, []);
  }
}
