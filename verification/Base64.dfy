/**
 base64_Encode and base64_Decode (RFC 4648 section 4), and the URL variants built on them (section 5).
 Characters are their codes; a C string ends at the first 0.
 */
module Base64 {
  import opened Bytes
  import opened Wrappers

  const PAD: byte := 0x3d

  // ----- the two tables -----

  /** encode[d]: A to Z, a to z, 0 to 9, + and /. */
  function Letter(d: int): (c: byte)
    requires 0 <= d < 64
    ensures c != PAD && c != 0
  {
    if d < 26 then 0x41 + d
    else if d < 52 then 0x61 + d - 26
    else if d < 62 then 0x30 + d - 52
    else if d == 62 then 0x2b
    else 0x2f
  }

  /** decode[c]; -1 for an invalid character. The table also takes - as / and = as A. */
  function Digit(c: byte): (d: int)
    ensures -1 <= d < 64
  {
    if 0x41 <= c <= 0x5a then c as int - 0x41
    else if 0x61 <= c <= 0x7a then c as int - 0x61 + 26
    else if 0x30 <= c <= 0x39 then c as int - 0x30 + 52
    else if c == 0x2b then 62
    else if c == 0x2f || c == 0x2d then 63
    else if c == PAD then 0
    else -1
  }

  lemma DigitOfLetter(d: int)
    requires 0 <= d < 64
    ensures Digit(Letter(d)) == d
  {
  }

  function Alphabet(): string
  {
    Upper() + Lower() + Rest()
  }

  function Upper(): string
  {
    "ABCDEFGHIJKLMNOPQRSTUVWXYZ"
  }

  function Lower(): string
  {
    "abcdefghijklmnopqrstuvwxyz"
  }

  function Rest(): string
  {
    "0123456789+/"
  }

  /** The letters are the alphabet of RFC 4648 section 4. */
  lemma LettersAreAlphabet(d: int)
    requires 0 <= d < 64
    ensures |Alphabet()| == 64 && Letter(d) as int == Alphabet()[d] as int
  {
    hide Upper, Lower, Rest;
    UpperAt(if d < 26 then d else 0);
    LowerAt(if 26 <= d < 52 then d - 26 else 0);
    RestAt(if d < 52 then 0 else d - 52);
    assert Alphabet()[d] == if d < 26 then Upper()[d] else if d < 52 then Lower()[d - 26] else Rest()[d - 52];
  }

  lemma UpperAt(i: nat)
    requires i < 26
    ensures |Upper()| == 26 && Upper()[i] as int == 0x41 + i
  {
  }

  lemma LowerAt(i: nat)
    requires i < 26
    ensures |Lower()| == 26 && Lower()[i] as int == 0x61 + i
  {
  }

  lemma RestAt(i: nat)
    requires i < 12
    ensures |Rest()| == 12 && Rest()[i] as int == if i < 10 then 0x30 + i else if i == 10 then 0x2b else 0x2f
  {
  }

  /** A digit stands for its letter, but for the two characters the table takes besides. */
  lemma {:induction false} DigitTable(c: byte)
    ensures Digit(c) >= 0 <==> c in {0x2d, PAD} || exists d :: 0 <= d < 64 && Letter(d) == c
    ensures Digit(c) >= 0 ==> c == Letter(Digit(c)) || (c == 0x2d && Digit(c) == 63) || (c == PAD && Digit(c) == 0)
  {
    if Digit(c) >= 0 && c !in {0x2d, PAD} {
      assert Letter(Digit(c)) == c;
    }
    if d :| 0 <= d < 64 && Letter(d) == c {
      DigitOfLetter(d);
    }
  }

  // ----- specification -----

  /** The k-th of the four six-bit digits of a 24-bit word, the first the most significant. */
  function Six(temp: int, k: nat): (d: int)
    requires k < 4
    ensures 0 <= d < 64
  {
    (match k case 0 => temp / 0x4_0000 case 1 => temp / 0x1000 case 2 => temp / 64 case _ => temp) % 64
  }

  function Word24(a: int, b: int, c: int): int
  {
    a * 0x1_0000 + b * 0x100 + c
  }

  /** The four characters of the first one to three bytes. */
  function Quad(s: seq<byte>): (q: seq<byte>)
    requires s != []
    ensures |q| == 4
  {
    var n := |s|;
    var temp := Word24(s[0], if n > 1 then s[1] else 0, if n > 2 then s[2] else 0);
    [Letter(Six(temp, 0)), Letter(Six(temp, 1)),
     if n > 1 then Letter(Six(temp, 2)) else PAD, if n > 2 then Letter(Six(temp, 3)) else PAD]
  }

  function Tail(s: seq<byte>): (t: seq<byte>)
    ensures |t| == if |s| < 3 then 0 else |s| - 3
  {
    s[if |s| < 3 then |s| else 3..]
  }

  function Encoded(s: seq<byte>): (t: seq<byte>)
    decreases |s|
  {
    if s == [] then [] else Quad(s) + Encoded(Tail(s))
  }

  /** Without the trailing padding. */
  function Stripped(s: seq<byte>): (t: seq<byte>)
    ensures t <= s && (t == [] || t[|t| - 1] != PAD)
    ensures forall i :: |t| <= i < |s| ==> s[i] == PAD
  {
    if s != [] && s[|s| - 1] == PAD then Stripped(s[..|s| - 1]) else s
  }

  predicate Valid(s: seq<byte>)
  {
    forall i :: 0 <= i < |s| ==> Digit(s[i]) >= 0
  }

  /** The value of k characters in base 64, those missing counting as 0. */
  function Value(s: seq<byte>, k: nat): (v: nat)
    requires |s| <= k && Valid(s)
  {
    if k == 0 then 0
    else if |s| == k then Value(s[..k - 1], k - 1) * 64 + Digit(s[k - 1])
    else Value(s, k - 1) * 64
  }

  /** The bytes that count characters with the value buf stand for: one less than the characters. */
  function Octets(buf: nat, count: nat): (t: seq<byte>)
    requires 1 <= count <= 4
    ensures |t| == count - 1
  {
    var all: seq<byte> := [buf / 0x1_0000 % 256, buf / 0x100 % 256, buf % 256];
    all[..count - 1]
  }

  /** The bytes of one group of one to four characters. */
  function GroupBytes(s: seq<byte>): (t: seq<byte>)
    requires 1 <= |s| <= 4 && Valid(s)
    ensures |t| == |s| - 1
  {
    Octets(Value(s, 4), |s|)
  }

  function FirstGroup(s: seq<byte>): (k: nat)
  {
    if |s| < 4 then |s| else 4
  }

  /** What decoding makes of characters without padding. */
  function Decoded(s: seq<byte>): (t: seq<byte>)
    requires Valid(s)
    decreases |s|
  {
    if s == [] then []
    else
      var k := FirstGroup(s);
      GroupBytes(s[..k]) + Decoded(s[k..])
  }

  // ----- the code -----

  method base64_Encode(src: seq<byte>) returns (rc: array<byte>)
    requires |src| < TWO31
    ensures fresh(rc) && rc.Length == (|src| + 2) / 3 * 4 + 1 && rc[..] == Encoded(src) + [0]
  {
    hide Encoded, Letter, Six, Word24;
    var len := |src|;
    rc := new byte[(len + 2) / 3 * 4 + 1];
    var dst, at, pad := 0, 0, 0;
    var i := 0;
    assert src[0..] == src;
    EncodedLength(src);
    while i < len
      invariant 0 <= i && at == (if i < len then i else len) && (at < len ==> pad == 0)
      invariant dst + |Encoded(src[at..])| == rc.Length - 1
      invariant Encoded(src) == rc[..dst] + Encoded(src[at..])
    {
      ghost var from, before := src[at..], rc[..dst];
      EncodedStep(from);
      EncodedLength(from);
      var b, c := 0, 0;
      var a := src[at];
      at := at + 1;
      if at < len {
        b := src[at];
        at := at + 1;
      } else {
        pad := pad + 1;
      }
      if at < len {
        c := src[at];
        at := at + 1;
      } else {
        pad := pad + 1;
      }
      var temp := Word24(a, b, c);
      PutQuad(rc, dst, temp, pad);
      dst := dst + 4;
      i := i + 3;
      assert src[at..] == Tail(from);
    }
    assert src[at..] == [];
    EncodedStep([]);
    rc[dst] := 0;
    assert rc[..] == rc[..dst] + [0];
  }

  /** The four characters of one turn. */
  method PutQuad(rc: array<byte>, dst: nat, temp: int, pad: nat)
    requires dst + 4 <= rc.Length
    modifies rc
    ensures rc[..dst + 4] == old(rc[..dst]) + [Letter(Six(temp, 0)), Letter(Six(temp, 1)),
                                               if pad >= 2 then PAD else Letter(Six(temp, 2)),
                                               if pad >= 1 then PAD else Letter(Six(temp, 3))]
  {
    hide Letter, Six;
    rc[dst] := Letter(Six(temp, 0));
    rc[dst + 1] := Letter(Six(temp, 1));
    rc[dst + 2] := if pad >= 2 then PAD else Letter(Six(temp, 2));
    rc[dst + 3] := if pad >= 1 then PAD else Letter(Six(temp, 3));
  }

  lemma EncodedStep(s: seq<byte>)
    ensures s == [] ==> Encoded(s) == []
    ensures s != [] ==> Encoded(s) == Quad(s) + Encoded(Tail(s))
  {
    hide Quad, Tail;
  }

  /** The decoder on src[..srcLen]; None when it meets an invalid character. */
  method base64_Decode(src: seq<byte>, srcLen: nat) returns (rc: Option<array<byte>>, outLen: nat)
    requires srcLen <= |src|
    ensures rc.None? <==> !Valid(Stripped(src[..srcLen]))
    ensures rc.None? ==> outLen == 0
    ensures rc.Some? ==> fresh(rc.value) && rc.value.Length == srcLen * 3 / 4 && outLen <= rc.value.Length &&
                         rc.value[..outLen] == Decoded(Stripped(src[..srcLen]))
  {
    hide Decoded, Stripped, Digit, Progress, Valid, Octets;
    outLen := 0;
    var buffer := new byte[srcLen * 3 / 4];
    var end := StripPadding(src, srcLen);
    ghost var s := src[..end];
    var at, dst := 0, 0;
    ghost var done: nat := 0;
    Begin(s);
    assert buffer[..0] == [];
    while at < end
      invariant at <= end && (at < end ==> at == 4 * done && dst == 3 * done) && dst <= buffer.Length
      invariant Progress(s, at, buffer[..dst])
    {
      assert src[at..end] == s[at..];
      var buf, count := ReadGroup(src, at, end);
      if count < 0 {
        Invalid(s, at);
        return None, 0;
      }
      ghost var before, from := buffer[..dst], at;
      at := at + count;
      dst := PutOctets(buffer, dst, buf, count);
      Advance(s, from, at, before, buf);
      done := done + 1;
    }
    Finish(s, buffer[..dst]);
    outLen := dst;
    rc := Some(buffer);
  }

  method PutOctets(buffer: array<byte>, dst: nat, buf: nat, count: nat) returns (next: nat)
    requires 1 <= count <= 4 && dst + count - 1 <= buffer.Length
    modifies buffer
    ensures next == dst + count - 1 && buffer[..next] == old(buffer[..dst]) + Octets(buf, count)
  {
    next := dst;
    if count >= 2 {
      buffer[next] := buf / 0x1_0000 % 256;
      next := next + 1;
    }
    if count >= 3 {
      buffer[next] := buf / 0x100 % 256;
      next := next + 1;
    }
    if count >= 4 {
      buffer[next] := buf % 256;
      next := next + 1;
    }
  }

  /** The characters before at are valid and out is what they stand for. */
  predicate Progress(s: seq<byte>, at: nat, out: seq<byte>)
  {
    at <= |s| && Valid(s[..at]) && (Valid(s) ==> Valid(s[at..]) && Decoded(s) == out + Decoded(s[at..]))
  }

  lemma Begin(s: seq<byte>)
    ensures Progress(s, 0, [])
  {
    assert s[0..] == s;
  }

  lemma Invalid(s: seq<byte>, at: nat)
    requires at < |s| && !Valid(s[at..][..FirstGroup(s[at..])])
    ensures !Valid(s)
  {
  }

  lemma {:induction false} Advance(s: seq<byte>, from: nat, at: nat, out: seq<byte>, buf: nat)
    requires from < |s| && Progress(s, from, out) && at == from + FirstGroup(s[from..])
    requires Valid(s[from..][..FirstGroup(s[from..])]) && buf == Value(s[from..][..FirstGroup(s[from..])], 4)
    ensures Progress(s, at, out + Octets(buf, at - from))
  {
    hide Digit, Octets;
    DecodedStep(s[from..]);
    assert s[from..][at - from..] == s[at..];
    assert s[..at] == s[..from] + s[from..][..at - from];
  }

  lemma Finish(s: seq<byte>, out: seq<byte>)
    requires Progress(s, |s|, out)
    ensures Valid(s) && out == Decoded(s)
  {
    DecodedNone();
    assert s[|s|..] == [] && s[..|s|] == s;
  }

  lemma DecodedNone()
    ensures Decoded([]) == []
  {
  }

  method StripPadding(src: seq<byte>, srcLen: nat) returns (end: nat)
    requires srcLen <= |src|
    ensures end <= srcLen && src[..end] == Stripped(src[..srcLen])
  {
    hide Stripped;
    end := srcLen;
    while end > 0 && src[end - 1] == PAD
      invariant end <= srcLen && Stripped(src[..srcLen]) == Stripped(src[..end])
    {
      StripOne(src[..end]);
      assert src[..end][..end - 1] == src[..end - 1];
      end := end - 1;
    }
    StripNone(src[..end]);
  }

  /** The loop over one group; count is -1 when it meets an invalid character. */
  method ReadGroup(src: seq<byte>, from: nat, fin: nat) returns (buf: nat, count: int)
    requires from < fin <= |src|
    ensures var k := FirstGroup(src[from..fin]);
            var g := src[from..fin][..k];
            if Valid(g) then count == k && buf == Value(g, 4) else count == -1
  {
    hide Digit;
    var at := from;
    buf, count := 0, 0;
    ghost var s := src[from..fin];
    for i := 0 to 4
      invariant count == (if i < |s| then i else |s|) && at == from + count && Valid(s[..count])
      invariant buf == Value(s[..count], i)
    {
      buf := buf * 64;
      if at < fin {
        var c := src[at];
        at := at + 1;
        var digit64 := Digit(c);
        assert c == s[count];
        if digit64 < 0 {
          assert s[..FirstGroup(s)][count] == c;
          return buf, -1;
        }
        buf := buf + digit64;
        assert s[..count + 1][..count] == s[..count];
        count := count + 1;
      }
    }
  }

  lemma {:induction false} DecodedStep(s: seq<byte>)
    requires s != [] && Valid(s[..FirstGroup(s)])
    ensures Valid(s) ==> var k := FirstGroup(s); Valid(s[k..]) && Decoded(s) == GroupBytes(s[..k]) + Decoded(s[k..])
  {
    hide GroupBytes, Digit;
  }

  lemma StripOne(s: seq<byte>)
    requires s != [] && s[|s| - 1] == PAD
    ensures Stripped(s) == Stripped(s[..|s| - 1])
  {
  }

  lemma StripNone(s: seq<byte>)
    requires s == [] || s[|s| - 1] != PAD
    ensures Stripped(s) == s
  {
  }

  lemma {:induction false} EncodedLength(s: seq<byte>)
    ensures |Encoded(s)| == (|s| + 2) / 3 * 4
    decreases |s|
  {
    hide Quad;
    if s != [] {
      EncodedLength(Tail(s));
    }
  }

  lemma {:induction false} DecodedLength(s: seq<byte>)
    requires Valid(s)
    ensures |Decoded(s)| == |s| * 3 / 4
    decreases |s|
  {
    hide GroupBytes, Digit;
    if s != [] {
      DecodedLength(s[FirstGroup(s)..]);
    }
  }
}
