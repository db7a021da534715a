/**
 Round trips of the two base64 alphabets, and the URL codecs of PlayerUtils.
 */
module Base64Laws {
  import opened Bytes
  import opened Base64

  // ----- what one group spells -----

  /** The letters of the first one to three bytes, without padding. */
  function Letters(s: seq<byte>): (q: seq<byte>)
    requires s != []
    ensures |q| == if |s| < 3 then |s| + 1 else 4
  {
    Quad(s)[..if |s| < 3 then |s| + 1 else 4]
  }

  function Padding(n: nat): (p: seq<byte>)
    ensures |p| == n && forall i :: 0 <= i < n ==> p[i] == PAD
  {
    seq(n, i => PAD)
  }

  lemma {:induction false} SixDigits(temp: int)
    requires 0 <= temp < 0x100_0000
    ensures Six(temp, 0) * 0x4_0000 + Six(temp, 1) * 0x1000 + Six(temp, 2) * 64 + Six(temp, 3) == temp
  {
    var q1 := temp / 64;
    var q2 := q1 / 64;
    var q3 := q2 / 64;
    DivModUnique(temp, 0x1000, q2, q1 % 64 * 64 + temp % 64);
    DivModUnique(temp, 0x4_0000, q3, q2 % 64 * 0x1000 + q1 % 64 * 64 + temp % 64);
  }

  lemma Times64(k: int)
    ensures 64 * k / 64 == k && 64 * k % 64 == 0
  {
  }

  lemma LowZeros(a: int, b: int)
    requires 0 <= a < 256 && 0 <= b < 256
    ensures Six(Word24(a, 0, 0), 2) == 0 && Six(Word24(a, 0, 0), 3) == 0 && Six(Word24(a, b, 0), 3) == 0
  {
    Times64(a * 0x400);
    Times64(a * 0x10);
    Times64(a * 0x400 + b * 4);
    assert Word24(a, 0, 0) == 64 * (a * 0x400) && a * 0x400 == 64 * (a * 0x10);
    assert Word24(a, b, 0) == 64 * (a * 0x400 + b * 4);
  }

  lemma WordOctets(a: byte, b: byte, c: byte, n: nat)
    requires 1 <= n <= 3
    ensures var temp := Word24(a, b, c); temp >= 0 && Octets(temp, n + 1) == [a, b, c][..n]
  {
    WordParts(a, b, c);
  }

  lemma WordParts(a: int, b: int, c: int)
    requires 0 <= a < 256 && 0 <= b < 256 && 0 <= c < 256
    ensures var temp := Word24(a, b, c); temp / 0x1_0000 % 256 == a && temp / 0x100 % 256 == b && temp % 256 == c
  {
    var temp := Word24(a, b, c);
    DivModUnique(temp, 0x1_0000, a, b * 256 + c);
    DivModUnique(temp, 256, a * 256 + b, c);
    DivModUnique(a * 256 + b, 256, a, b);
  }

  lemma Value4(d0: int, d1: int, d2: int, d3: int, k: nat)
    requires 0 <= d0 < 64 && 0 <= d1 < 64 && 0 <= d2 < 64 && 0 <= d3 < 64 && 2 <= k <= 4
    requires (k < 3 ==> d2 == 0) && (k < 4 ==> d3 == 0)
    ensures var q := [Letter(d0), Letter(d1), Letter(d2), Letter(d3)][..k];
            Valid(q) && Value(q, 4) == d0 * 0x4_0000 + d1 * 0x1000 + d2 * 64 + d3
  {
    hide Letter, Digit;
    DigitOfLetter(d0);
    DigitOfLetter(d1);
    DigitOfLetter(d2);
    DigitOfLetter(d3);
    var all := [Letter(d0), Letter(d1), Letter(d2), Letter(d3)];
    var q := all[..k];
    var q2, q1 := all[..2], all[..1];
    assert q2[..1] == q1 && q1[..0] == [];
    assert Value(q1, 1) == d0 && Value(q2, 2) == d0 * 64 + d1;
    if k == 2 {
      assert q == q2;
      assert Value(q2, 3) == Value(q2, 2) * 64;
    } else {
      var q3 := all[..3];
      assert q3[..2] == q2 && Value(q3, 3) == Value(q2, 2) * 64 + d2;
      if k == 3 {
        assert q == q3;
      } else {
        assert q == all && all[..3] == q3;
      }
    }
  }

  /** The letters of a group spell the 24-bit word of its bytes, and decode to them. */
  lemma {:induction false} GroupRoundTrip(s: seq<byte>)
    requires s != []
    ensures var n := if |s| < 3 then |s| else 3;
            var temp := Word24(s[0], if n > 1 then s[1] else 0, if n > 2 then s[2] else 0);
            Valid(Letters(s)) && Value(Letters(s), 4) == temp && GroupBytes(Letters(s)) == s[..n]
  {
    hide Letter, Six, Value, Digit, Valid, Octets, Word24;
    var n := if |s| < 3 then |s| else 3;
    var a: byte, b: byte, c: byte := s[0], if n > 1 then s[1] else 0, if n > 2 then s[2] else 0;
    var temp := Word24(a, b, c);
    WordOctets(a, b, c, n);
    assert s[..n] == [a, b, c][..n];
    WordBelow(a, b, c);
    SixDigits(temp);
    LowZeros(a, b);
    Value4(Six(temp, 0), Six(temp, 1), Six(temp, 2), Six(temp, 3), n + 1);
    assert Letters(s) == [Letter(Six(temp, 0)), Letter(Six(temp, 1)), Letter(Six(temp, 2)), Letter(Six(temp, 3))][..n + 1];
  }

  lemma WordBelow(a: byte, b: byte, c: byte)
    ensures 0 <= Word24(a, b, c) < 0x100_0000
  {
  }

  // ----- whole strings -----

  /** The encoding without its padding. */
  function AllLetters(s: seq<byte>): seq<byte>
    decreases |s|
  {
    if s == [] then [] else Letters(s) + AllLetters(Tail(s))
  }

  lemma QuadPadding(s: seq<byte>)
    requires s != []
    ensures Quad(s) == Letters(s) + Padding(4 - |Letters(s)|) && Letters(s)[|Letters(s)| - 1] != PAD
  {
    hide Letter, Six;
  }

  /** How many padding characters close the encoding of n bytes. */
  function Pads(n: nat): nat
  {
    (3 - n % 3) % 3
  }

  lemma PadsStep(n: nat)
    ensures n >= 3 ==> Pads(n - 3) == Pads(n)
    ensures Pads(0) == 0 && Pads(1) == 2 && Pads(2) == 1
  {
  }

  /** Only the last group is padded. */
  lemma {:induction false} EncodedForm(s: seq<byte>)
    ensures Encoded(s) == AllLetters(s) + Padding(Pads(|s|))
    ensures s != [] ==> AllLetters(s) != [] && AllLetters(s)[|AllLetters(s)| - 1] != PAD
    decreases |s|
  {
    hide Quad, Letters, Pads;
    PadsStep(|s|);
    if s != [] {
      EncodedForm(Tail(s));
      QuadPadding(s);
      if |s| < 3 {
        assert Tail(s) == [];
      } else {
        assert Padding(0) == [];
      }
    }
  }

  lemma {:induction false} StrippedPadding(t: seq<byte>, p: nat)
    requires t == [] || t[|t| - 1] != PAD
    ensures Stripped(t + Padding(p)) == t
    decreases p
  {
    var s := t + Padding(p);
    if p > 0 {
      assert s[..|s| - 1] == t + Padding(p - 1);
      StrippedPadding(t, p - 1);
    } else {
      assert s == t;
    }
  }

  /** Decoding an encoding gives the bytes back. */
  lemma {:induction false} RoundTrip(s: seq<byte>)
    ensures Stripped(Encoded(s)) == AllLetters(s)
    ensures Valid(AllLetters(s)) && Decoded(AllLetters(s)) == s
    decreases |s|
  {
    EncodedForm(s);
    StrippedPadding(AllLetters(s), Pads(|s|));
    LettersRoundTrip(s);
  }

  lemma {:induction false} LettersRoundTrip(s: seq<byte>)
    ensures Valid(AllLetters(s)) && Decoded(AllLetters(s)) == s
    decreases |s|
  {
    hide GroupBytes, Letters, Digit, Value;
    if s != [] {
      var all, rest, first := AllLetters(s), AllLetters(Tail(s)), Letters(s);
      LettersRoundTrip(Tail(s));
      GroupRoundTrip(s);
      assert all == first + rest;
      if |s| < 3 {
        assert rest == [];
      }
      assert FirstGroup(all) == |first| && all[..|first|] == first && all[|first|..] == rest;
      DecodedStep(all);
      assert s == s[..if |s| < 3 then |s| else 3] + Tail(s);
    }
  }

  /** RFC 4648: characters 4 * i to 4 * i + 3 spell bytes 3 * i to 3 * i + 2. */
  lemma {:induction false} EncodedGroup(s: seq<byte>, i: nat)
    requires 3 * i < |s|
    ensures |Encoded(s)| >= 4 * i + 4 && Encoded(s)[4 * i..4 * i + 4] == Quad(s[3 * i..])
    ensures var g := s[3 * i..];
            Valid(Letters(g)) &&
            Value(Letters(g), 4) == Word24(g[0], if |g| > 1 then g[1] else 0, if |g| > 2 then g[2] else 0)
    decreases i
  {
    hide Quad, Letters, Valid, Value, Word24, Encoded;
    GroupRoundTrip(s[3 * i..]);
    EncodedStep(s);
    if i == 0 {
      assert s[0..] == s;
    } else {
      EncodedGroup(Tail(s), i - 1);
      assert Tail(s)[3 * (i - 1)..] == s[3 * i..];
      assert Encoded(s)[4 * i..4 * i + 4] == Encoded(Tail(s))[4 * (i - 1)..4 * (i - 1) + 4];
    }
  }

  method EncodeThenDecode(src: seq<byte>) returns (back: seq<byte>)
    requires |src| < TWO31
    ensures back == src
  {
    hide Encoded, Decoded, Stripped, Valid, AllLetters;
    var rc := base64_Encode(src);
    RoundTrip(src);
    EncodedLength(src);
    ghost var text := Encoded(src);
    assert rc[..][..rc.Length - 1] == text;
    var out, n := base64_Decode(rc[..], rc.Length - 1);
    back := out.value[..n];
  }

  // ----- character by character -----

  /** Byte j, and 0 behind the end. */
  function OctetAt(s: seq<byte>, j: nat): byte
  {
    if j < |s| then s[j] else 0
  }

  /** Bits 6 * c to 6 * c + 5 of s, the most significant first. */
  function Sextet(s: seq<byte>, c: nat): nat
  {
    var k := c / 4 * 3;
    match c % 4
    case 0 => OctetAt(s, k) / 4
    case 1 => OctetAt(s, k) % 4 * 16 + OctetAt(s, k + 1) / 16
    case 2 => OctetAt(s, k + 1) % 16 * 4 + OctetAt(s, k + 2) / 64
    case _ => OctetAt(s, k + 2) % 64
  }

  lemma {:induction false} SixOfWord(a: int, b: int, c: int)
    requires 0 <= a < 256 && 0 <= b < 256 && 0 <= c < 256
    ensures var temp := Word24(a, b, c);
            Six(temp, 0) == a / 4 && Six(temp, 1) == a % 4 * 16 + b / 16 &&
            Six(temp, 2) == b % 16 * 4 + c / 64 && Six(temp, 3) == c % 64
  {
    var temp := Word24(a, b, c);
    DivModUnique(temp, 0x4_0000, a / 4, a % 4 * 0x1_0000 + b * 256 + c);
    DivModUnique(temp, 0x1000, a * 16 + b / 16, b % 16 * 256 + c);
    DivModUnique(a * 16 + b / 16, 64, a / 4, a % 4 * 16 + b / 16);
    DivModUnique(temp, 64, a * 1024 + b * 4 + c / 64, c % 64);
    DivModUnique(a * 1024 + b * 4 + c / 64, 64, a * 16 + b / 16, b % 16 * 4 + c / 64);
    DivModUnique(temp, 64, a * 1024 + b * 4 + c / 64, c % 64);
  }

  /** The four characters of one group. */
  lemma {:induction false} QuadCharacters(s: seq<byte>)
    requires s != []
    ensures forall c :: 0 <= c < 4 ==> Sextet(s, c) < 64
    ensures forall c :: 0 <= c < 4 ==> Quad(s)[c] == if c < |s| + 1 then Letter(Sextet(s, c)) else PAD
  {
    hide Letter, Six, Word24;
    SixOfWord(s[0], OctetAt(s, 1), OctetAt(s, 2));
  }

  lemma SextetBehind(s: seq<byte>, c: nat)
    requires |s| >= 3 && c >= 4
    ensures Sextet(s, c) == Sextet(s[3..], c - 4)
  {
    assert c / 4 * 3 == (c - 4) / 4 * 3 + 3;
  }

  /** The encoding of n bytes: ceil(4 n / 3) letters, character c for bits 6 c to 6 c + 5, then = up to a multiple of four. */
  lemma {:induction false} EncodedCharacter(s: seq<byte>, c: nat)
    requires c < (|s| + 2) / 3 * 4
    ensures |Encoded(s)| == (|s| + 2) / 3 * 4 && Sextet(s, c) < 64
    ensures Encoded(s)[c] == if c < (4 * |s| + 2) / 3 then Letter(Sextet(s, c)) else PAD
    decreases |s|
  {
    hide Letter, Sextet, Quad;
    EncodedLength(s);
    EncodedStep(s);
    if c < 4 {
      QuadCharacters(s);
    } else {
      EncodedCharacter(Tail(s), c - 4);
      SextetBehind(s, c);
    }
  }

  /** What four digits, or the two or three of a last group, stand for. */
  lemma {:induction false} GroupOctets(s: seq<byte>)
    requires 2 <= |s| <= 4 && Valid(s)
    ensures |GroupBytes(s)| == |s| - 1 && GroupBytes(s)[0] == Digit(s[0]) * 4 + Digit(s[1]) / 16
    ensures |s| > 2 ==> GroupBytes(s)[1] == Digit(s[1]) % 16 * 16 + Digit(s[2]) / 4
    ensures |s| > 3 ==> GroupBytes(s)[2] == Digit(s[2]) % 4 * 64 + Digit(s[3])
  {
    hide Digit;
    var c := if |s| > 2 then Digit(s[2]) else 0;
    var d := if |s| > 3 then Digit(s[3]) else 0;
    GroupValue(s);
    OctetsOfSextets(Digit(s[0]), Digit(s[1]), c, d);
  }

  lemma {:induction false} GroupValue(s: seq<byte>)
    requires 2 <= |s| <= 4 && Valid(s)
    ensures Value(s, 4) == Digit(s[0]) * 0x4_0000 + Digit(s[1]) * 0x1000 +
                           (if |s| > 2 then Digit(s[2]) * 64 else 0) + (if |s| > 3 then Digit(s[3]) else 0)
  {
    hide Digit;
    var t := s[..2];
    assert t[..1][..0] == [] && t[..1] == [s[0]] && t[1] == s[1];
    assert Value([], 0) == 0;
    assert Value(t[..1], 1) == Digit(s[0]);
    assert Value(t, 2) == Digit(s[0]) * 64 + Digit(s[1]);
    if |s| == 2 {
      assert s == t;
      assert Value(s, 3) == Value(s, 2) * 64;
    } else {
      var u := s[..3];
      assert u[..2] == t && u[2] == s[2];
      assert Value(u, 3) == Value(t, 2) * 64 + Digit(s[2]);
      if |s| == 3 {
        assert s == u;
      } else {
        assert s[..3] == u;
      }
    }
  }

  lemma {:induction false} OctetsOfSextets(a: int, b: int, c: int, d: int)
    requires 0 <= a < 64 && 0 <= b < 64 && 0 <= c < 64 && 0 <= d < 64
    ensures var v := a * 0x4_0000 + b * 0x1000 + c * 64 + d;
            v / 0x1_0000 % 256 == a * 4 + b / 16 && v / 0x100 % 256 == b % 16 * 16 + c / 4 && v % 256 == c % 4 * 64 + d
  {
    var v := a * 0x4_0000 + b * 0x1000 + c * 64 + d;
    DivModUnique(v, 0x1_0000, a * 4 + b / 16, b % 16 * 0x1000 + c * 64 + d);
    DivModUnique(v, 0x100, a * 1024 + b * 16 + c / 4, c % 4 * 64 + d);
    DivModUnique(a * 1024 + b * 16 + c / 4, 256, a * 4 + b / 16, b % 16 * 16 + c / 4);
  }

  /** The bytes that any valid text stands for, encoding or not: group i gives bytes 3 i to 3 i + 2, as many as it can. */
  lemma {:induction false} DecodedByte(s: seq<byte>, i: nat)
    requires Valid(s) && 4 * i + 1 < |s|
    ensures |Decoded(s)| == |s| * 3 / 4
    ensures Decoded(s)[3 * i] == Digit(s[4 * i]) * 4 + Digit(s[4 * i + 1]) / 16
    ensures 4 * i + 2 < |s| ==> Decoded(s)[3 * i + 1] == Digit(s[4 * i + 1]) % 16 * 16 + Digit(s[4 * i + 2]) / 4
    ensures 4 * i + 3 < |s| ==> Decoded(s)[3 * i + 2] == Digit(s[4 * i + 2]) % 4 * 64 + Digit(s[4 * i + 3])
    decreases i
  {
    hide Digit, GroupBytes, Decoded;
    var k := FirstGroup(s);
    DecodedLength(s);
    DecodedStep(s);
    GroupOctets(s[..k]);
    if i > 0 {
      DecodedByte(s[4..], i - 1);
    }
  }
}
