/**
 base64_URL_Encode and base64_URL_Decode of PlayerUtils: RFC 4648 section 5 without padding, by rewriting
 the characters of a C string.
 */
module Base64Url {
  import opened Bytes
  import opened Base64
  import opened Base64Laws
  import opened Wrappers

  const PLUS: byte := 0x2b
  const SLASH: byte := 0x2f
  const MINUS: byte := 0x2d
  const UNDERSCORE: byte := 0x5f

  function ToUrl(c: byte): byte
  {
    if c == PLUS then MINUS else if c == SLASH then UNDERSCORE else if c == PAD then 0 else c
  }

  function FromUrl(c: byte): byte
  {
    if c == UNDERSCORE then SLASH else if c == MINUS then PLUS else c
  }

  function MapTo(s: seq<byte>): (t: seq<byte>)
    ensures |t| == |s| && forall i :: 0 <= i < |s| ==> t[i] == ToUrl(s[i])
  {
    seq(|s|, i requires 0 <= i < |s| => ToUrl(s[i]))
  }

  function MapFrom(s: seq<byte>): (t: seq<byte>)
    ensures |t| == |s| && forall i :: 0 <= i < |s| ==> t[i] == FromUrl(s[i])
  {
    seq(|s|, i requires 0 <= i < |s| => FromUrl(s[i]))
  }

  /** The C string at the front of s: what comes before the first 0. */
  function CString(s: seq<byte>): (t: seq<byte>)
    ensures t <= s && (forall i :: 0 <= i < |t| ==> t[i] != 0) && (|t| < |s| ==> s[|t|] == 0)
  {
    if s == [] || s[0] == 0 then [] else [s[0]] + CString(s[1..])
  }

  lemma {:induction false} CStringOf(t: seq<byte>, rest: seq<byte>)
    requires (forall i :: 0 <= i < |t| ==> t[i] != 0) && (rest == [] || rest[0] == 0)
    ensures CString(t + rest) == t
  {
    if t == [] {
      assert t + rest == rest;
    } else {
      CStringOf(t[1..], rest);
      assert (t + rest)[1..] == t[1..] + rest;
    }
  }

  // ----- the code -----

  method base64_URL_Encode(src: seq<byte>) returns (rc: array<byte>)
    requires |src| < TWO31
    ensures fresh(rc) && rc[..] == MapTo(Encoded(src)) + [0] && CString(rc[..]) == MapTo(AllLetters(src))
  {
    hide Encoded, AllLetters, ToUrl;
    rc := base64_Encode(src);
    ghost var text := Encoded(src);
    EncodedLength(src);
    NoZero(src);
    var dst := 0;
    while rc[dst] != 0
      invariant dst < rc.Length == |text| + 1 && rc[|text|] == 0
      invariant forall k :: 0 <= k < |text| ==> rc[k] == if k < dst then ToUrl(text[k]) else text[k]
      decreases rc.Length - dst
    {
      rc[dst] := ToUrl(rc[dst]);
      dst := dst + 1;
    }
    assert rc[..] == MapTo(text) + [0];
    EncodedCString(src);
  }

  /** strlen */
  method StrLen(s: array<byte>) returns (n: nat)
    requires exists i :: 0 <= i < s.Length && s[i] == 0
    ensures n == |CString(s[..])| < s.Length && s[..n] == CString(s[..])
  {
    n := 0;
    while s[n] != 0
      invariant n < s.Length && forall i :: 0 <= i < n ==> s[i] != 0
      invariant exists i :: n <= i < s.Length && s[i] == 0
      decreases s.Length - n
    {
      n := n + 1;
    }
    CStringOf(s[..n], s[n..]);
    assert s[..] == s[..n] + s[n..];
  }

  /** The decoder on src[..srcLen]; None when a character before the first 0 is outside its table. */
  method base64_URL_Decode(src: seq<byte>, srcLen: nat) returns (rc: Option<array<byte>>, len: nat)
    requires srcLen <= |src|
    ensures var text := Stripped(MapFrom(CString(src[..srcLen])));
            (rc.None? <==> !Valid(text)) && (rc.None? ==> len == 0) &&
            (rc.Some? ==> len <= rc.value.Length && rc.value[..len] == Decoded(text))
  {
    hide Decoded, Stripped, Digit, Valid, CString, FromUrl;
    var temp := new byte[srcLen + 3];
    temp[srcLen + 2] := 0;
    temp[srcLen + 1] := PAD;
    temp[srcLen] := PAD;
    for iter := 0 to srcLen
      invariant temp[srcLen] == PAD && temp[srcLen + 1] == PAD && temp[srcLen + 2] == 0
      invariant forall k :: 0 <= k < iter ==> temp[k] == FromUrl(src[k])
    {
      temp[iter] := FromUrl(src[iter]);
    }
    var n := StrLen(temp);
    assert temp[..] == MapFrom(src[..srcLen]) + [PAD, PAD, 0];
    TempText(src[..srcLen]);
    rc, len := base64_Decode(temp[..], n);
  }

  lemma {:induction false} StripTwo(t: seq<byte>)
    ensures Stripped(t + [PAD, PAD]) == Stripped(t)
  {
    assert (t + [PAD, PAD])[..|t| + 1] == t + [PAD] && (t + [PAD])[..|t|] == t;
    assert Stripped(t + [PAD]) == Stripped(t);
  }

  /** The appended == changes nothing: either it is cut off with what follows a 0, or it is stripped again. */
  lemma {:induction false} TempText(s: seq<byte>)
    ensures Stripped(CString(MapFrom(s) + [PAD, PAD, 0])) == Stripped(MapFrom(CString(s)))
  {
    hide Stripped;
    var c := CString(s);
    var m := MapFrom(c);
    if |c| < |s| {
      assert MapFrom(s) + [PAD, PAD, 0] == m + (MapFrom(s)[|c|..] + [PAD, PAD, 0]);
      CStringOf(m, MapFrom(s)[|c|..] + [PAD, PAD, 0]);
    } else {
      assert MapFrom(s) + [PAD, PAD, 0] == (m + [PAD, PAD]) + [0];
      CStringOf(m + [PAD, PAD], [0]);
      StripTwo(m);
    }
  }

  // ----- round trip -----

  lemma {:induction false} LetterBytes(s: seq<byte>)
    ensures forall i :: 0 <= i < |AllLetters(s)| ==>
              AllLetters(s)[i] !in {0, PAD, MINUS, UNDERSCORE}
    decreases |s|
  {
    if s != [] {
      LetterBytes(Tail(s));
    }
  }

  lemma {:induction false} NoZero(s: seq<byte>)
    ensures forall i :: 0 <= i < |Encoded(s)| ==> Encoded(s)[i] != 0
  {
    LetterBytes(s);
    EncodedForm(s);
  }

  lemma {:induction false} EncodedCString(s: seq<byte>)
    ensures CString(MapTo(Encoded(s)) + [0]) == MapTo(AllLetters(s))
  {
    hide Encoded, AllLetters;
    LetterBytes(s);
    EncodedForm(s);
    var t, p := MapTo(AllLetters(s)), Padding(Pads(|s|));
    assert MapTo(Encoded(s)) + [0] == t + (MapTo(p) + [0]);
    CStringOf(t, MapTo(p) + [0]);
  }

  /** Decoding a URL encoding, as the C string it is, gives the bytes back. */
  lemma {:induction false} UrlRoundTrip(s: seq<byte>)
    ensures var text := Stripped(MapFrom(CString(MapTo(AllLetters(s)))));
            Valid(text) && Decoded(text) == s
  {
    hide AllLetters, Decoded;
    LetterBytes(s);
    var t := MapTo(AllLetters(s));
    CStringOf(t, []);
    assert t + [] == t;
    assert MapFrom(t) == AllLetters(s);
    RoundTrip(s);
    EncodedForm(s);
    StrippedPadding(AllLetters(s), 0);
    assert AllLetters(s) + Padding(0) == AllLetters(s);
  }

  method UrlEncodeThenDecode(src: seq<byte>) returns (back: seq<byte>)
    requires |src| < TWO31
    ensures back == src
  {
    hide Encoded, Decoded, Stripped, Valid, AllLetters, CString, MapTo, MapFrom;
    var rc := base64_URL_Encode(src);
    assert rc[..][|Encoded(src)|] == 0;
    var n := StrLen(rc);
    UrlRoundTrip(src);
    var out, len := base64_URL_Decode(rc[..n], n);
    assert rc[..n][..n] == rc[..n];
    CStringOf(rc[..n], []);
    assert rc[..n] + [] == rc[..n];
    back := out.value[..len];
  }

  // ----- character by character -----

  /** The URL-safe alphabet of RFC 4648 section 5. */
  function UrlAlphabet(): string
  {
    Upper() + Lower() + "0123456789-_"
  }

  lemma {:induction false} UrlLetter(d: int)
    requires 0 <= d < 64
    ensures |UrlAlphabet()| == 64 && ToUrl(Letter(d)) as int == UrlAlphabet()[d] as int && FromUrl(ToUrl(Letter(d))) == Letter(d)
  {
    hide Upper, Lower;
    UpperAt(if d < 26 then d else 0);
    LowerAt(if 26 <= d < 52 then d - 26 else 0);
    var rest := "0123456789-_";
    assert UrlAlphabet()[d] == if d < 26 then Upper()[d] else if d < 52 then Lower()[d - 26] else rest[d - 52];
    UrlRestAt(if d < 52 then 0 else d - 52);
  }

  lemma UrlRestAt(i: nat)
    requires i < 12
    ensures "0123456789-_"[i] as int == if i < 10 then 0x30 + i else if i == 10 then 0x2d else 0x5f
  {
  }

  /** The URL encoding of n bytes is ceil(4 n / 3) characters of that alphabet, character c for bits 6 c to 6 c + 5. */
  lemma {:induction false} UrlCharacter(s: seq<byte>, c: nat)
    requires c < (4 * |s| + 2) / 3
    ensures |MapTo(AllLetters(s))| == (4 * |s| + 2) / 3 && Sextet(s, c) < 64 && |UrlAlphabet()| == 64
    ensures MapTo(AllLetters(s))[c] as int == UrlAlphabet()[Sextet(s, c)] as int
  {
    hide Encoded, AllLetters, Sextet, UrlAlphabet, ToUrl, Letter;
    EncodedForm(s);
    EncodedLength(s);
    LetterCount(|s|);
    EncodedCharacter(s, c);
    UrlLetter(Sextet(s, c));
  }

  lemma LetterCount(n: nat)
    ensures (n + 2) / 3 * 4 - Pads(n) == (4 * n + 2) / 3 <= (n + 2) / 3 * 4
  {
    var q := n / 3;
    assert n == 3 * q || n == 3 * q + 1 || n == 3 * q + 2;
  }

  /** What the decoder takes a character for: its place in the alphabet; besides, + for 62, / for 63 and an inner = for 0. */
  lemma {:induction false} UrlDigitTable(c: byte, d: int)
    requires 0 <= d < 64
    ensures |UrlAlphabet()| == 64
    ensures Digit(FromUrl(c)) == d <==>
            c as int == UrlAlphabet()[d] as int || (c == 0x2b && d == 62) || (c == 0x2f && d == 63) || (c == 0x3d && d == 0)
  {
    hide UrlAlphabet;
    UrlLetter(d);
  }
}
