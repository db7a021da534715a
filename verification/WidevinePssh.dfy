/**
 WidevineDrmHelper: the variable-length integers and fields of a version 0 pssh box, and the key id
 list of a version 1 box.
 */
module WidevinePssh {
  import opened Bytes
  import ByteLayout

  // ----- variable-length integers -----

  /** How many octets ParseMultiInt takes of s: up to the first with a clear top bit, or all of them. */
  function MultiIntLength(s: seq<byte>): (n: nat)
    ensures n <= |s| && (s != [] ==> n >= 1)
  {
    if s == [] then 0 else if s[0] < 128 then 1 else 1 + MultiIntLength(s[1..])
  }

  /** Seven bits an octet, the least significant first. */
  function MultiIntValue(s: seq<byte>): nat
  {
    if s == [] then 0 else s[0] % 128 + 128 * MultiIntValue(s[1..])
  }

  function PrintMultiInt(v: nat): (s: seq<byte>)
    ensures s != []
  {
    if v < 128 then [v] else [v % 128 + 128] + PrintMultiInt(v / 128)
  }

  lemma {:induction false} MultiIntRoundTrip(v: nat, rest: seq<byte>)
    ensures var s := PrintMultiInt(v);
            MultiIntLength(s + rest) == |s| && MultiIntValue(s) == v && (s + rest)[..|s|] == s
    decreases v
  {
    var s := PrintMultiInt(v);
    if v >= 128 {
      MultiIntRoundTrip(v / 128, rest);
      assert (s + rest)[1..] == PrintMultiInt(v / 128) + rest;
      assert s[1..] == PrintMultiInt(v / 128);
    } else {
      assert s[1..] == [];
    }
  }

  const TWO35: nat := 0x8_0000_0000

  /** The values that five octets can hold, so that no shift count leaves the int. */
  lemma {:induction false} MultiIntShort(v: nat)
    requires v < TWO35
    ensures |PrintMultiInt(v)| <= 5
  {
    var a := v / 128;
    var b := a / 128;
    var c := b / 128;
    var d := c / 128;
    assert d < 128 && |PrintMultiInt(d)| == 1;
    assert |PrintMultiInt(c)| <= 2;
    assert |PrintMultiInt(b)| <= 3;
    assert |PrintMultiInt(a)| <= 4;
  }

  // ----- fields of a version 0 box -----

  predicate IsNumber(tag: int)
  {
    tag == 0x38 || tag == 0x50 || tag == 0x08 || tag == 0x48
  }

  predicate IsKey(tag: int)
  {
    tag == 0x22 || tag == 0x12
  }

  predicate IsText(tag: int)
  {
    tag == 0x32 || tag == 0x2a || tag == 0x1a
  }

  /** What is left behind the field at the front of s. */
  function Skip(s: seq<byte>): (n: nat)
    requires s != []
    ensures n >= 1
  {
    if IsNumber(s[0]) then 1 + MultiIntLength(s[1..])
    else if (IsKey(s[0]) || IsText(s[0])) && |s| > 1 then 2 + s[1] as int
    else 1
  }

  /** The key id in the field at the front of s: not empty, and inside the box. */
  function KeyOf(s: seq<byte>): (k: seq<seq<byte>>)
    requires s != []
    ensures |k| <= 1
  {
    if IsKey(s[0]) && |s| > 1 && 0 < s[1] && 2 + s[1] as int <= |s| then [s[2..2 + s[1] as int]] else []
  }

  function After(s: seq<byte>): (t: seq<byte>)
    requires s != []
    ensures |t| < |s|
  {
    if Skip(s) < |s| then s[Skip(s)..] else []
  }

  /** The key ids in the fields of s, in order. */
  function Keys(s: seq<byte>): seq<seq<byte>>
    decreases |s|
  {
    if s == [] then [] else KeyOf(s) + Keys(After(s))
  }

  /** The last protection scheme in s, or the one before. */
  function Scheme(s: seq<byte>, scheme: int): int
    decreases |s|
  {
    if s == [] then scheme
    else
      Scheme(After(s), if s[0] == 0x48 then MultiIntValue(s[1..][..MultiIntLength(s[1..])]) % TWO32 else scheme)
  }

  /** No length octet is read beyond the box, and no integer has more than five octets. */
  predicate Readable(s: seq<byte>)
    decreases |s|
  {
    s == [] ||
    ((IsKey(s[0]) || IsText(s[0]) ==> |s| > 1) &&
     (IsNumber(s[0]) ==> MultiIntLength(s[1..]) <= 5) &&
     Readable(After(s)))
  }

  // ----- the code -----

  method ReadU32(data: seq<byte>, at: nat) returns (v: nat, next: nat)
    requires at + 4 <= |data|
    ensures v == BE(data[at..at + 4]) && next == at + 4
  {
    v, next := BE(data[at..at + 4]), at + 4;
  }

  /** The fifth octet is shifted within 32 bits and its sign is carried into the long. */
  method ParseMultiInt(data: seq<byte>, at: nat, fin: nat) returns (iVal: int, next: nat)
    requires at <= fin <= |data| && MultiIntLength(data[at..fin]) <= 5
    ensures next == at + MultiIntLength(data[at..fin])
    ensures iVal == Signed32(MultiIntValue(data[at..fin][..MultiIntLength(data[at..fin])]) % TWO32)
  {
    hide MultiIntLength, MultiIntValue, PartRead, Signed32;
    iVal, next := 0, at;
    ghost var s, v: nat := data[at..fin], 0;
    var weight: nat := 1;
    NothingRead(s);
    FirstWeight();
    while next < fin
      invariant at <= next <= fin && PartRead(s, next - at, v, weight)
      invariant next - at <= 5 && IsWeight(weight, next - at) && 0 <= v < weight && iVal == Signed32(v % TWO32)
    {
      var code := data[next];
      ReadLess(s, next - at, v, weight);
      OctetRead(s, next - at, v, weight);
      OctetIn(v, code % 128, weight, next - at);
      next := next + 1;
      iVal := iVal + Signed32(code % 128 * weight % TWO32);
      v := v + code % 128 * weight;
      if code < 128 {
        return;
      }
      weight := weight * 128;
    }
    AllRead(s, v, weight);
  }

  /** The weight of octet k. */
  predicate IsWeight(w: nat, k: nat)
  {
    w == if k == 0 then 1 else if k == 1 then 0x80 else if k == 2 then 0x4000 else if k == 3 then 0x20_0000
         else if k == 4 then 0x1000_0000 else TWO35
  }

  lemma FirstWeight()
    ensures IsWeight(1, 0) && Signed32(0 % TWO32) == 0
  {
  }

  /** The bits of an octet do not meet those before it, so that setting them is an addition. */
  lemma {:induction false} OctetIn(v: nat, d: nat, w: nat, k: nat)
    requires v < w && d < 128 && k < 5 && IsWeight(w, k)
    ensures v + d * w < w * 128 && IsWeight(w * 128, k + 1)
    ensures Signed32(v % TWO32) + Signed32(d * w % TWO32) == Signed32((v + d * w) % TWO32)
  {
    if k == 4 {
      FifthIn(v, d);
    } else {
      hide Signed32;
      EarlyIn(v, d, w);
    }
  }

  lemma {:induction false} EarlyIn(v: nat, d: nat, w: nat)
    requires v < w <= 0x20_0000 && d < 128
    ensures 0 <= d * w && v + d * w < w * 128 <= 0x1000_0000
    ensures Signed32(v % TWO32) + Signed32(d * w % TWO32) == Signed32((v + d * w) % TWO32)
  {
    hide Signed32;
    assert d * w <= 127 * w;
    SmallSigned(v);
    SmallSigned(d * w);
    SmallSigned(v + d * w);
  }

  lemma SmallSigned(x: nat)
    requires x < TWO31
    ensures Signed32(x % TWO32) == x
  {
  }

  lemma {:induction false} FifthIn(v: nat, d: nat)
    requires v < 0x1000_0000 && d < 128
    ensures v + d * 0x1000_0000 < TWO35
    ensures Signed32(v % TWO32) + Signed32(d * 0x1000_0000 % TWO32) == Signed32((v + d * 0x1000_0000) % TWO32)
  {
    var q, r := d / 16, d % 16;
    DivModUnique(d * 0x1000_0000, TWO32, q, r * 0x1000_0000);
    DivModUnique(v + d * 0x1000_0000, TWO32, q, r * 0x1000_0000 + v);
  }

  lemma SignedBack(u: nat)
    requires u < TWO32
    ensures Signed32(u) % TWO32 == u
  {
  }

  lemma ReadLess(s: seq<byte>, k: nat, v: nat, w: nat)
    requires PartRead(s, k, v, w) && k < |s|
    ensures k < MultiIntLength(s)
  {
  }

  /** The first k octets are continued; they are worth v, and the next weighs w. */
  predicate PartRead(s: seq<byte>, k: nat, v: nat, w: nat)
  {
    k <= |s| && MultiIntLength(s) == k + MultiIntLength(s[k..]) &&
    MultiIntValue(s[..MultiIntLength(s)]) == v + w * MultiIntValue(s[k..][..MultiIntLength(s[k..])])
  }

  lemma NothingRead(s: seq<byte>)
    ensures PartRead(s, 0, 0, 1)
  {
    assert s[0..] == s;
  }

  lemma AllRead(s: seq<byte>, v: nat, w: nat)
    requires PartRead(s, |s|, v, w)
    ensures MultiIntLength(s) == |s| && MultiIntValue(s[..MultiIntLength(s)]) == v
  {
    assert s[|s|..] == [];
    assert w * 0 == 0;
  }

  lemma {:induction false} OctetRead(s: seq<byte>, k: nat, v: nat, w: nat)
    requires PartRead(s, k, v, w) && k < |s|
    ensures s[k] >= 128 ==> PartRead(s, k + 1, v + s[k] % 128 * w, w * 128)
    ensures s[k] < 128 ==>
            MultiIntLength(s) == k + 1 && MultiIntValue(s[..MultiIntLength(s)]) == v + s[k] % 128 * w
  {
    var t := s[k..];
    MultiIntStep(t);
    assert t[0] == s[k] && t[1..] == s[k + 1..];
    var n := MultiIntLength(t);
    ShiftOne(v, w, s[k] % 128, MultiIntValue(t[1..][..n - 1]));
    if s[k] < 128 {
      assert t[1..][..n - 1] == [];
      assert w * 128 * 0 == 0;
    }
  }

  lemma {:induction false} MultiIntStep(t: seq<byte>)
    requires t != []
    ensures var n := MultiIntLength(t);
            MultiIntValue(t[..n]) == t[0] % 128 + 128 * MultiIntValue(t[1..][..n - 1]) &&
            (if t[0] < 128 then n == 1 else n == 1 + MultiIntLength(t[1..]))
  {
    var n := MultiIntLength(t);
    assert t[..n][1..] == t[1..][..n - 1] && t[..n][0] == t[0];
  }

  lemma ShiftOne(v: nat, w: nat, d: nat, rest: nat)
    ensures v + w * (d + 128 * rest) == v + d * w + (w * 128) * rest
  {
    assert w * (128 * rest) == w * 128 * rest;
    assert w * (d + 128 * rest) == w * d + w * (128 * rest);
  }

  const PSSH: nat := 0x70737368

  const SYSTEM_ID: seq<byte> := [0xed, 0xef, 0x8b, 0xa9, 0x79, 0xd6, 0x4a, 0xce, 0xa3, 0xc8, 0x27, 0xdc, 0xd5, 0x1d, 0x21, 0xed]

  /** Size, type and system of the box are right. */
  predicate IsWidevine(box: seq<byte>)
  {
    |box| >= 32 && BE(box[..4]) == |box| && BE(box[4..8]) == PSSH && box[12..28] == SYSTEM_ID
  }

  /** The reads of the source stay inside the box. */
  predicate InBounds(box: seq<byte>)
  {
    |box| >= 4 && (BE(box[..4]) == |box| ==> |box| >= 32) &&
    (IsWidevine(box) && box[8] == 0 ==> Readable(box[32..])) &&
    (IsWidevine(box) && box[8] == 1 ==> 32 + 16 * BE(box[28..32]) <= |box|)
  }

  /** The first n 16-byte ids of s. */
  function Ids(s: seq<byte>, n: nat): (ids: seq<seq<byte>>)
    requires 16 * n <= |s|
    ensures |ids| == n
    decreases n
  {
    if n == 0 then [] else [s[..16]] + Ids(s[16..], n - 1)
  }

  /** The key ids of a box, in order. */
  function BoxKeys(box: seq<byte>): seq<seq<byte>>
    requires InBounds(box)
  {
    if !IsWidevine(box) then []
    else if box[8] == 0 then Keys(box[32..])
    else if box[8] == 1 then Ids(box[32..], BE(box[28..32]))
    else []
  }

  function Stored(m: map<int, seq<byte>>, keys: seq<seq<byte>>, from: nat): map<int, seq<byte>>
    decreases |keys|
  {
    if keys == [] then m else Stored(m[from := keys[0]], keys[1..], from + 1)
  }

  /** The keys are stored under from, from + 1, ..., and nothing else changes. */
  lemma {:induction false} StoredAt(m: map<int, seq<byte>>, keys: seq<seq<byte>>, from: nat, k: int)
    ensures from <= k < from + |keys| ==> k in Stored(m, keys, from) && Stored(m, keys, from)[k] == keys[k - from]
    ensures !(from <= k < from + |keys|) ==>
            (k in Stored(m, keys, from) <==> k in m) && (k in m ==> Stored(m, keys, from)[k] == m[k])
    decreases |keys|
  {
    if keys != [] {
      StoredAt(m[from := keys[0]], keys[1..], from + 1, k);
    }
  }

  class WidevineDrmHelper {
    var mInitData: seq<byte>
    var mKeyIDs: map<int, seq<byte>>
    var protectionScheme: int

    constructor ()
      ensures mInitData == [] && mKeyIDs == map[] && protectionScheme == 0
    {
      mInitData := [];
      mKeyIDs := map[];
      protectionScheme := 0;
    }

    method parsePssh(psshData: seq<byte>) returns (rc: bool)
      requires InBounds(psshData)
      modifies this
      ensures mInitData == psshData && rc == (BoxKeys(psshData) != [])
      ensures mKeyIDs == Stored(old(mKeyIDs), BoxKeys(psshData), 0)
      ensures protectionScheme ==
              if IsWidevine(psshData) && psshData[8] == 0 then Scheme(psshData[32..], old(protectionScheme))
              else old(protectionScheme)
    {
      hide BE, Keys, Scheme, Readable;
      rc := false;
      mInitData := psshData;
      var boxSize, at := ReadU32(psshData, 0);
      assert psshData[0..4] == psshData[..4];
      if boxSize == |psshData| {
        var boxType;
        boxType, at := ReadU32(psshData, at);
        if boxType == PSSH {
          var version := psshData[at];
          at := at + 4;
          if psshData[at..at + 16] == SYSTEM_ID {
            at := at + 16;
            if version == 0 {
              var sz;
              sz, at := ReadU32(psshData, at);
              rc := ParseFields(psshData, at);
            } else if version == 1 {
              var kidCount;
              kidCount, at := ReadU32(psshData, at);
              rc := ParseIds(psshData, at, kidCount);
            }
          }
        }
      }
    }

    /** The loop over the fields of a version 0 box. */
    method ParseFields(psshData: seq<byte>, from: nat) returns (rc: bool)
      requires from <= |psshData| && Readable(psshData[from..])
      modifies this`mKeyIDs, this`protectionScheme
      ensures rc == (Keys(psshData[from..]) != [])
      ensures mKeyIDs == Stored(old(mKeyIDs), Keys(psshData[from..]), 0)
      ensures protectionScheme == Scheme(psshData[from..], old(protectionScheme))
    {
      hide Keys, Scheme, Readable, Stored, MultiIntLength, MultiIntValue, BE, KeyOf, After, Left, Skip, FieldsRead, Signed32;
      rc := false;
      var fin, at, kidCount := |psshData|, from, 0;
      ghost var s := psshData[from..];
      Initially(old(mKeyIDs), s, old(protectionScheme));
      LeftStart(psshData, from);
      while at < fin
        invariant Readable(Left(psshData, at)) && kidCount >= 0
        invariant FieldsRead(s, Left(psshData, at), old(mKeyIDs), old(protectionScheme), mKeyIDs, protectionScheme, kidCount, rc)
        decreases fin - at
      {
        ghost var t := Left(psshData, at);
        LeftAfter(psshData, at);
        KeyAt(psshData, at);
        FieldStep(s, t, old(mKeyIDs), old(protectionScheme), mKeyIDs, protectionScheme, kidCount, rc);
        SkipOf(t);
        var fieldType := psshData[at];
        at := at + 1;
        if fieldType == 0x38 || fieldType == 0x50 || fieldType == 0x08 {
          var iVal;
          iVal, at := ParseMultiInt(psshData, at, fin);
        } else if fieldType == 0x48 {
          var iVal;
          iVal, at := ParseMultiInt(psshData, at, fin);
          SignedBack(MultiIntValue(t[1..][..MultiIntLength(t[1..])]) % TWO32);
          protectionScheme := iVal % TWO32;
        } else if fieldType == 0x22 || fieldType == 0x12 {
          var fieldSize := psshData[at] as int;
          at := at + 1;
          if fieldSize > 0 && at + fieldSize <= fin {
            mKeyIDs := mKeyIDs[kidCount := psshData[at..at + fieldSize]];
            kidCount := kidCount + 1;
            rc := true;
          }
          at := at + fieldSize;
        } else if fieldType == 0x32 || fieldType == 0x2a || fieldType == 0x1a {
          var fieldSize := psshData[at] as int;
          at := at + 1;
          at := at + fieldSize;
        }
      }
      Finally(s, old(mKeyIDs), old(protectionScheme), mKeyIDs, protectionScheme, kidCount, rc);
    }

    /** The loop over the key ids of a version 1 box. */
    method ParseIds(psshData: seq<byte>, from: nat, kidCount: nat) returns (rc: bool)
      requires from + 16 * kidCount <= |psshData|
      modifies this`mKeyIDs
      ensures rc == (kidCount > 0) && mKeyIDs == Stored(old(mKeyIDs), Ids(psshData[from..], kidCount), 0)
    {
      hide Stored, Ids;
      rc := false;
      var at := from;
      ghost var ids := Ids(psshData[from..], kidCount);
      for i := 0 to kidCount
        invariant at == from + 16 * i && rc == (i > 0)
        invariant Stored(mKeyIDs, Ids(psshData[at..], kidCount - i), i) == Stored(old(mKeyIDs), ids, 0)
      {
        IdsStep(psshData, at, kidCount - i);
        StoreOne(mKeyIDs, Ids(psshData[at..], kidCount - i), i);
        mKeyIDs := mKeyIDs[i := psshData[at..at + 16]];
        at := at + 16;
        rc := true;
      }
      assert Ids(psshData[at..], 0) == [];
      StoreNone(mKeyIDs, kidCount);
    }
  }

  lemma IdsStep(data: seq<byte>, at: nat, n: nat)
    requires n > 0 && at + 16 * n <= |data|
    ensures var ids := Ids(data[at..], n); ids[0] == data[at..at + 16] && ids[1..] == Ids(data[at + 16..], n - 1)
  {
    assert data[at..][16..] == data[at + 16..] && data[at..][..16] == data[at..at + 16];
  }

  lemma StoreOne(m: map<int, seq<byte>>, keys: seq<seq<byte>>, from: nat)
    requires keys != []
    ensures Stored(m, keys, from) == Stored(m[from := keys[0]], keys[1..], from + 1)
  {
  }

  lemma StoreNone(m: map<int, seq<byte>>, from: nat)
    ensures Stored(m, [], from) == m
  {
  }

  function Left(data: seq<byte>, at: nat): seq<byte>
  {
    if at < |data| then data[at..] else []
  }

  lemma LeftStart(data: seq<byte>, at: nat)
    requires at <= |data|
    ensures Left(data, at) == data[at..]
    ensures forall k :: k >= |data| ==> Left(data, k) == []
  {
  }

  lemma {:induction false} LeftAfter(data: seq<byte>, at: nat)
    requires at < |data|
    ensures var t := data[at..];
            Left(data, at) == t != [] && After(t) == Left(data, at + Skip(t)) && t[0] == data[at] &&
            t[1..] == data[at + 1..|data|] && (|t| > 1 ==> t[1] == data[at + 1]) && |t| == |data| - at
  {
    hide Skip;
  }

  lemma {:induction false} KeyAt(data: seq<byte>, at: nat)
    requires at < |data|
    ensures var t := data[at..];
            KeyOf(t) == if IsKey(t[0]) && |t| > 1 && 0 < t[1] && 2 + t[1] as int <= |t|
                        then [data[at + 2..at + 2 + t[1] as int]] else []
  {
    hide IsKey;
    var t := data[at..];
    if |t| > 1 && 2 + t[1] as int <= |t| {
      assert t[2..2 + t[1] as int] == data[at + 2..at + 2 + t[1] as int];
    }
  }

  lemma SkipOf(t: seq<byte>)
    requires t != [] && (IsKey(t[0]) || IsText(t[0]) ==> |t| > 1)
    ensures Skip(t) == if IsNumber(t[0]) then 1 + MultiIntLength(t[1..])
                       else if IsKey(t[0]) || IsText(t[0]) then 2 + t[1] as int else 1
  {
  }

  /** Half way: t is left of s; the keys and the scheme of s are those found and those of t. */
  predicate FieldsRead(s: seq<byte>, t: seq<byte>, m0: map<int, seq<byte>>, c0: int, m: map<int, seq<byte>>, c: int, n: nat, rc: bool)
  {
    Stored(m, Keys(t), n) == Stored(m0, Keys(s), 0) && Scheme(t, c) == Scheme(s, c0) && rc == (n > 0) &&
    n + |Keys(t)| == |Keys(s)|
  }

  lemma Initially(m0: map<int, seq<byte>>, s: seq<byte>, c0: int)
    ensures FieldsRead(s, s, m0, c0, m0, c0, 0, false)
  {
  }

  lemma Finally(s: seq<byte>, m0: map<int, seq<byte>>, c0: int, m: map<int, seq<byte>>, c: int, n: nat, rc: bool)
    requires FieldsRead(s, [], m0, c0, m, c, n, rc)
    ensures m == Stored(m0, Keys(s), 0) && c == Scheme(s, c0) && rc == (Keys(s) != [])
  {
  }

  /** What one field does. */
  lemma {:induction false} FieldStep(s: seq<byte>, t: seq<byte>, m0: map<int, seq<byte>>, c0: int, m: map<int, seq<byte>>,
                                     c: int, n: nat, rc: bool)
    requires t != [] && Readable(t) && FieldsRead(s, t, m0, c0, m, c, n, rc)
    ensures Readable(After(t))
    ensures IsKey(t[0]) || IsText(t[0]) ==> |t| > 1
    ensures IsNumber(t[0]) ==> MultiIntLength(t[1..]) <= 5
    ensures var c' := if t[0] == 0x48 then MultiIntValue(t[1..][..MultiIntLength(t[1..])]) % TWO32 else c;
            if KeyOf(t) == [] then FieldsRead(s, After(t), m0, c0, m, c', n, rc)
            else FieldsRead(s, After(t), m0, c0, m[n := KeyOf(t)[0]], c', n + 1, true)
  {
    hide MultiIntLength, MultiIntValue, KeyOf, After;
    var ks := Keys(After(t));
    assert Keys(t) == KeyOf(t) + ks;
    if KeyOf(t) == [] {
      assert KeyOf(t) + ks == ks;
    } else {
      assert Keys(t)[0] == KeyOf(t)[0] && Keys(t)[1..] == ks;
    }
  }

  // ----- parse of print -----

  datatype Field = Number(tag: byte, v: nat) | KeyField(tag: byte, id: seq<byte>) | Text(tag: byte, text: seq<byte>) |
                   Other(tag: byte)

  predicate WellFormedField(f: Field)
  {
    match f
    case Number(tag, v) => IsNumber(tag) && v < TWO35
    case KeyField(tag, id) => IsKey(tag) && |id| < 256
    case Text(tag, text) => IsText(tag) && |text| < 256
    case Other(tag) => !IsNumber(tag) && !IsKey(tag) && !IsText(tag)
  }

  function PrintField(f: Field): (s: seq<byte>)
    requires WellFormedField(f)
  {
    match f
    case Number(tag, v) => [tag] + PrintMultiInt(v)
    case KeyField(tag, id) => [tag, |id|] + id
    case Text(tag, text) => [tag, |text|] + text
    case Other(tag) => [tag]
  }

  predicate WellFormedFields(fs: seq<Field>)
  {
    forall f :: f in fs ==> WellFormedField(f)
  }

  function PrintFields(fs: seq<Field>): seq<byte>
    requires WellFormedFields(fs)
  {
    if fs == [] then [] else PrintField(fs[0]) + PrintFields(fs[1..])
  }

  function FieldKeys(fs: seq<Field>): seq<seq<byte>>
  {
    if fs == [] then []
    else (if fs[0].KeyField? && fs[0].id != [] then [fs[0].id] else []) + FieldKeys(fs[1..])
  }

  function FieldScheme(fs: seq<Field>, scheme: int): int
  {
    if fs == [] then scheme
    else FieldScheme(fs[1..], if fs[0].Number? && fs[0].tag == 0x48 then fs[0].v % TWO32 else scheme)
  }

  lemma {:induction false} OneNumber(tag: byte, v: nat, rest: seq<byte>)
    requires IsNumber(tag) && v < TWO35
    ensures var s := [tag] + PrintMultiInt(v) + rest;
            s[0] == tag && After(s) == rest && KeyOf(s) == [] &&
            MultiIntLength(s[1..]) <= 5 && MultiIntValue(s[1..][..MultiIntLength(s[1..])]) == v
  {
    hide MultiIntLength, MultiIntValue, PrintMultiInt;
    var s, p := [tag] + PrintMultiInt(v) + rest, PrintMultiInt(v);
    MultiIntRoundTrip(v, rest);
    MultiIntShort(v);
    assert s[1..] == p + rest;
    Behind(s, [tag] + p, rest);
  }

  lemma Behind(s: seq<byte>, head: seq<byte>, rest: seq<byte>)
    requires s == head + rest
    ensures s[|head|..] == rest && (|head| == |s| ==> rest == [])
  {
  }

  lemma {:induction false} OneBlock(tag: byte, block: seq<byte>, rest: seq<byte>)
    requires (IsKey(tag) || IsText(tag)) && |block| < 256
    ensures var s := [tag, |block|] + block + rest;
            s[0] == tag && |s| > 1 && After(s) == rest && KeyOf(s) == if IsKey(tag) && block != [] then [block] else []
  {
    var s := [tag, |block|] + block + rest;
    assert s[1] as int == |block|;
    Behind(s, [tag, |block|] + block, rest);
    assert s[2..2 + |block|] == block;
  }

  lemma {:induction false} OneField(f: Field, rest: seq<byte>)
    requires WellFormedField(f)
    ensures var s := PrintField(f) + rest;
            s != [] && After(s) == rest && KeyOf(s) == (if f.KeyField? && f.id != [] then [f.id] else []) &&
            (IsKey(s[0]) || IsText(s[0]) ==> |s| > 1) && s[0] == f.tag &&
            (IsNumber(s[0]) ==> f.Number? && MultiIntLength(s[1..]) <= 5 &&
                                MultiIntValue(s[1..][..MultiIntLength(s[1..])]) == f.v)
  {
    hide MultiIntLength, MultiIntValue, PrintMultiInt, After, KeyOf;
    match f
    case Number(tag, v) => OneNumber(tag, v, rest);
    case KeyField(tag, id) => OneBlock(tag, id, rest);
    case Text(tag, text) => OneBlock(tag, text, rest);
    case Other(tag) => OneOther(tag, rest);
  }

  lemma OneOther(tag: byte, rest: seq<byte>)
    requires !IsNumber(tag) && !IsKey(tag) && !IsText(tag)
    ensures var s := [tag] + rest; s[0] == tag && After(s) == rest && KeyOf(s) == []
  {
    Behind([tag] + rest, [tag], rest);
  }

  /** The fields of a version 0 box come back: the key and content ids that are not empty, in order, and the last scheme. */
  lemma {:induction false} FieldsRoundTrip(fs: seq<Field>, scheme: int)
    requires WellFormedFields(fs)
    ensures var s := PrintFields(fs);
            Readable(s) && Keys(s) == FieldKeys(fs) && Scheme(s, scheme) == FieldScheme(fs, scheme)
    decreases |fs|
  {
    hide MultiIntLength, MultiIntValue, KeyOf, After, PrintField;
    if fs != [] {
      var f, rest := fs[0], PrintFields(fs[1..]);
      OneField(f, rest);
      FieldsRoundTrip(fs[1..], if f.Number? && f.tag == 0x48 then f.v % TWO32 else scheme);
      assert PrintFields(fs) == PrintField(f) + rest;
      NumberTag(f);
    }
  }

  lemma NumberTag(f: Field)
    requires WellFormedField(f)
    ensures IsNumber(f.tag) <==> f.Number?
  {
  }

  function Header(version: byte, flags: seq<byte>, size: nat): (h: seq<byte>)
    requires |flags| == 3
    ensures |h| == 28
  {
    ToBE(size, 4) + (ToBE(PSSH, 4) + ([version] + flags + SYSTEM_ID))
  }

  function BoxV0(flags: seq<byte>, fs: seq<Field>): seq<byte>
    requires |flags| == 3 && WellFormedFields(fs)
  {
    var data := PrintFields(fs);
    Header(0, flags, 32 + |data|) + (ToBE(|data|, 4) + data)
  }

  function Flatten(ids: seq<seq<byte>>): seq<byte>
  {
    if ids == [] then [] else ids[0] + Flatten(ids[1..])
  }

  /** tail is what follows the key ids: the length of the data, and the data. */
  function BoxV1(flags: seq<byte>, ids: seq<seq<byte>>, tail: seq<byte>): seq<byte>
    requires |flags| == 3
  {
    var body := Flatten(ids) + tail;
    Header(1, flags, 32 + |body|) + (ToBE(|ids|, 4) + body)
  }

  lemma {:induction false} HeaderFields(version: byte, flags: seq<byte>, n: nat, body: seq<byte>)
    requires |flags| == 3 && 32 + |body| < TWO32 && n < TWO32
    ensures var box := Header(version, flags, 32 + |body|) + (ToBE(n, 4) + body);
            IsWidevine(box) && box[8] == version && BE(box[28..32]) == n && box[32..] == body
  {
    hide ToBE, BE;
    Widths();
    var size := 32 + |body|;
    var box := Header(version, flags, size) + (ToBE(n, 4) + body);
    var system := [version] + flags + SYSTEM_ID;
    assert box == ToBE(size, 4) + (ToBE(PSSH, 4) + (system + (ToBE(n, 4) + body)));
    assert box[0..|box|] == box && box[0..4] == box[..4];
    TakeField(box, 0, |box|, size, 4, ToBE(PSSH, 4) + (system + (ToBE(n, 4) + body)));
    TakeField(box, 4, |box|, PSSH, 4, system + (ToBE(n, 4) + body));
    TakeBytes(box, 8, |box|, system, ToBE(n, 4) + body);
    TakeField(box, 28, |box|, n, 4, body);
    assert box[8..28][0] == box[8] && box[12..28] == box[8..28][4..];
    assert system[4..] == SYSTEM_ID;
  }

  /** Parsing a version 0 box finds its ids. */
  lemma {:induction false} ParseOfV0(flags: seq<byte>, fs: seq<Field>)
    requires |flags| == 3 && WellFormedFields(fs) && 32 + |PrintFields(fs)| < TWO32
    ensures var box := BoxV0(flags, fs);
            InBounds(box) && BoxKeys(box) == FieldKeys(fs) && forall c :: Scheme(box[32..], c) == FieldScheme(fs, c)
  {
    hide Header, Keys, Scheme, FieldKeys, FieldScheme, PrintFields, Readable, BE;
    HeaderFields(0, flags, |PrintFields(fs)|, PrintFields(fs));
    FieldsRoundTrip(fs, 0);
    forall c
      ensures Scheme(PrintFields(fs), c) == FieldScheme(fs, c)
    {
      FieldsRoundTrip(fs, c);
    }
  }

  lemma {:induction false} FlattenLength(ids: seq<seq<byte>>)
    requires forall id :: id in ids ==> |id| == 16
    ensures |Flatten(ids)| == 16 * |ids|
  {
    if ids != [] {
      FlattenLength(ids[1..]);
    }
  }

  lemma Cut(a: seq<byte>, b: seq<byte>, c: seq<byte>)
    ensures (a + b + c)[..|a|] == a && (a + b + c)[|a|..] == b + c
  {
  }

  lemma {:induction false} FlattenAt(ids: seq<seq<byte>>, tail: seq<byte>)
    requires forall id :: id in ids ==> |id| == 16
    ensures |Flatten(ids)| == 16 * |ids| && Ids(Flatten(ids) + tail, |ids|) == ids
    decreases |ids|
  {
    hide Ids;
    FlattenLength(ids);
    if ids == [] {
      IdsNone(Flatten(ids) + tail);
    } else {
      var first, rest := ids[0], Flatten(ids[1..]);
      FlattenAt(ids[1..], tail);
      FlattenLength(ids[1..]);
      Cut(first, rest, tail);
      assert Flatten(ids) == first + rest;
      IdsUnfold(first + rest + tail, |ids|);
    }
  }

  lemma IdsNone(s: seq<byte>)
    ensures Ids(s, 0) == []
  {
  }

  lemma {:induction false} IdsUnfold(s: seq<byte>, n: nat)
    requires n > 0 && 16 * n <= |s|
    ensures Ids(s, n) == [s[..16]] + Ids(s[16..], n - 1)
  {
  }

  /** Parsing a version 1 box finds its ids. */
  lemma {:induction false} ParseOfV1(flags: seq<byte>, ids: seq<seq<byte>>, tail: seq<byte>)
    requires |flags| == 3 && (forall id :: id in ids ==> |id| == 16) && |ids| < TWO32
    requires 32 + |Flatten(ids) + tail| < TWO32
    ensures var box := BoxV1(flags, ids, tail); InBounds(box) && BoxKeys(box) == ids
  {
    hide Header, BE, Ids, Flatten, ToBE, IsWidevine, InBounds, BoxKeys, Readable;
    HeaderFields(1, flags, |ids|, Flatten(ids) + tail);
    FlattenAt(ids, tail);
    KeysOfV1(BoxV1(flags, ids, tail), |ids|);
  }

  lemma KeysOfV1(box: seq<byte>, n: nat)
    requires IsWidevine(box) && box[8] == 1 && BE(box[28..32]) == n && 32 + 16 * n <= |box|
    ensures InBounds(box) && BoxKeys(box) == Ids(box[32..], n)
  {
    hide BE, Ids;
  }

  // ----- the specification, straight on the bytes -----

  /** How many octets an integer takes: the first with a clear top bit is its last, unless the data ends before. */
  lemma {:induction false} LastOctet(s: seq<byte>)
    ensures var n := MultiIntLength(s);
            n <= |s| && (n < |s| ==> n >= 1 && s[n - 1] < 128) && forall i :: 0 <= i < n - 1 ==> s[i] >= 128
  {
    if s != [] && s[0] >= 128 {
      LastOctet(s[1..]);
      var n := MultiIntLength(s[1..]);
      assert 1 <= n < |s[1..]| ==> s[n] == s[1..][n - 1];
      forall i: nat | i < n
        ensures s[i] >= 128
      {
        assert i > 0 ==> s[i] == s[1..][i - 1];
      }
    }
  }

  /** Seven bits an octet, the first the least significant. */
  lemma {:induction false} MultiIntOfOctets(a: byte, b: byte, c: byte)
    ensures MultiIntValue([a]) == a % 128 && MultiIntValue([a, b]) == a % 128 + b % 128 * 0x80
    ensures MultiIntValue([a, b, c]) == a % 128 + b % 128 * 0x80 + c % 128 * 0x4000
  {
    assert [a][1..] == [] && [a, b][1..] == [b] && [a, b, c][1..] == [b, c] && [b, c][1..] == [c] && [c][1..] == [];
    assert MultiIntValue([]) == 0;
    assert MultiIntValue([c]) == c % 128 && MultiIntValue([b]) == b % 128;
    assert MultiIntValue([b, c]) == b % 128 + 128 * MultiIntValue([c]);
  }

  /**
   The field at the front of s, by its tag: numbers, of which 0x48 is the protection scheme; key id 0x12 and content
   id 0x22, each a length and that many bytes, kept if not empty and inside the box; texts; and anything else, which
   is passed over a byte at a time.
   */
  lemma {:induction false} FieldOnBytes(s: seq<byte>, c: int)
    requires s != []
    ensures s[0] in {0x08, 0x38, 0x48, 0x50} ==>
            var n := MultiIntLength(s[1..]);
            Keys(s) == Keys(s[1 + n..]) &&
            Scheme(s, c) == Scheme(s[1 + n..], if s[0] == 0x48 then MultiIntValue(s[1..1 + n]) % TWO32 else c)
    ensures s[0] in {0x12, 0x22, 0x1a, 0x2a, 0x32} && |s| > 1 ==>
            var end := 2 + s[1] as int;
            var id := if s[0] in {0x12, 0x22} && s[1] > 0 && end <= |s| then [s[2..end]] else [];
            var rest := if end < |s| then s[end..] else [];
            Keys(s) == id + Keys(rest) && Scheme(s, c) == Scheme(rest, c)
    ensures s[0] !in {0x08, 0x38, 0x48, 0x50, 0x12, 0x22, 0x1a, 0x2a, 0x32} ==>
            Keys(s) == Keys(s[1..]) && Scheme(s, c) == Scheme(s[1..], c)
  {
    hide *;
    TagNames(s[0]);
    if IsNumber(s[0]) {
      NumberOnBytes(s, c);
    } else if IsKey(s[0]) || IsText(s[0]) {
      BlockOnBytes(s, c);
    } else {
      OtherOnBytes(s, c);
    }
  }

  lemma TagNames(tag: byte)
    ensures IsNumber(tag) <==> tag in {0x08, 0x38, 0x48, 0x50}
    ensures IsKey(tag) <==> tag in {0x12, 0x22}
    ensures IsKey(tag) || IsText(tag) <==> tag in {0x12, 0x22, 0x1a, 0x2a, 0x32}
    ensures !(IsNumber(tag) && (IsKey(tag) || IsText(tag)))
    ensures IsNumber(tag) || IsKey(tag) || IsText(tag) <==> tag in {0x08, 0x38, 0x48, 0x50, 0x12, 0x22, 0x1a, 0x2a, 0x32}
  {
  }

  lemma {:induction false} KeysStep(s: seq<byte>, c: int)
    requires s != []
    ensures Keys(s) == KeyOf(s) + Keys(After(s))
    ensures Scheme(s, c) ==
            Scheme(After(s), if s[0] == 0x48 then MultiIntValue(s[1..][..MultiIntLength(s[1..])]) % TWO32 else c)
  {
    hide MultiIntLength, MultiIntValue, KeyOf, After;
  }

  lemma {:induction false} NumberOnBytes(s: seq<byte>, c: int)
    requires s != [] && IsNumber(s[0])
    ensures var n := MultiIntLength(s[1..]);
            Keys(s) == Keys(s[1 + n..]) &&
            Scheme(s, c) == Scheme(s[1 + n..], if s[0] == 0x48 then MultiIntValue(s[1..1 + n]) % TWO32 else c)
  {
    hide MultiIntLength, MultiIntValue, Keys, Scheme, KeyOf, After, IsNumber;
    KeysStep(s, c);
    NumberField(s, MultiIntLength(s[1..]));
    assert [] + Keys(After(s)) == Keys(After(s));
  }

  lemma {:induction false} BlockOnBytes(s: seq<byte>, c: int)
    requires |s| > 1 ==> IsKey(s[0]) || IsText(s[0])
    ensures |s| > 1 ==>
            var end := 2 + s[1] as int;
            var id := if IsKey(s[0]) && s[1] > 0 && end <= |s| then [s[2..end]] else [];
            var rest := if end < |s| then s[end..] else [];
            Keys(s) == id + Keys(rest) && Scheme(s, c) == Scheme(rest, c)
  {
    hide MultiIntLength, MultiIntValue, Keys, Scheme;
    if |s| > 1 {
      KeysStep(s, c);
    }
  }

  lemma {:induction false} OtherOnBytes(s: seq<byte>, c: int)
    requires s != [] && !IsNumber(s[0]) && !IsKey(s[0]) && !IsText(s[0])
    ensures Keys(s) == Keys(s[1..]) && Scheme(s, c) == Scheme(s[1..], c)
  {
    hide MultiIntLength, MultiIntValue, Keys, Scheme;
    KeysStep(s, c);
    assert After(s) == s[1..];
    assert [] + Keys(s[1..]) == Keys(s[1..]);
  }

  lemma NumberField(s: seq<byte>, n: nat)
    requires s != [] && IsNumber(s[0]) && n == MultiIntLength(s[1..])
    ensures 1 + n <= |s| && After(s) == s[1 + n..] && KeyOf(s) == [] && s[1..][..n] == s[1..1 + n]
  {
    hide MultiIntLength, MultiIntValue;
  }

  /** The box type, and the system id edef8ba9-79d6-4ace-a3c8-27dcd51d21ed. */
  lemma {:induction false} Identifiers()
    ensures PSSH == ByteLayout.Name('p', 's', 's', 'h')
    ensures SYSTEM_ID == ToBE(0xedef8ba9, 4) + ToBE(0x79d64ace, 4) + ToBE(0xa3c827dc, 4) + ToBE(0xd51d21ed, 4)
  {
    hide ToBE;
    ToBE4(0xedef8ba9);
    ToBE4(0x79d64ace);
    ToBE4(0xa3c827dc);
    ToBE4(0xd51d21ed);
  }
}
