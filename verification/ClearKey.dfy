/**
 ClearKeySession::decrypt: the protected ranges of a sample are gathered into one buffer, decrypted with
 one AES-CTR call, and scattered back (ISO/IEC 23001-7 section 9.5). The keystream is abstract.
 */
module ClearKey {
  import opened Bytes
  import opened DrmStates

  type u8 = bv8

  /** The keystream for one key and counter block: byte j of it is ks(j). */
  type Stream = nat -> u8

  /** One entry of the subsample map: a clear range, then a protected range. */
  datatype SubSample = SubSample(clear: nat, protected: nat)

  /** How far the three EVP calls get; a failing update may have written some output. */
  datatype Evp = InitFails | UpdateFails(partial: seq<u8>) | FinalFails | Succeeds

  const AES_CTR_IV_LEN: nat := 16

  // ----- specification -----

  function EntryAt(subs: seq<byte>, i: nat): SubSample
    requires 6 * i + 6 <= |subs|
  {
    SubSample(BE(subs[6 * i..6 * i + 2]), BE(subs[6 * i + 2..6 * i + 6]))
  }

  /** The entries the byte reader can deliver, at most count. */
  function Entries(subs: seq<byte>, count: nat): (es: seq<SubSample>)
    ensures |es| == if 6 * count <= |subs| then count else |subs| / 6
    ensures forall i :: 0 <= i < |es| ==> es[i] == EntryAt(subs, i)
  {
    seq(if 6 * count <= |subs| then count else |subs| / 6, i requires 0 <= i && 6 * i + 6 <= |subs| => EntryAt(subs, i))
  }

  predicate Fits(es: seq<SubSample>, base: nat, n: nat)
  {
    base <= n && (es == [] || Fits(es[1..], base + es[0].clear + es[0].protected, n))
  }

  function Total(es: seq<SubSample>): nat
  {
    if es == [] then 0 else es[0].protected + Total(es[1..])
  }

  function XorByte(a: u8, k: u8): u8
  {
    a ^ k
  }

  function Xor(s: seq<u8>, ks: Stream, j: nat): (t: seq<u8>)
    ensures |t| == |s| && forall i :: 0 <= i < |s| ==> t[i] == XorByte(s[i], ks(j + i))
  {
    seq(|s|, i requires 0 <= i < |s| => XorByte(s[i], ks(j + i)))
  }

  /** The protected bytes from base on, in one piece. */
  function Gather(data: seq<u8>, es: seq<SubSample>, base: nat): seq<u8>
    requires Fits(es, base, |data|)
  {
    if es == [] then []
    else
      var lo := base + es[0].clear;
      var hi := lo + es[0].protected;
      FitsStep(es, base, |data|);
      data[lo..hi] + Gather(data, es[1..], hi)
  }

  lemma FitsStep(es: seq<SubSample>, base: nat, n: nat)
    requires Fits(es, base, n) && es != []
    ensures base + es[0].clear + es[0].protected <= n && Fits(es[1..], base + es[0].clear + es[0].protected, n)
  {
  }

  /** The sample from base on, after decryption; j bytes of keystream are used up before. */
  function Plain(data: seq<u8>, es: seq<SubSample>, base: nat, ks: Stream, j: nat): (t: seq<u8>)
    requires Fits(es, base, |data|)
    ensures |t| == |data| - base
    decreases |es|
  {
    if es == [] then data[base..]
    else
      var lo := base + es[0].clear;
      var hi := lo + es[0].protected;
      FitsStep(es, base, |data|);
      data[base..lo] + Xor(data[lo..hi], ks, j) + Plain(data, es[1..], hi, ks, j + es[0].protected)
  }

  /** Where byte p is among the protected bytes, counted across all subsamples; -1 for a clear byte. */
  function Ordinal(es: seq<SubSample>, base: nat, j: nat, p: nat): int
    decreases |es|
  {
    if es == [] || p < base + es[0].clear then -1
    else if p < base + es[0].clear + es[0].protected then j + (p - base - es[0].clear)
    else Ordinal(es[1..], base + es[0].clear + es[0].protected, j + es[0].protected, p)
  }

  /** An 8-byte IV is the high half of the counter block. */
  function CounterBlock(iv: seq<u8>): seq<u8>
  {
    if |iv| == 8 then iv + [0, 0, 0, 0, 0, 0, 0, 0] else iv
  }

  /** What the inner decrypt leaves in the payload: its output buffer starts as zeros and is copied back on any outcome. */
  function AfterEvp(s: seq<u8>, ks: Stream, evp: Evp): (t: seq<u8>)
    requires evp.UpdateFails? ==> |evp.partial| == |s|
    ensures |t| == |s|
  {
    match evp
    case InitFails => seq(|s|, i => 0)
    case UpdateFails(partial) => partial
    case _ => Xor(s, ks, 0)
  }

  // ----- the same, byte by byte -----

  /** Entry i of a subsample map: a 16-bit and a 32-bit number. */
  function ClearOf(subs: seq<byte>, i: nat): nat
  {
    if 6 * i + 6 <= |subs| then BE(subs[6 * i..6 * i + 2]) else 0
  }

  function ProtectedOf(subs: seq<byte>, i: nat): nat
  {
    if 6 * i + 6 <= |subs| then BE(subs[6 * i + 2..6 * i + 6]) else 0
  }

  /** Where subsample i begins, and how many protected bytes lie before it. */
  function StartOf(subs: seq<byte>, i: nat): nat
  {
    if i == 0 then 0 else StartOf(subs, i - 1) + ClearOf(subs, i - 1) + ProtectedOf(subs, i - 1)
  }

  function ProtectedBefore(subs: seq<byte>, i: nat): nat
  {
    if i == 0 then 0 else ProtectedBefore(subs, i - 1) + ProtectedOf(subs, i - 1)
  }

  /** Clear bytes and the tail are kept; protected bytes are combined with the keystream, which runs on across subsamples. */
  ghost predicate DecryptedBytes(was: seq<u8>, now: seq<u8>, subs: seq<byte>, count: nat, ks: Stream)
  {
    |now| == |was| && StartOf(subs, count) <= |was| &&
    (forall i: nat :: i < count ==>
       KeptRange(was, now, StartOf(subs, i), ClearOf(subs, i)) &&
       CombinedRange(was, now, StartOf(subs, i) + ClearOf(subs, i), ProtectedOf(subs, i), ks, ProtectedBefore(subs, i))) &&
    KeptRange(was, now, StartOf(subs, count), |was| - StartOf(subs, count))
  }

  /** The n bytes from lo on are as they were. */
  ghost predicate KeptRange(was: seq<u8>, now: seq<u8>, lo: nat, n: nat)
  {
    lo + n <= |was| == |now| && forall p :: lo <= p < lo + n ==> now[p] == was[p]
  }

  /** The n bytes from lo on are combined with keystream bytes j, j + 1, ... */
  ghost predicate CombinedRange(was: seq<u8>, now: seq<u8>, lo: nat, n: nat, ks: Stream, j: nat)
  {
    lo + n <= |was| == |now| && forall p :: lo <= p < lo + n ==> now[p] == was[p] ^ ks(j + (p - lo))
  }

  /** What one call of the cipher makes of byte x: its output starts as zeros, and is copied back on any outcome. */
  function Outputs(b: u8, k: u8, x: nat, evp: Evp): u8
    requires evp.UpdateFails? ==> x < |evp.partial|
  {
    match evp
    case InitFails => 0
    case UpdateFails(partial) => partial[x]
    case FinalFails => b ^ k
    case Succeeds => b ^ k
  }

  lemma AfterEvpAt(s: seq<u8>, ks: Stream, evp: Evp)
    requires evp.UpdateFails? ==> |evp.partial| == |s|
    ensures forall x: nat :: x < |s| ==> AfterEvp(s, ks, evp)[x] == Outputs(s[x], ks(x), x, evp)
  {
  }

  lemma {:induction false} EntryNumbers(subs: seq<byte>, count: nat, i: nat)
    requires i < |Entries(subs, count)|
    ensures Entries(subs, count)[i] == SubSample(ClearOf(subs, i), ProtectedOf(subs, i))
    ensures 6 * i + 6 <= |subs| && i < count
  {
    hide BE;
  }

  function Before(es: seq<SubSample>, i: nat): nat
    requires i <= |es|
  {
    if i == 0 then 0 else es[0].clear + es[0].protected + Before(es[1..], i - 1)
  }

  function Shielded(es: seq<SubSample>, i: nat): nat
    requires i <= |es|
  {
    if i == 0 then 0 else es[0].protected + Shielded(es[1..], i - 1)
  }

  lemma {:induction false} SumSnoc(es: seq<SubSample>, i: nat)
    requires i < |es|
    ensures Before(es, i + 1) == Before(es, i) + es[i].clear + es[i].protected
    ensures Shielded(es, i + 1) == Shielded(es, i) + es[i].protected
    decreases |es|
  {
    if i > 0 {
      SumSnoc(es[1..], i - 1);
    }
  }

  lemma {:induction false} SumsAgree(subs: seq<byte>, count: nat, i: nat)
    requires i <= |Entries(subs, count)|
    ensures Before(Entries(subs, count), i) == StartOf(subs, i) && Shielded(Entries(subs, count), i) == ProtectedBefore(subs, i)
    decreases i
  {
    hide Entries, ClearOf, ProtectedOf, Before, Shielded;
    if i == 0 {
      SumsNone(Entries(subs, count));
    } else {
      SumsAgree(subs, count, i - 1);
      SumSnoc(Entries(subs, count), i - 1);
      EntryNumbers(subs, count, i - 1);
    }
  }

  lemma SumsNone(es: seq<SubSample>)
    ensures Before(es, 0) == 0 && Shielded(es, 0) == 0
  {
  }

  /** Byte x of subsample i, counted over its clear and protected part, and a byte behind the last one. */
  lemma {:induction false} OrdinalOf(es: seq<SubSample>, base: nat, j: nat, i: nat, x: nat)
    requires i <= |es| && (i < |es| ==> x < es[i].clear + es[i].protected)
    ensures Ordinal(es, base, j, base + Before(es, i) + x) ==
            if i == |es| || x < es[i].clear then -1 else j + Shielded(es, i) + (x - es[i].clear)
    decreases |es|
  {
    if i > 0 {
      OrdinalOf(es[1..], base + es[0].clear + es[0].protected, j + es[0].protected, i - 1, x);
    }
  }

  lemma {:induction false} FitsAll(es: seq<SubSample>, base: nat, n: nat)
    requires Fits(es, base, n)
    ensures base + Before(es, |es|) <= n
    decreases |es|
  {
    if es != [] {
      FitsAll(es[1..], base + es[0].clear + es[0].protected, n);
    }
  }

  /** The specification, byte by byte. */
  lemma {:induction false} PlainBytes(data: seq<u8>, subs: seq<byte>, count: nat, ks: Stream)
    requires |Entries(subs, count)| == count && Fits(Entries(subs, count), 0, |data|)
    ensures DecryptedBytes(data, Plain(data, Entries(subs, count), 0, ks, 0), subs, count, ks)
  {
    hide Entries, ClearOf, ProtectedOf, StartOf, ProtectedBefore, Before, Shielded, Ordinal, Fits, Plain;
    var es := Entries(subs, count);
    var now := Plain(data, es, 0, ks, 0);
    FitsAll(es, 0, |data|);
    SumsAgree(subs, count, count);
    forall i: nat | i < count
      ensures KeptRange(data, now, StartOf(subs, i), ClearOf(subs, i))
      ensures CombinedRange(data, now, StartOf(subs, i) + ClearOf(subs, i), ProtectedOf(subs, i), ks, ProtectedBefore(subs, i))
    {
      SubSampleBytes(data, subs, count, ks, i);
    }
    forall p: nat | StartOf(subs, count) <= p < |data|
      ensures now[p] == data[p]
    {
      OrdinalOf(es, 0, 0, count, p - StartOf(subs, count));
      PlainAt(data, es, 0, ks, 0, p);
    }
  }

  lemma {:induction false} SubSampleBytes(data: seq<u8>, subs: seq<byte>, count: nat, ks: Stream, i: nat)
    requires |Entries(subs, count)| == count && Fits(Entries(subs, count), 0, |data|) && i < count
    ensures var now := Plain(data, Entries(subs, count), 0, ks, 0);
            KeptRange(data, now, StartOf(subs, i), ClearOf(subs, i)) &&
            CombinedRange(data, now, StartOf(subs, i) + ClearOf(subs, i), ProtectedOf(subs, i), ks, ProtectedBefore(subs, i))
  {
    hide Entries, ClearOf, ProtectedOf, StartOf, ProtectedBefore, Before, Shielded, Ordinal, Fits, Plain;
    var es := Entries(subs, count);
    var now, start, clear := Plain(data, es, 0, ks, 0), StartOf(subs, i), ClearOf(subs, i);
    EntryNumbers(subs, count, i);
    SumsAgree(subs, count, i);
    FitsOne(es, 0, |data|, i);
    forall p: nat | start <= p < start + clear + ProtectedOf(subs, i)
      ensures now[p] == if p < start + clear then data[p] else data[p] ^ ks(ProtectedBefore(subs, i) + (p - start - clear))
    {
      OrdinalOf(es, 0, 0, i, p - start);
      PlainAt(data, es, 0, ks, 0, p);
    }
  }

  lemma {:induction false} FitsOne(es: seq<SubSample>, base: nat, n: nat, i: nat)
    requires Fits(es, base, n) && i < |es|
    ensures base + Before(es, i) + es[i].clear + es[i].protected <= n
    decreases |es|
  {
    if i == 0 {
      FitsBase(es[1..], base + es[0].clear + es[0].protected, n);
    } else {
      FitsOne(es[1..], base + es[0].clear + es[0].protected, n, i - 1);
    }
  }

  // ----- the code -----

  class ClearKeySession {
    var m_eKeyState: KeyState
    var m_keyStr: seq<u8>

    constructor (state: KeyState, key: seq<u8>)
      ensures m_eKeyState == state && m_keyStr == key
    {
      m_eKeyState := state;
      m_keyStr := key;
    }

    /** The inner overload: decrypts the first size bytes of payload in place. */
    method decryptPayload(iv: seq<u8>, payload: array<u8>, size: nat, ctr: (seq<u8>, seq<u8>) -> Stream, evp: Evp)
      returns (status: int)
      requires size <= payload.Length && (evp.UpdateFails? ==> |evp.partial| == size)
      modifies payload
      ensures status == 0 || status == 1
      ensures payload[size..] == old(payload[size..])
      ensures status == 0 <==> m_eKeyState == KEY_READY && |iv| in {8, AES_CTR_IV_LEN} && evp == Succeeds
      ensures payload[..size] ==
              if m_eKeyState == KEY_READY && |iv| in {8, AES_CTR_IV_LEN}
              then AfterEvp(old(payload[..size]), ctr(m_keyStr, CounterBlock(iv)), evp)
              else old(payload[..size])
      ensures forall x: nat :: x < size ==>
                payload[x] ==
                if m_eKeyState == KEY_READY && (|iv| == 8 || |iv| == 16)
                then Outputs(old(payload[x]), ctr(m_keyStr, if |iv| == 8 then iv + [0, 0, 0, 0, 0, 0, 0, 0] else iv)(x), x, evp)
                else old(payload[x])
    {
      AfterEvpAt(payload[..size], ctr(m_keyStr, CounterBlock(iv)), evp);
      hide AfterEvp, Outputs;
      status := 1;
      if m_eKeyState == KEY_READY {
        var decrypted: seq<u8> := seq(size, i => 0);
        if |iv| == 8 || |iv| == AES_CTR_IV_LEN {
          var ivBuff := CounterBlock(iv);
          match evp {
            case InitFails =>
            case UpdateFails(partial) => decrypted := partial;
            case FinalFails => decrypted := Xor(payload[..size], ctr(m_keyStr, ivBuff), 0);
            case Succeeds =>
              decrypted := Xor(payload[..size], ctr(m_keyStr, ivBuff), 0);
              status := 0;
          }
          Copy(decrypted, payload, 0);
        }
      }
    }

    /** The outer overload. buffers says whether all buffers are there and can be mapped. */
    method decrypt(iv: seq<u8>, buffer: array<u8>, subSampleCount: nat, subs: seq<byte>, buffers: bool,
                   ctr: (seq<u8>, seq<u8>) -> Stream, evp: Evp) returns (retVal: int)
      requires buffer.Length < TWO32 && Fits(Entries(subs, subSampleCount), 0, buffer.Length)
      requires evp.UpdateFails? ==>
                 |evp.partial| == if subSampleCount > 0 then Total(Entries(subs, subSampleCount)) else buffer.Length
      modifies buffer
      ensures retVal == 0 || retVal == 1
      ensures subSampleCount > 0 ==>
              var es := Entries(subs, subSampleCount);
              (retVal == 0 <==> buffers && |es| == subSampleCount && Total(es) > 0 && m_eKeyState == KEY_READY &&
                                |iv| in {8, AES_CTR_IV_LEN} && evp == Succeeds) &&
              buffer[..] == if retVal == 0
                            then Plain(old(buffer[..]), es, 0, ctr(m_keyStr, CounterBlock(iv)), 0)
                            else old(buffer[..])
      ensures subSampleCount == 0 ==>
              (retVal == 0 <==> buffers && buffer.Length > 0 && m_eKeyState == KEY_READY &&
                                |iv| in {8, AES_CTR_IV_LEN} && evp == Succeeds) &&
              buffer[..] == if buffers && buffer.Length > 0 && m_eKeyState == KEY_READY && |iv| in {8, AES_CTR_IV_LEN}
                            then AfterEvp(old(buffer[..]), ctr(m_keyStr, CounterBlock(iv)), evp)
                            else old(buffer[..])
      ensures retVal == 0 && subSampleCount > 0 ==>
              DecryptedBytes(old(buffer[..]), buffer[..], subs, subSampleCount,
                             ctr(m_keyStr, if |iv| == 8 then iv + [0, 0, 0, 0, 0, 0, 0, 0] else iv))
      ensures retVal == 0 && subSampleCount == 0 ==>
              forall x: nat :: x < buffer.Length ==>
                buffer[x] ==
                old(buffer[x]) ^ ctr(m_keyStr, if |iv| == 8 then iv + [0, 0, 0, 0, 0, 0, 0, 0] else iv)(x)
    {
      hide DecryptedBytes;
      retVal := 1;
      if !buffers {
        return;
      }
      if subSampleCount == 0 {
        if buffer.Length != 0 {
          retVal := decryptPayload(iv, buffer, buffer.Length, ctr, evp);
          assert buffer[..] == buffer[..buffer.Length];
        }
        return;
      }
      ghost var es := Entries(subs, subSampleCount);
      var pbData, cbData, complete := GatherRanges(buffer, subSampleCount, subs);
      if !complete {
        return;
      }
      if cbData != 0 {
        retVal := decryptPayload(iv, pbData, cbData, ctr, evp);
      }
      if retVal == 0 {
        PlainBytes(buffer[..], subs, subSampleCount, ctr(m_keyStr, CounterBlock(iv)));
        ScatterRanges(buffer, pbData, subSampleCount, subs, ctr(m_keyStr, CounterBlock(iv)));
      }
    }
  }

  /** memcpy of s to target + at. */
  method Copy(s: seq<u8>, target: array<u8>, at: nat)
    requires at + |s| <= target.Length
    modifies target
    ensures target[at..at + |s|] == s
    ensures target[..at] == old(target[..at]) && target[at + |s|..] == old(target[at + |s|..])
  {
    for i := 0 to |s|
      invariant forall k :: 0 <= k < i ==> target[at + k] == s[k]
      invariant forall k :: (0 <= k < at || at + |s| <= k < target.Length) ==> target[k] == old(target[k])
    {
      target[at + i] := s[i];
    }
  }

  /** One entry from the byte reader at position 6 * i; ok is false when it is too short. */
  method ReadEntry(subs: seq<byte>, i: nat) returns (ok: bool, clear: nat, protected: nat)
    ensures ok <==> 6 * i + 6 <= |subs|
    ensures ok ==> SubSample(clear, protected) == EntryAt(subs, i)
  {
    ok, clear, protected := 6 * i + 6 <= |subs|, 0, 0;
    if ok {
      clear := BE(subs[6 * i..6 * i + 2]);
      protected := BE(subs[6 * i + 2..6 * i + 6]);
    }
  }

  method GatherRanges(buffer: array<u8>, count: nat, subs: seq<byte>)
    returns (pbData: array<u8>, cbData: nat, complete: bool)
    requires Fits(Entries(subs, count), 0, buffer.Length)
    ensures fresh(pbData) && pbData.Length == buffer.Length
    ensures complete <==> |Entries(subs, count)| == count
    ensures complete ==> cbData == Total(Entries(subs, count)) <= pbData.Length &&
                         pbData[..cbData] == Gather(buffer[..], Entries(subs, count), 0)
  {
    hide BE, Entries, EntryAt, Gather, Fits, Total, Gathered;
    ghost var es, data := Entries(subs, count), buffer[..];
    pbData := new u8[buffer.Length];
    cbData, complete := 0, true;
    var iCurrSource: nat := 0;
    GatherStart(data, es, pbData[..]);
    for i := 0 to count
      invariant i <= |es| && buffer[..] == data && Gathered(data, es, i, iCurrSource, cbData, pbData[..])
    {
      var ok, nBytesClear, nBytesEncrypted := ReadEntry(subs, i);
      if !ok {
        complete := false;
        return;
      }
      assert es[i] == SubSample(nBytesClear, nBytesEncrypted);
      GatherBounds(data, es, i, iCurrSource, cbData, pbData[..]);
      ghost var before, lo := pbData[..], iCurrSource + nBytesClear;
      iCurrSource := iCurrSource + nBytesClear;
      Copy(buffer[iCurrSource..iCurrSource + nBytesEncrypted], pbData, cbData);
      GatherStep(data, es, i, lo - nBytesClear, cbData, before, pbData[..]);
      iCurrSource := iCurrSource + nBytesEncrypted;
      cbData := cbData + nBytesEncrypted;
    }
    GatherEnd(data, es, iCurrSource, cbData, pbData[..]);
  }

  /** After i entries: cb bytes are in pb, and the rest of the sample from src on is still to be gathered. */
  predicate Gathered(data: seq<u8>, es: seq<SubSample>, i: nat, src: nat, cb: nat, pb: seq<u8>)
  {
    i <= |es| && Fits(es, 0, |data|) && Fits(es[i..], src, |data|) && cb + Total(es[i..]) == Total(es) <= |pb| == |data| &&
    Gather(data, es, 0) == pb[..cb] + Gather(data, es[i..], src)
  }

  lemma {:induction false} GatherStart(data: seq<u8>, es: seq<SubSample>, pb: seq<u8>)
    requires Fits(es, 0, |data|) && |pb| == |data|
    ensures Gathered(data, es, 0, 0, 0, pb)
  {
    GatherLength(data, es, 0);
    assert es[0..] == es && pb[..0] == [];
  }

  lemma {:induction false} GatherBounds(data: seq<u8>, es: seq<SubSample>, i: nat, src: nat, cb: nat, pb: seq<u8>)
    requires Gathered(data, es, i, src, cb, pb) && i < |es|
    ensures src + es[i].clear + es[i].protected <= |data| && cb + es[i].protected <= |pb| == |data|
  {
    FitsStep(es[i..], src, |data|);
  }

  lemma {:induction false} GatherStep(data: seq<u8>, es: seq<SubSample>, i: nat, src: nat, cb: nat, pb: seq<u8>, pb': seq<u8>)
    requires Gathered(data, es, i, src, cb, pb) && i < |es| && |pb'| == |pb|
    requires src + es[i].clear + es[i].protected <= |data| && cb + es[i].protected <= |pb|
    requires pb'[..cb] == pb[..cb]
    requires pb'[cb..cb + es[i].protected] == data[src + es[i].clear..src + es[i].clear + es[i].protected]
    ensures Gathered(data, es, i + 1, src + es[i].clear + es[i].protected, cb + es[i].protected, pb')
  {
    var lo, hi := src + es[i].clear, src + es[i].clear + es[i].protected;
    FitsStep(es[i..], src, |data|);
    assert es[i..][0] == es[i] && es[i..][1..] == es[i + 1..];
    assert pb'[..cb + es[i].protected] == pb'[..cb] + pb'[cb..cb + es[i].protected];
    assert pb[..cb] + (data[lo..hi] + Gather(data, es[i + 1..], hi)) ==
           pb[..cb] + data[lo..hi] + Gather(data, es[i + 1..], hi);
  }

  lemma {:induction false} GatherEnd(data: seq<u8>, es: seq<SubSample>, src: nat, cb: nat, pb: seq<u8>)
    requires Gathered(data, es, |es|, src, cb, pb)
    ensures Fits(es, 0, |data|) && cb == Total(es) <= |pb| && pb[..cb] == Gather(data, es, 0)
  {
    assert es[|es|..] == [];
  }

  lemma {:induction false} GatherLength(data: seq<u8>, es: seq<SubSample>, base: nat)
    requires Fits(es, base, |data|)
    ensures |Gather(data, es, base)| == Total(es) <= |data| - base
    decreases |es|
  {
    if es != [] {
      FitsStep(es, base, |data|);
      GatherLength(data, es[1..], base + es[0].clear + es[0].protected);
    }
  }

  lemma XorSplit(a: seq<u8>, b: seq<u8>, ks: Stream, j: nat)
    ensures Xor(a + b, ks, j) == Xor(a, ks, j) + Xor(b, ks, j + |a|)
  {
  }

  method ScatterRanges(buffer: array<u8>, pbData: array<u8>, count: nat, subs: seq<byte>, ks: Stream)
    requires buffer != pbData && |Entries(subs, count)| == count && Fits(Entries(subs, count), 0, buffer.Length)
    requires Total(Entries(subs, count)) <= pbData.Length
    requires pbData[..Total(Entries(subs, count))] == Xor(Gather(buffer[..], Entries(subs, count), 0), ks, 0)
    modifies buffer
    ensures buffer[..] == Plain(old(buffer[..]), Entries(subs, count), 0, ks, 0)
  {
    hide BE, Xor, XorByte, Gather, Plain, Fits, Total, Entries, EntryAt, Scattered;
    ghost var es, data := Entries(subs, count), buffer[..];
    ghost var pb := pbData[..];
    var target: nat, iCurrSource: nat := 0, 0;
    ScatterStart(data, es, pb, ks);
    for i := 0 to count
      invariant pbData[..] == pb && Scattered(data, es, i, target, iCurrSource, pb, buffer[..], ks)
    {
      var ok, nBytesClear, nBytesEncrypted := ReadEntry(subs, i);
      assert es[i] == SubSample(nBytesClear, nBytesEncrypted);
      ScatterBounds(data, es, i, target, iCurrSource, pb, buffer[..], ks);
      ghost var mid, from := buffer[..], target;
      target := target + nBytesClear;
      Copy(pbData[iCurrSource..iCurrSource + nBytesEncrypted], buffer, target);
      ScatterStep(data, es, i, from, iCurrSource, pb, mid, buffer[..], ks);
      target := target + nBytesEncrypted;
      iCurrSource := iCurrSource + nBytesEncrypted;
    }
    ScatterEnd(data, es, target, iCurrSource, pb, buffer[..], ks);
  }

  /** After i entries: buf is decrypted up to target, and src bytes of pb are used. */
  predicate Scattered(data: seq<u8>, es: seq<SubSample>, i: nat, target: nat, src: nat, pb: seq<u8>, buf: seq<u8>, ks: Stream)
  {
    i <= |es| && Fits(es, 0, |data|) && Fits(es[i..], target, |data|) && src <= Total(es) <= |pb| && |buf| == |data| &&
    buf[target..] == data[target..] &&
    pb[src..Total(es)] == Xor(Gather(data, es[i..], target), ks, src) &&
    Plain(data, es, 0, ks, 0) == buf[..target] + Plain(data, es[i..], target, ks, src)
  }

  lemma {:induction false} ScatterStart(data: seq<u8>, es: seq<SubSample>, pb: seq<u8>, ks: Stream)
    requires Fits(es, 0, |data|) && Total(es) <= |pb| && pb[..Total(es)] == Xor(Gather(data, es, 0), ks, 0)
    ensures Scattered(data, es, 0, 0, 0, pb, data, ks)
  {
    assert es[0..] == es && pb[0..Total(es)] == pb[..Total(es)] && data[..0] == [];
  }

  lemma {:induction false} ScatterBounds(data: seq<u8>, es: seq<SubSample>, i: nat, target: nat, src: nat, pb: seq<u8>,
                                         buf: seq<u8>, ks: Stream)
    requires Scattered(data, es, i, target, src, pb, buf, ks) && i < |es|
    ensures target + es[i].clear + es[i].protected <= |data| == |buf| && src + es[i].protected <= Total(es) <= |pb|
  {
    hide Plain;
    FitsStep(es[i..], target, |data|);
    GatherLength(data, es[i..], target);
  }

  lemma {:induction false} ScatterEnd(data: seq<u8>, es: seq<SubSample>, target: nat, src: nat, pb: seq<u8>, buf: seq<u8>,
                                      ks: Stream)
    requires Scattered(data, es, |es|, target, src, pb, buf, ks)
    ensures Fits(es, 0, |data|) && buf == Plain(data, es, 0, ks, 0)
  {
    assert es[|es|..] == [];
    assert buf == buf[..target] + buf[target..];
  }

  lemma FitsBase(es: seq<SubSample>, base: nat, n: nat)
    requires Fits(es, base, n)
    ensures base <= n
  {
  }

  /** One turn of the loop: the next piece of pb is the decryption of the next protected range. */
  lemma {:induction false} ScatterStep(data: seq<u8>, es: seq<SubSample>, i: nat, target: nat, src: nat, pb: seq<u8>,
                                       buf: seq<u8>, buf': seq<u8>, ks: Stream)
    requires Scattered(data, es, i, target, src, pb, buf, ks) && i < |es| && |buf'| == |buf|
    requires target + es[i].clear + es[i].protected <= |data| && src + es[i].protected <= Total(es)
    requires var lo, hi := target + es[i].clear, target + es[i].clear + es[i].protected;
             buf'[..lo] == buf[..lo] && buf'[hi..] == buf[hi..] && buf'[lo..hi] == pb[src..src + es[i].protected]
    ensures Scattered(data, es, i + 1, target + es[i].clear + es[i].protected, src + es[i].protected, pb, buf', ks)
  {
    hide Xor, XorByte, Plain, Gather, Total, Fits;
    var lo, hi, src', end := target + es[i].clear, target + es[i].clear + es[i].protected, src + es[i].protected, Total(es);
    assert es[i..][0] == es[i] && es[i..][1..] == es[i + 1..];
    Unfold(data, es[i..], target, ks, src);
    ScatterPayload(pb, data[lo..hi], Gather(data, es[i + 1..], hi), ks, src, end);
    ScatterBytes(data, target, lo, hi, buf, buf');
    Reorder(buf[..target], data[target..lo], Xor(data[lo..hi], ks, src), Plain(data, es[i + 1..], hi, ks, src'));
  }

  /** The next piece of the payload is the decryption of the next protected range. */
  lemma {:induction false} ScatterPayload(pb: seq<u8>, now: seq<u8>, later: seq<u8>, ks: Stream, src: nat, end: nat)
    requires src <= end <= |pb| && pb[src..end] == Xor(now + later, ks, src)
    ensures src + |now| <= end && pb[src..src + |now|] == Xor(now, ks, src)
    ensures pb[src + |now|..end] == Xor(later, ks, src + |now|)
  {
    hide Xor, XorByte;
    XorSplit(now, later, ks, src);
    XorLength(now, later, ks, src);
    assert end - src == |now| + |later|;
    Cut(pb, src, src + |now|, end, Xor(now, ks, src), Xor(later, ks, src + |now|));
  }

  lemma Reorder<T>(a: seq<T>, b: seq<T>, c: seq<T>, d: seq<T>)
    ensures a + (b + c + d) == a + b + c + d
  {
  }

  lemma Unfold(data: seq<u8>, es: seq<SubSample>, base: nat, ks: Stream, j: nat)
    requires es != [] && Fits(es, base, |data|)
    ensures var lo, hi := base + es[0].clear, base + es[0].clear + es[0].protected;
            hi <= |data| && Fits(es[1..], hi, |data|) && Gather(data, es, base) == data[lo..hi] + Gather(data, es[1..], hi) &&
            Plain(data, es, base, ks, j) ==
            data[base..lo] + Xor(data[lo..hi], ks, j) + Plain(data, es[1..], hi, ks, j + es[0].protected)
  {
    hide Xor;
    FitsStep(es, base, |data|);
  }

  lemma XorLength(a: seq<u8>, b: seq<u8>, ks: Stream, j: nat)
    ensures |Xor(a, ks, j)| == |a| && |Xor(b, ks, j + |a|)| == |b|
  {
  }

  lemma Cut(pb: seq<u8>, lo: nat, mid: nat, hi: nat, a: seq<u8>, b: seq<u8>)
    requires lo <= mid <= hi <= |pb| && pb[lo..hi] == a + b && |a| == mid - lo
    ensures pb[lo..mid] == a && pb[mid..hi] == b
  {
    assert pb[lo..mid] == pb[lo..hi][..|a|] && pb[mid..hi] == pb[lo..hi][|a|..];
  }

  lemma ScatterBytes(data: seq<u8>, target: nat, lo: nat, hi: nat, buf: seq<u8>, buf': seq<u8>)
    requires target <= lo <= hi <= |data| == |buf| == |buf'| && buf[target..] == data[target..]
    requires buf'[..lo] == buf[..lo] && buf'[hi..] == buf[hi..]
    ensures buf'[..hi] == buf[..target] + data[target..lo] + buf'[lo..hi] && buf'[hi..] == data[hi..]
  {
    assert buf[..lo] == buf[..target] + buf[target..][..lo - target];
    assert data[target..lo] == data[target..][..lo - target];
    assert buf'[..hi] == buf'[..lo] + buf'[lo..hi];
    assert buf[hi..] == buf[target..][hi - target..] && data[hi..] == data[target..][hi - target..];
  }

  // ----- laws -----

  lemma {:induction false} OrdinalRange(es: seq<SubSample>, base: nat, j: nat, p: nat)
    requires base <= p
    ensures Ordinal(es, base, j, p) == -1 || j <= Ordinal(es, base, j, p) < j + Total(es)
    decreases |es|
  {
    if es != [] && p >= base + es[0].clear + es[0].protected {
      OrdinalRange(es[1..], base + es[0].clear + es[0].protected, j + es[0].protected, p);
    }
  }

  lemma {:induction false} PlainByte(data: seq<u8>, es: seq<SubSample>, base: nat, ks: Stream, j: nat, p: nat)
    requires Fits(es, base, |data|) && base <= p < |data|
    ensures Ordinal(es, base, j, p) >= -1
    ensures var o := Ordinal(es, base, j, p);
            Plain(data, es, base, ks, j)[p - base] == if o == -1 then data[p] else XorByte(data[p], ks(o))
    decreases |es|
  {
    hide XorByte, Xor, Plain, Gather;
    if es == [] {
      Rest(data, base, ks, j);
    } else {
      var lo, hi := base + es[0].clear, base + es[0].clear + es[0].protected;
      Unfold(data, es, base, ks, j);
      if p >= hi {
        PlainByte(data, es[1..], hi, ks, j + es[0].protected, p);
      }
      Pick(data[base..lo], Xor(data[lo..hi], ks, j), Plain(data, es[1..], hi, ks, j + es[0].protected), p - base);
    }
  }

  /** Every byte on its own: a clear byte and the tail are kept, the j-th protected byte meets keystream byte j. */
  lemma PlainAt(data: seq<u8>, es: seq<SubSample>, base: nat, ks: Stream, j: nat, p: nat)
    requires Fits(es, base, |data|) && base <= p < |data|
    ensures Ordinal(es, base, j, p) >= -1
    ensures var o := Ordinal(es, base, j, p);
            Plain(data, es, base, ks, j)[p - base] == if o == -1 then data[p] else data[p] ^ ks(o)
  {
    hide Plain, Fits, Ordinal;
    PlainByte(data, es, base, ks, j, p);
  }

  lemma Rest(data: seq<u8>, base: nat, ks: Stream, j: nat)
    requires base <= |data|
    ensures Fits([], base, |data|) && Plain(data, [], base, ks, j) == data[base..]
  {
  }

  lemma Pick<T>(a: seq<T>, b: seq<T>, c: seq<T>, k: nat)
    requires k < |a| + |b| + |c|
    ensures (a + b + c)[k] == if k < |a| then a[k] else if k < |a| + |b| then b[k - |a|] else c[k - |a| - |b|]
  {
  }

  /** The protected bytes use up the keystream without gap or overlap: each of its bytes meets exactly one of them. */
  lemma {:induction false} OrdinalsAreExact(es: seq<SubSample>, base: nat, n: nat, j: nat, o: nat) returns (p: nat)
    requires Fits(es, base, n) && j <= o < j + Total(es)
    ensures base <= p < n && Ordinal(es, base, j, p) == o
    ensures forall q :: base <= q && Ordinal(es, base, j, q) == o ==> q == p
    decreases |es|
  {
    var lo, hi := base + es[0].clear, base + es[0].clear + es[0].protected;
    FitsStep(es, base, n);
    FitsBase(es[1..], hi, n);
    if o < j + es[0].protected {
      p := lo + (o - j);
    } else {
      p := OrdinalsAreExact(es[1..], hi, n, j + es[0].protected, o);
    }
    forall q: nat | base <= q && Ordinal(es, base, j, q) == o
      ensures q == p
    {
      if q >= hi {
        OrdinalRange(es[1..], hi, j + es[0].protected, q);
      }
    }
  }

  lemma XorTwice(a: u8, k: u8)
    ensures XorByte(XorByte(a, k), k) == a
  {
  }

  /** Decrypting twice with the same key and IV gives the sample back. */
  lemma {:induction false} TwiceIsIdentity(data: seq<u8>, es: seq<SubSample>, ks: Stream)
    requires Fits(es, 0, |data|)
    ensures Plain(Plain(data, es, 0, ks, 0), es, 0, ks, 0) == data
  {
    hide Plain, Fits;
    var once := Plain(data, es, 0, ks, 0);
    var twice := Plain(once, es, 0, ks, 0);
    forall p: nat | p < |data|
      ensures twice[p] == data[p]
    {
      TwiceAt(data, es, ks, p);
    }
  }

  lemma {:induction false} TwiceAt(data: seq<u8>, es: seq<SubSample>, ks: Stream, p: nat)
    requires Fits(es, 0, |data|) && p < |data|
    ensures Plain(Plain(data, es, 0, ks, 0), es, 0, ks, 0)[p] == data[p]
  {
    hide Plain, Fits, Ordinal, XorByte;
    PlainByte(data, es, 0, ks, 0, p);
    PlainByte(Plain(data, es, 0, ks, 0), es, 0, ks, 0, p);
    var o := Ordinal(es, 0, 0, p);
    if o >= 0 {
      XorTwice(data[p], ks(o));
    }
  }

  /** The same for the code: two successful calls leave the buffer as it was. */
  method DecryptTwice(session: ClearKeySession, iv: seq<u8>, buffer: array<u8>, subSampleCount: nat, subs: seq<byte>,
                      ctr: (seq<u8>, seq<u8>) -> Stream) returns (first: int, second: int)
    requires buffer.Length < TWO32 && subSampleCount > 0 && Fits(Entries(subs, subSampleCount), 0, buffer.Length)
    modifies buffer
    ensures first == second && buffer[..] == old(buffer[..])
  {
    hide Plain, Fits, Entries;
    first := session.decrypt(iv, buffer, subSampleCount, subs, true, ctr, Succeeds);
    second := session.decrypt(iv, buffer, subSampleCount, subs, true, ctr, Succeeds);
    if first == 0 {
      TwiceIsIdentity(old(buffer[..]), Entries(subs, subSampleCount), ctr(session.m_keyStr, CounterBlock(iv)));
    }
  }
}
