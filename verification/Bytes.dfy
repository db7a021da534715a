/**
 Big-endian byte fields, as every walker in the repository reads and writes them.
 Values are unbounded integers; ToBE keeps a value modulo 256^n, which is what storing
 a wider (or negative, two's complement) C integer into n bytes does.
 */
module Bytes {

  type byte = b: int | 0 <= b < 256

  const TWO31: int := 0x8000_0000
  const TWO32: int := 0x1_0000_0000
  const TWO64: int := 0x1_0000_0000_0000_0000

  function Pow256(n: nat): (p: int)
    ensures p >= 1
  {
    if n == 0 then 1 else 256 * Pow256(n - 1)
  }

  /** The unsigned number a byte string spells, most significant byte first. */
  function BE(s: seq<byte>): (v: nat)
  {
    if s == [] then 0 else BE(s[..|s| - 1]) * 256 + s[|s| - 1]
  }

  /** The n-byte big-endian image of v modulo 256^n. */
  function ToBE(v: int, n: nat): (s: seq<byte>)
    ensures |s| == n
    decreases n
  {
    if n == 0 then [] else ToBE(v / 256, n - 1) + [v % 256]
  }

  /** The value of a 32-bit word read as a signed integer. */
  function Signed32(u: int): int
  {
    if u < TWO31 then u else u - TWO32
  }

  /** Whether a flag word has the (single-bit) mask set. */
  predicate Bit(flags: nat, mask: nat)
    requires mask > 0
  {
    flags / mask % 2 == 1
  }

  lemma {:induction false} BEBound(s: seq<byte>)
    ensures BE(s) < Pow256(|s|)
  {
    if s != [] {
      BEBound(s[..|s| - 1]);
    }
  }

  lemma {:induction false} SplitMod(v: int, p: int)
    requires p >= 1
    ensures v / 256 % p * 256 + v % 256 == v % (256 * p)
  {
    var q := v / 256;
    var k := q / p;
    assert q == p * k + q % p;
    var r := q % p * 256 + v % 256;
    assert v == 256 * q + v % 256 == 256 * p * k + r by {
      assert 256 * (p * k) == 256 * p * k;
    }
    assert 0 <= r < 256 * p;
    DivModUnique(v, 256 * p, k, r);
  }

  lemma {:induction false} MulDistributes(m: int, a: int, b: int)
    ensures m * (a - b) == m * a - m * b
  {
  }

  lemma {:induction false} MulAtLeast(m: int, t: int)
    requires m >= 1 && t >= 1
    ensures m * t >= m
  {
    MulDistributes(m, t, 1);
  }

  lemma {:induction false} DivModUnique(v: int, m: int, k: int, r: int)
    requires m >= 1 && 0 <= r < m && v == m * k + r
    ensures v % m == r && v / m == k
  {
    var k2, r2 := v / m, v % m;
    assert v == m * k2 + r2 && 0 <= r2 < m;
    MulDistributes(m, k, k2);
    MulDistributes(m, k2, k);
    if k > k2 {
      MulAtLeast(m, k - k2);
    } else if k < k2 {
      MulAtLeast(m, k2 - k);
    }
  }

  /** Storing a value and reading it back leaves it modulo the width of the field. */
  lemma {:induction false} BEOfToBE(v: int, n: nat)
    ensures BE(ToBE(v, n)) == v % Pow256(n)
    decreases n
  {
    if n > 0 {
      BEOfToBE(v / 256, n - 1);
      var s := ToBE(v, n);
      assert s[..n - 1] == ToBE(v / 256, n - 1);
      SplitMod(v, Pow256(n - 1));
    }
  }

  /** Reading a field and storing it back restores the bytes. */
  lemma {:induction false} ToBEOfBE(s: seq<byte>)
    ensures ToBE(BE(s), |s|) == s
  {
    if s != [] {
      var t := s[..|s| - 1];
      ToBEOfBE(t);
      assert (BE(t) * 256 + s[|s| - 1]) / 256 == BE(t);
      assert s == t + [s[|s| - 1]];
    }
  }

  /** Two values with the same residue have the same image. */
  lemma {:induction false} ToBECongruent(v: int, w: int, n: nat)
    requires v % Pow256(n) == w % Pow256(n)
    ensures ToBE(v, n) == ToBE(w, n)
  {
    BEOfToBE(v, n);
    BEOfToBE(w, n);
    ToBEOfBE(ToBE(v, n));
    ToBEOfBE(ToBE(w, n));
  }

  lemma Widths()
    ensures Pow256(0) == 1 && Pow256(1) == 256 && Pow256(2) == 0x1_0000
    ensures Pow256(3) == 0x100_0000 && Pow256(4) == TWO32 && Pow256(8) == TWO64
  {
    assert Pow256(2) == 256 * Pow256(1);
    assert Pow256(3) == 256 * Pow256(2);
    assert Pow256(4) == 256 * Pow256(3);
    assert Pow256(5) == 256 * Pow256(4);
    assert Pow256(6) == 256 * Pow256(5);
    assert Pow256(7) == 256 * Pow256(6);
    assert Pow256(8) == 256 * Pow256(7);
  }

  /** A 32-bit image is its four bytes. */
  lemma {:induction false} ToBE4(v: int)
    ensures ToBE(v, 4) == [v / 0x100_0000 % 256, v / 0x1_0000 % 256, v / 256 % 256, v % 256]
  {
    var a, b, c := v / 256, v / 256 / 256, v / 256 / 256 / 256;
    assert b == v / 0x1_0000 && c == v / 0x100_0000;
    assert ToBE(c, 1) == ToBE(c / 256, 0) + [c % 256] == [c % 256];
    assert ToBE(b, 2) == ToBE(c, 1) + [b % 256] == [c % 256, b % 256];
    assert ToBE(a, 3) == ToBE(b, 2) + [a % 256] == [c % 256, b % 256, a % 256];
  }

  /** Splitting a field off the front of a known run of bytes. */
  lemma {:induction false} TakeField(s: seq<byte>, lo: nat, hi: nat, v: int, n: nat, rest: seq<byte>)
    requires lo <= hi <= |s| && s[lo..hi] == ToBE(v, n) + rest
    ensures lo + n <= hi && s[lo..lo + n] == ToBE(v, n) && s[lo + n..hi] == rest
    ensures BE(s[lo..lo + n]) == v % Pow256(n)
    ensures 0 <= v < Pow256(n) ==> BE(s[lo..lo + n]) == v
  {
    TakeBytes(s, lo, hi, ToBE(v, n), rest);
    BEOfToBE(v, n);
    if 0 <= v < Pow256(n) {
      DivModUnique(v, Pow256(n), 0, v);
    }
  }

  lemma {:induction false} TakeBytes(s: seq<byte>, lo: nat, hi: nat, head: seq<byte>, rest: seq<byte>)
    requires lo <= hi <= |s| && s[lo..hi] == head + rest
    ensures lo + |head| <= hi && s[lo..lo + |head|] == head && s[lo + |head|..hi] == rest
  {
    assert hi - lo == |head| + |rest|;
    assert s[lo..lo + |head|] == s[lo..hi][..|head|];
    assert s[lo + |head|..hi] == s[lo..hi][|head|..];
  }

  lemma ToBE1(v: byte)
    ensures ToBE(v, 1) == [v]
  {
    assert ToBE(v, 1) == ToBE(v / 256, 0) + [v % 256];
  }

  /** Every byte outside [lo, hi) is as it was. */
  ghost predicate SameOutside(was: seq<byte>, now: seq<byte>, lo: nat, hi: nat)
  {
    |was| == |now| && forall i :: 0 <= i < |was| && !(lo <= i < hi) ==> now[i] == was[i]
  }

  lemma SameOutsideTrans(a: seq<byte>, b: seq<byte>, c: seq<byte>, lo: nat, hi: nat, from: nat, to: nat)
    requires SameOutside(a, b, lo, hi) && SameOutside(b, c, from, to) && lo <= from && to <= hi
    ensures SameOutside(a, c, lo, hi)
  {
  }

  lemma Unchanged(s: seq<byte>, lo: nat, hi: nat)
    ensures SameOutside(s, s, lo, hi)
  {
  }

  lemma SubSlice(s: seq<byte>, lo: nat, hi: nat, from: nat, to: nat)
    requires lo <= hi <= |s| && from <= to <= hi - lo
    ensures s[lo..hi][from..to] == s[lo + from..lo + to]
  {
    var a, b := s[lo..hi][from..to], s[lo + from..lo + to];
    assert |a| == |b| && forall i :: 0 <= i < |a| ==> a[i] == b[i];
  }

  lemma {:induction false} SliceOutside(was: seq<byte>, now: seq<byte>, lo: nat, hi: nat, a: nat, b: nat)
    requires SameOutside(was, now, lo, hi) && a <= b <= |was| && (b <= lo || hi <= a)
    ensures now[a..b] == was[a..b]
  {
  }

  lemma Glue(s: seq<byte>, lo: nat, at: nat, next: nat, hi: nat)
    requires lo <= at <= next <= hi <= |s|
    ensures s[lo..hi] == (s[lo..at] + s[at..next]) + s[next..hi]
  {
  }

  lemma Glue2(s: seq<byte>, lo: nat, at: nat, hi: nat)
    requires lo <= at <= hi <= |s|
    ensures s[lo..hi] == s[lo..at] + s[at..hi]
  {
  }
}
