/** Bytes, fixed-width integers and their little-endian images.

    C integers are modelled as subset types of `int`.  Masks and shifts are written as the
    arithmetic they denote: `x & 0x7F` is `x % 0x80`, `x >> 7` is `x / 0x80`, and an OR of
    disjoint bit ranges is a sum.  Truncating conversions are written out with `%`.
 */
module Bytes {
  const TWO31: int := 0x8000_0000
  const TWO32: int := 0x1_0000_0000
  const TWO64: int := 0x1_0000_0000_0000_0000

  type byte = x: int | 0 <= x < 0x100
  type u32 = x: int | 0 <= x < 0x1_0000_0000
  type u64 = x: int | 0 <= x < 0x1_0000_0000_0000_0000

  /** A C string: its bytes up to, and not including, the terminating NUL. */
  type CString = s: seq<byte> | 0 !in s

  datatype Option<+T> = None | Some(value: T)

  /** Conversion of an unsigned value to a 32-bit `int`. */
  function Int32(x: nat): int {
    var y := x % TWO32;
    if y < TWO31 then y else y - TWO32
  }

  /** Conversion of an `int` to `uint64_t` (sign extension). */
  function ToU64(x: int): u64
    requires -TWO31 <= x < TWO31
  {
    if x >= 0 then x else x + TWO64
  }

  /** The conversion to `int` is the one value of that range that differs by a multiple of 2^32... */
  lemma {:induction false} Int32Is(x: nat, y: int)
    ensures y == Int32(x) <==> -TWO31 <= y < TWO31 && (x - y) % TWO32 == 0
  {
    var z := Int32(x);
    assert x - z == x / TWO32 * TWO32 + if x % TWO32 < TWO31 then 0 else TWO32;
    if -TWO31 <= y < TWO31 && (x - y) % TWO32 == 0 {
      SameRest(x - y, x - z);
    }
  }

  lemma {:induction false} SameRest(a: int, b: int)
    requires a % TWO32 == 0 && b % TWO32 == 0 && -TWO32 < a - b < TWO32
    ensures a == b
  {
  }

  /** ...and that from `int` keeps what is not negative, and counts down from 2^64 for what is. */
  lemma {:induction false} ToU64Is(x: int)
    requires -TWO31 <= x < TWO31
    ensures x >= 0 ==> ToU64(x) == x
    ensures x < 0 ==> ToU64(x) == TWO64 - -x
  {
  }

  /** The `k` low bytes of `v`, least significant first. */
  function LE(v: nat, k: nat): (r: seq<byte>)
    ensures |r| == k
  {
    if k == 0 then [] else [v % 0x100] + LE(v / 0x100, k - 1)
  }

  function FromLE(s: seq<byte>): (v: nat) {
    if s == [] then 0 else s[0] + 0x100 * FromLE(s[1..])
  }

  function Pow256(k: nat): (p: nat)
    ensures p >= 1
  {
    if k == 0 then 1 else 0x100 * Pow256(k - 1)
  }

  lemma {:induction false} LERoundTrip(v: nat, k: nat)
    requires v < Pow256(k)
    ensures FromLE(LE(v, k)) == v
  {
    if k > 0 {
      LERoundTrip(v / 0x100, k - 1);
    }
  }

  lemma {:induction false} Pow256Values()
    ensures Pow256(4) == TWO32 && Pow256(8) == TWO64
  {
    assert Pow256(2) == 0x1_0000;
    assert Pow256(4) == 0x1_0000 * 0x1_0000;
    assert Pow256(6) == 0x1_0000 * Pow256(4);
  }

  /** Four explicit bytes, as the C code writes them, are the little-endian image. */
  lemma {:induction false} LE4(v: nat)
    ensures LE(v, 4) == [v % 0x100, v / 0x100 % 0x100, v / 0x1_0000 % 0x100, v / 0x100_0000 % 0x100]
  {
    var a := v / 0x100;
    var b := a / 0x100;
    var c := b / 0x100;
    assert b == v / 0x1_0000 && c == v / 0x100_0000;
    assert LE(c, 1) == [c % 0x100] + LE(c / 0x100, 0);
    assert LE(b, 2) == [b % 0x100] + LE(c, 1);
    assert LE(a, 3) == [a % 0x100] + LE(b, 2);
  }

  lemma {:induction false} LESplit(v: nat)
    ensures LE(v, 8) == LE(v, 4) + LE(v / TWO32, 4)
  {
    var a := v / 0x100;
    var b := a / 0x100;
    var c := b / 0x100;
    var d := c / 0x100;
    assert d == v / TWO32;
    assert LE(c, 5) == [c % 0x100] + LE(d, 4) && LE(c, 1) == [c % 0x100] + LE(d, 0);
    assert LE(b, 6) == [b % 0x100] + LE(c, 5) && LE(b, 2) == [b % 0x100] + LE(c, 1);
    assert LE(a, 7) == [a % 0x100] + LE(b, 6) && LE(a, 3) == [a % 0x100] + LE(b, 2);
    assert LE(v, 8) == [v % 0x100] + LE(a, 7) && LE(v, 4) == [v % 0x100] + LE(a, 3);
  }

  lemma {:induction false} FromLE4(s: seq<byte>)
    requires |s| == 4
    ensures FromLE(s) == s[0] + 0x100 * s[1] + 0x1_0000 * s[2] + 0x100_0000 * s[3] < TWO32
  {
    assert s[1..][1..] == s[2..] && s[2..][1..] == s[3..] && s[3..][1..] == [];
    assert FromLE(s[3..]) == s[3];
    assert FromLE(s[2..]) == s[2] + 0x100 * FromLE(s[3..]);
    assert FromLE(s[1..]) == s[1] + 0x100 * FromLE(s[2..]);
  }

  lemma {:induction false} FromLESplit(s: seq<byte>)
    requires |s| == 8
    ensures FromLE(s) == FromLE(s[..4]) + TWO32 * FromLE(s[4..]) < TWO64
  {
    FromLE4(s[..4]);
    FromLE4(s[4..]);
    assert s[3..][1..] == s[4..];
    assert s[1..][1..] == s[2..] && s[2..][1..] == s[3..];
    assert FromLE(s[3..]) == s[3] + 0x100 * FromLE(s[4..]);
    assert FromLE(s[2..]) == s[2] + 0x100 * FromLE(s[3..]);
    assert FromLE(s[1..]) == s[1] + 0x100 * FromLE(s[2..]);
  }

  function U32At(s: seq<byte>): (v: u32)
    requires |s| >= 4
  {
    FromLE4(s[..4]);
    FromLE(s[..4])
  }

  function U64At(s: seq<byte>): (v: u64)
    requires |s| >= 8
  {
    FromLESplit(s[..8]);
    FromLE(s[..8])
  }

  /** Dropping what was put in front. */
  lemma {:induction false} DropFront<T>(a: seq<T>, b: seq<T>)
    ensures (a + b)[|a|..] == b
  {
  }

  lemma {:induction false} DropTwice<T>(s: seq<T>, i: nat, j: nat)
    requires i + j <= |s|
    ensures s[i..][j..] == s[i + j..]
  {
  }

  lemma {:induction false} Assoc<T>(a: seq<T>, b: seq<T>, c: seq<T>)
    ensures a + b + c == a + (b + c)
  {
  }

  /** Dropping from the front of what something was appended to. */
  lemma {:induction false} DropAppend<T>(a: seq<T>, b: seq<T>, n: nat)
    requires n <= |a|
    ensures (a + b)[n..] == a[n..] + b
  {
  }

  /** A part of a part. */
  lemma {:induction false} SliceSlice<T>(s: seq<T>, lo: nat, hi: nat, i: nat, j: nat)
    requires lo <= hi <= |s| && i <= j <= hi - lo
    ensures s[lo..hi][i..j] == s[lo + i..lo + j]
  {
    var a, b := s[lo..hi][i..j], s[lo + i..lo + j];
    forall k | 0 <= k < j - i ensures a[k] == b[k] {
      assert s[lo..hi][i + k] == s[lo + i + k];
    }
  }

  lemma {:induction false} DropTake<T>(s: seq<T>, i: nat, n: nat)
    requires i + n <= |s|
    ensures s[i..][..n] == s[i..i + n]
  {
    var a, b := s[i..][..n], s[i..i + n];
    forall k | 0 <= k < n ensures a[k] == b[k] {
      assert s[i..][k] == s[i + k];
    }
  }

  /** Two parts next to each other. */
  lemma {:induction false} SliceJoin<T>(s: seq<T>, lo: nat, mid: nat, hi: nat)
    requires lo <= mid <= hi <= |s|
    ensures s[lo..hi] == s[lo..mid] + s[mid..hi]
  {
    var a, k := s[lo..hi], mid - lo;
    assert a == a[..k] + a[k..];
    SliceSlice(s, lo, hi, 0, k);
    SliceSlice(s, lo, hi, k, hi - lo);
  }
}
