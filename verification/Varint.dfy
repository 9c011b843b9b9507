/** The protocol's variable-length integer (unsigned LEB128, section 7.6 of DWARF Version 4) and
    the two readers of the repository: the client's 64-bit one and the server's, which shifts in
    a 32-bit `int`.
 */
module Varint {
  import opened Bytes

  function Pow128(k: nat): (p: nat)
    ensures p >= 1
  {
    if k == 0 then 1 else 0x80 * Pow128(k - 1)
  }

  /** The encoding of a value. */
  function Encode(v: nat): (r: seq<byte>)
    ensures |r| >= 1
  {
    if v <= 0x7F then [v] else [0x80 + v % 0x80] + Encode(v / 0x80)
  }

  /** Number of bytes up to and including the first with a clear top bit; 0 when there is none. */
  function Extent(s: seq<byte>): (n: nat)
    ensures n <= |s|
  {
    if s == [] then 0
    else if s[0] < 0x80 then 1
    else var n := Extent(s[1..]); if n == 0 then 0 else n + 1
  }

  /** The base-128 value of a byte group, least significant first, top bits ignored. */
  function Value(s: seq<byte>): (v: nat) {
    if s == [] then 0 else s[0] % 0x80 + 0x80 * Value(s[1..])
  }

  /** Outcome of the client's reader: a value and its length; an input that ends before the
      terminator; or an eleventh byte, whose shift count exceeds the accumulator's width, which
      the language leaves undefined. */
  datatype ReadResult = Got(value: u64, len: nat) | Ends | TooLong

  function ClientRead(s: seq<byte>): (r: ReadResult)
    ensures r.Got? ==> 1 <= r.len <= |s|
  {
    var n := Extent(s);
    if 1 <= n <= 10 then Got(Value(s[..n]) % TWO64, n)
    else if n == 0 && |s| <= 10 then Ends
    else TooLong
  }

  /** The server's accumulator after the group `s`: each septet is shifted in a 32-bit `int` and
      the (possibly negative) result added to a 64-bit sum. */
  function ServerValue(s: seq<byte>): (v: u64) {
    if s == [] then 0
    else
      var k := |s| - 1;
      (ServerValue(s[..k]) + Int32(s[k] % 0x80 * Pow128(k))) % TWO64
  }

  /** Outcome of the server's reader, which checks no bound.  `Ends`: it would read past the
      message; `TooLong`: a shift count reaches the width of `int` (sixth byte on), which the
      language leaves undefined. */
  function ServerRead(s: seq<byte>): (r: ReadResult)
    ensures r.Got? ==> 1 <= r.len <= |s|
  {
    var n := Extent(s);
    if 1 <= n <= 5 then Got(ServerValue(s[..n]), n)
    else if n == 0 && |s| <= 5 then Ends
    else TooLong
  }

  // ---------------------------------------------------------------------------------------------
  // Encoding

  lemma {:induction false} EncodeExtent(v: nat, rest: seq<byte>)
    ensures Extent(Encode(v) + rest) == |Encode(v)|
    ensures Value(Encode(v)) == v
  {
    var e := Encode(v);
    if v > 0x7F {
      EncodeExtent(v / 0x80, rest);
      assert (e + rest)[1..] == Encode(v / 0x80) + rest;
      assert e[1..] == Encode(v / 0x80);
    }
  }

  lemma {:induction false} EncodeUnfold(done: seq<byte>, v: nat)
    requires v > 0x7F
    ensures |Encode(v)| == 1 + |Encode(v / 0x80)|
    ensures done + Encode(v) == done + [0x80 + v % 0x80] + Encode(v / 0x80)
  {
  }

  /** Seven value bits a byte: the length is max(1, ceil(bits / 7)). */
  lemma {:induction false} EncodeLength(v: nat, k: nat)
    requires k >= 1
    ensures |Encode(v)| <= k <==> v < Pow128(k)
  {
    if k == 1 {
      assert Pow128(1) == 0x80 * Pow128(0);
    } else if v > 0x7F {
      EncodeLength(v / 0x80, k - 1);
    } else {
      assert Pow128(k) >= 0x80;
    }
  }

  lemma {:induction false} Pow128Mono(i: nat, j: nat)
    requires i <= j
    ensures Pow128(i) <= Pow128(j)
  {
    if i < j {
      Pow128Mono(i, j - 1);
    }
  }

  lemma {:induction false} Pow128Values()
    ensures Pow128(1) == 0x80 && Pow128(2) == 0x4000 && Pow128(4) == 0x1000_0000
    ensures Pow128(5) == 0x8_0000_0000 && Pow128(9) == 0x8000_0000_0000_0000
    ensures Pow128(10) >= TWO64
  {
    assert Pow128(1) == 0x80 * Pow128(0);
    assert Pow128(3) == 0x80 * Pow128(2);
    assert Pow128(5) == 0x80 * Pow128(4);
    assert Pow128(7) == 0x80 * Pow128(6);
    assert Pow128(9) == 0x80 * Pow128(8);
    assert Pow128(10) == 0x80 * Pow128(9);
  }

  /** Every 64-bit value takes at most ten bytes and comes back unchanged through the client. */
  lemma {:induction false} ClientRoundTrip(v: u64, rest: seq<byte>)
    ensures |Encode(v)| <= 10
    ensures ClientRead(Encode(v) + rest) == Got(v, |Encode(v)|)
  {
    Pow128Values();
    EncodeLength(v, 10);
    EncodeExtent(v, rest);
    assert (Encode(v) + rest)[..|Encode(v)|] == Encode(v);
  }

  // ---------------------------------------------------------------------------------------------
  // Reading a byte at a time

  /** Appending one septet at the top. */
  lemma {:induction false} ValueSnoc(s: seq<byte>, b: byte)
    ensures Value(s + [b]) == Value(s) + b % 0x80 * Pow128(|s|)
  {
    if s == [] {
      assert [b][1..] == [];
    } else {
      ValueSnoc(s[1..], b);
      assert (s + [b])[1..] == s[1..] + [b];
      var x, p := b % 0x80, Pow128(|s| - 1);
      assert 0x80 * (x * p) == x * (0x80 * p);
    }
  }

  lemma {:induction false} ValueBound(s: seq<byte>)
    ensures Value(s) < Pow128(|s|)
  {
    if s != [] {
      ValueBound(s[1..]);
    }
  }

  /** A run of continuation bytes is not yet the end of a group. */
  lemma {:induction false} ExtentPrefix(s: seq<byte>, k: nat)
    requires k <= |s| && forall i :: 0 <= i < k ==> s[i] >= 0x80
    ensures Extent(s) == if Extent(s[k..]) == 0 then 0 else k + Extent(s[k..])
  {
    if k == 0 {
      assert s[0..] == s;
    } else {
      ExtentPrefix(s[1..], k - 1);
      assert s[1..][k - 1..] == s[k..];
    }
  }

  // ---------------------------------------------------------------------------------------------
  // The server's reader

  /** Below 2^31 the 32-bit shifts lose nothing. */
  lemma {:induction false} ServerValueExact(s: seq<byte>)
    requires |s| <= 5 && Value(s) < TWO31
    ensures ServerValue(s) == Value(s)
  {
    if s != [] {
      var k := |s| - 1;
      var t := ServerValueExactInit(s);
      hide Value, ServerValue, Pow128;
      ServerValueExact(s[..k]);
      ExactSum(Value(s[..k]), t);
    }
  }

  /** The last septet's contribution to both readings. */
  lemma {:induction false} ServerValueExactInit(s: seq<byte>) returns (t: nat)
    requires s != []
    ensures var k := |s| - 1;
            Value(s) == Value(s[..k]) + t && ServerValue(s) == (ServerValue(s[..k]) + Int32(t)) % TWO64
  {
    var k := |s| - 1;
    t := s[k] % 0x80 * Pow128(k);
    assert s == s[..k] + [s[k]];
    ValueSnoc(s[..k], s[k]);
    hide Value, Pow128;
  }

  lemma {:induction false} ExactSum(v: nat, t: nat)
    requires v + t < TWO31
    ensures (v + Int32(t)) % TWO64 == v + t
  {
  }

  lemma {:induction false} ServerFourBytes(s: seq<byte>)
    requires |s| == 4
    ensures ServerValue(s) == Value(s) < 0x1000_0000
  {
    Pow128Values();
    ValueBound(s);
    ServerValueExact(s);
  }

  lemma {:induction false} TopSeptet(low: nat, x: int)
    requires low < 0x1000_0000 && 8 <= x < 0x80
    ensures (low + Int32(x * 0x1000_0000)) % TWO64 != low + x * 0x1000_0000
  {
    var q, r := x / 16, x % 16;
    assert x * 0x1000_0000 == q * TWO32 + r * 0x1000_0000;
    assert x * 0x1000_0000 % TWO32 == r * 0x1000_0000;
  }

  /** From 2^31 on the fifth septet's shift reaches the sign bit or falls off the `int`. */
  lemma {:induction false} ServerFiveBytes(e: seq<byte>)
    requires |e| == 5 && Value(e) >= TWO31
    ensures ServerValue(e) != Value(e)
  {
    Pow128Values();
    ServerFourBytes(e[..4]);
    assert e == e[..4] + [e[4]];
    ValueSnoc(e[..4], e[4]);
    TopSeptet(Value(e[..4]), e[4] % 0x80);
  }

  /** The server recovers exactly the values below 2^31. */
  lemma {:induction false} ServerRoundTrip(v: u64, rest: seq<byte>)
    ensures ServerRead(Encode(v) + rest) == Got(v, |Encode(v)|) <==> v < TWO31
  {
    var e := Encode(v);
    EncodeExtent(v, rest);
    assert (e + rest)[..|e|] == e;
    Pow128Values();
    EncodeLength(v, 5);
    EncodeLength(v, 4);
    if v < TWO31 {
      ServerValueExact(e);
    } else if |e| <= 5 {
      ServerFiveBytes(e);
    }
  }

  // ---------------------------------------------------------------------------------------------
  // The server's encoder

  /** `(uint8_t)(v | 0x80)`. */
  function OrTop(v: u64): byte {
    var low := v % 0x100;
    if low >= 0x80 then low else low + 0x80
  }

  lemma {:induction false} Septet(v: int, k: int, low: int)
    requires v == 0x80 * k + low && 0 <= low < 0x80
    ensures v % 0x80 == low
  {
  }

  lemma {:induction false} OrTopIsContinuation(v: u64)
    ensures OrTop(v) == 0x80 + v % 0x80
  {
    var q: int, low: int := v / 0x100, v % 0x100;
    var h := if low >= 0x80 then 1 else 0;
    Septet(v, 2 * q + h, low - 0x80 * h);
  }

  lemma {:induction false} EncodeStep(done: seq<byte>, v: u64)
    requires v >= 0x80
    ensures done + [OrTop(v)] + Encode(v / 0x80) == done + Encode(v)
  {
    OrTopIsContinuation(v);
    EncodeUnfold(done, v);
    hide OrTop, Encode;
  }

  /** `encode_varint`: the loop tests `>= 0x80` and lets the byte conversion drop the high bits. */
  method EncodeVarint(value: u64) returns (result: seq<byte>)
    ensures result == Encode(value)
  {
    result := [];
    var v: u64 := value;
    while v >= 0x80
      invariant result + Encode(v) == Encode(value)
      decreases v
    {
      EncodeStep(result, v);
      result := result + [OrTop(v)];
      v := v / 0x80;
    }
    result := result + [v];
  }

  /** `process_incoming_varint` at `offset`: the value and the number of bytes consumed. */
  method ProcessIncomingVarint(data: seq<byte>, offset: nat) returns (r: ReadResult)
    requires offset <= |data|
    ensures r == ServerRead(data[offset..])
  {
    ghost var s := data[offset..];
    var value: u64 := 0;
    var index := 0;
    while true
      invariant 0 <= index <= 5 && index <= |s|
      invariant forall i :: 0 <= i < index ==> s[i] >= 0x80
      invariant value == ServerValue(s[..index])
      decreases 5 - index
    {
      ReadStep(s, index);
      if offset + index >= |data| {
        return Ends;
      }
      if index == 5 {
        return TooLong;
      }
      var b := data[offset + index];
      assert b == s[index];
      value := (value + Int32(b % 0x80 * Pow128(index))) % TWO64;
      if b < 0x80 {
        return Got(value, index + 1);
      }
      index := index + 1;
    }
  }

  /** What one more byte tells the server's reader. */
  lemma {:induction false} ReadStep(s: seq<byte>, k: nat)
    requires k <= |s| && forall i :: 0 <= i < k ==> s[i] >= 0x80
    requires k <= 5
    ensures k == |s| ==> ServerRead(s).Ends?
    ensures k == 5 < |s| ==> ServerRead(s).TooLong?
    ensures k < |s| ==> ServerValue(s[..k + 1]) == (ServerValue(s[..k]) + Int32(s[k] % 0x80 * Pow128(k))) % TWO64
    ensures k < 5 && k < |s| && s[k] < 0x80 ==> ServerRead(s) == Got(ServerValue(s[..k + 1]), k + 1)
  {
    ExtentPrefix(s, k);
    if k < |s| {
      assert s[..k + 1][..k] == s[..k];
      assert s[k..][0] == s[k];
    }
  }
}
