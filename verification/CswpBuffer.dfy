/** The client's message buffer: a fixed byte array with a write mark `used` and a cursor `pos`.
    Writers append at the cursor, readers advance it.
 */
module CswpBuffer {
  import opened Bytes
  import Varint
  import Fields

  const CSWP_SUCCESS := 0x0
  const CSWP_BUFFER_FULL := 0x10
  const CSWP_BUFFER_EMPTY := 0x11
  const CSWP_OUTPUT_BUFFER_OVERFLOW := 0x12

  /** Outcome of appending `bytes` to `before` in a buffer of `cap` bytes by a writer that may be
      made of several puts: it succeeds exactly when everything fits; otherwise it reports a full
      buffer and may leave a prefix behind. */
  ghost predicate PutOutcome(before: seq<byte>, after: seq<byte>, cap: nat, bytes: seq<byte>, res: int) {
    && (res == CSWP_SUCCESS <==> |before| + |bytes| <= cap)
    && (res == CSWP_SUCCESS ==> after == before + bytes)
    && (res != CSWP_SUCCESS ==> res == CSWP_BUFFER_FULL && before <= after <= before + bytes && |after| <= cap)
  }

  /** Two writers one after the other, the second skipped after a failure, are one writer. */
  lemma {:induction false} PutThen(before: seq<byte>, mid: seq<byte>, after: seq<byte>, cap: nat, a: seq<byte>,
          b: seq<byte>, r: int, res: int)
    requires PutOutcome(before, mid, cap, a, r)
    requires if r == CSWP_SUCCESS then PutOutcome(mid, after, cap, b, res) else after == mid && res == r
    ensures PutOutcome(before, after, cap, a + b, res)
  {
    assert before + (a + b) == (before + a) + b;
  }

  class Buffer {
    const buf: array<byte>
    var used: nat
    var pos: nat

    ghost predicate Valid()
      reads this
    {
      pos <= used <= buf.Length
    }

    /** At the end of the data, where the writers work. */
    ghost predicate Appending()
      reads this
    {
      Valid() && pos == used
    }

    ghost function Contents(): (s: seq<byte>)
      requires Valid()
      reads this, buf
    {
      buf[..used]
    }

    ghost function Unread(): (s: seq<byte>)
      requires Valid()
      reads this, buf
    {
      buf[pos..used]
    }

    /** `cswp_buffer_alloc`. */
    constructor (size: nat)
      ensures Valid() && fresh(buf) && buf.Length == size && used == 0 && pos == 0
    {
      buf := new byte[size](_ => 0);
      used, pos := 0, 0;
    }

    method Clear()
      modifies this
      ensures Appending() && Contents() == []
    {
      used, pos := 0, 0;
    }

    method Seek(p: nat)
      requires p <= used <= buf.Length
      modifies this`pos
      ensures Valid() && pos == p
    {
      pos := p;
    }

    /** The contents from a position on. */
    lemma {:induction false} ContentsFrom(n: nat)
      requires Valid() && n <= used
      ensures buf[n..used] == Contents()[n..]
    {
      SliceSlice(buf[..], 0, used, n, used);
      assert buf[..used] == buf[..][0..used] && buf[n..used] == buf[..][n..used];
    }

    /** What is unread behind bytes that were read. */
    lemma {:induction false} UnreadBehind(from: nat, s: seq<byte>)
      requires Valid() && from <= pos && s == buf[from..used]
      ensures Unread() == s[pos - from..]
    {
      SliceSlice(buf[..], from, used, pos - from, used - from);
      assert s == buf[..][from..used] && buf[pos..used] == buf[..][pos..used];
    }

    // -------------------------------------------------------------------------------------------
    // Writers

    method PutUint8(val: byte) returns (res: int)
      requires Appending()
      modifies this, buf
      ensures Appending() && PutOutcome(old(Contents()), Contents(), buf.Length, Fields.Put(Fields.F8(val)), res)
      ensures res != CSWP_SUCCESS ==> Contents() == old(Contents())
    {
      if buf.Length - used < 1 {
        return CSWP_BUFFER_FULL;
      }
      buf[pos] := val;
      pos := pos + 1;
      used := pos;
      return CSWP_SUCCESS;
    }

    method PutUint32(val: u32) returns (res: int)
      requires Appending()
      modifies this, buf
      ensures Appending() && PutOutcome(old(Contents()), Contents(), buf.Length, Fields.Put(Fields.F32(val)), res)
      ensures res != CSWP_SUCCESS ==> Contents() == old(Contents())
    {
      if buf.Length - used < 4 {
        return CSWP_BUFFER_FULL;
      }
      LE4(val);
      Write4(val);
      used := pos;
      return CSWP_SUCCESS;
    }

    /** The four `PUT_BYTE`s both integer writers are made of. */
    method Write4(val: nat)
      requires pos + 4 <= buf.Length
      modifies this`pos, buf
      ensures pos == old(pos) + 4
      ensures buf[..pos] == old(buf[..pos]) + LE(val, 4)
    {
      LE4(val);
      buf[pos] := val % 0x100;
      buf[pos + 1] := val / 0x100 % 0x100;
      buf[pos + 2] := val / 0x1_0000 % 0x100;
      buf[pos + 3] := val / 0x100_0000 % 0x100;
      pos := pos + 4;
    }

    method PutUint64(val: u64) returns (res: int)
      requires Appending()
      modifies this, buf
      ensures Appending() && PutOutcome(old(Contents()), Contents(), buf.Length, Fields.Put(Fields.F64(val)), res)
      ensures res != CSWP_SUCCESS ==> Contents() == old(Contents())
    {
      hide LE;
      if buf.Length - used < 8 {
        return CSWP_BUFFER_FULL;
      }
      LESplit(val);
      Write4(val);
      Write4(val / TWO32);
      used := pos;
      return CSWP_SUCCESS;
    }

    method PutVarint(val: u64) returns (res: int)
      requires Appending()
      modifies this, buf
      ensures Appending() && PutOutcome(old(Contents()), Contents(), buf.Length, Fields.Put(Fields.FVar(val)), res)
      ensures res != CSWP_SUCCESS ==> Contents() == old(Contents())
    {
      ghost var enc := Varint.Encode(val);
      var rq, tmp := 1, val;
      while tmp > 0x7F
        invariant rq - 1 + |Varint.Encode(tmp)| == |enc|
        decreases tmp
      {
        rq := rq + 1;
        tmp := tmp / 0x80;
      }
      if buf.Length - used < rq {
        return CSWP_BUFFER_FULL;
      }
      WriteVarint(val);
      used := pos;
      return CSWP_SUCCESS;
    }

    /** The byte loop of the varint writer. */
    method WriteVarint(val: u64)
      requires pos + |Varint.Encode(val)| <= buf.Length
      modifies this`pos, buf
      ensures pos == old(pos) + |Varint.Encode(val)|
      ensures buf[..pos] == old(buf[..pos]) + Varint.Encode(val)
    {
      ghost var goal := buf[..pos] + Varint.Encode(val);
      var v: u64 := val;
      while v > 0x7F
        invariant pos + |Varint.Encode(v)| == |goal| <= buf.Length
        invariant buf[..pos] + Varint.Encode(v) == goal
        decreases v
      {
        Varint.EncodeUnfold(buf[..pos], v);
        hide Varint.Encode;
        ghost var done := buf[..pos];
        buf[pos] := 0x80 + v % 0x80;
        pos := pos + 1;
        assert buf[..pos] == done + [0x80 + v % 0x80];
        v := v / 0x80;
      }
      ghost var done := buf[..pos];
      buf[pos] := v;
      pos := pos + 1;
      assert buf[..pos] == done + [v];
    }

    /** A string whose length fits but whose bytes do not leaves its length behind. */
    method PutString(str: CString) returns (res: int)
      requires Appending() && |str| < TWO64
      modifies this, buf
      ensures Appending() && PutOutcome(old(Contents()), Contents(), buf.Length, Fields.Put(Fields.FStr(str)), res)
      ensures res != CSWP_SUCCESS ==>
                var len := Varint.Encode(|str|);
                Contents() == old(Contents()) + if old(used) + |len| <= buf.Length then len else []
    {
      ghost var before := Contents();
      res := PutVarint(|str|);
      ghost var mid, r := Contents(), res;
      if res == CSWP_SUCCESS {
        res := PutData(str);
      }
      PutThen(before, mid, Contents(), buf.Length, Varint.Encode(|str|), str, r, res);
    }

    method PutData(data: seq<byte>) returns (res: int)
      requires Appending()
      modifies this, buf
      ensures Appending() && PutOutcome(old(Contents()), Contents(), buf.Length, Fields.Put(Fields.FData(data)), res)
      ensures res != CSWP_SUCCESS ==> Contents() == old(Contents())
    {
      if buf.Length - used < |data| {
        return CSWP_BUFFER_FULL;
      }
      CopyIn(pos, data);
      pos := pos + |data|;
      used := pos;
      return CSWP_SUCCESS;
    }

    /** `memcpy` into the buffer. */
    method CopyIn(at: nat, data: seq<byte>)
      requires at + |data| <= buf.Length
      modifies buf
      ensures buf[..] == old(buf[..at]) + data + old(buf[at + |data|..])
    {
      for i := 0 to |data|
        invariant buf[..at] == old(buf[..at]) && buf[at..at + i] == data[..i]
        invariant buf[at + |data|..] == old(buf[at + |data|..])
      {
        buf[at + i] := data[i];
      }
      assert buf[..] == buf[..at] + buf[at..at + |data|] + buf[at + |data|..];
    }

    // -------------------------------------------------------------------------------------------
    // Readers

    method GetUint8() returns (res: int, val: byte)
      requires Valid()
      modifies this`pos
      ensures Valid()
      ensures var g := Fields.Get(Fields.Client, Fields.K8, old(Unread()));
              if g.Item? then res == CSWP_SUCCESS && Fields.F8(val) == g.field && pos == old(pos) + g.len
              else res == CSWP_BUFFER_EMPTY && pos == old(pos)
    {
      if used - pos < 1 {
        return CSWP_BUFFER_EMPTY, 0;
      }
      val := buf[pos];
      pos := pos + 1;
      return CSWP_SUCCESS, val;
    }

    method GetUint32() returns (res: int, val: u32)
      requires Valid()
      modifies this`pos
      ensures Valid()
      ensures var g := Fields.Get(Fields.Client, Fields.K32, old(Unread()));
              if g.Item? then res == CSWP_SUCCESS && Fields.F32(val) == g.field && pos == old(pos) + g.len
              else res == CSWP_BUFFER_EMPTY && pos == old(pos)
    {
      if used - pos < 4 {
        return CSWP_BUFFER_EMPTY, 0;
      }
      assert Unread()[..4] == buf[pos..pos + 4];
      val := Read4();
      return CSWP_SUCCESS, val;
    }

    method Read4() returns (val: u32)
      requires pos + 4 <= buf.Length
      modifies this`pos
      ensures pos == old(pos) + 4 && val == FromLE(buf[old(pos)..pos])
    {
      FromLE4(buf[pos..pos + 4]);
      var b0: int, b1: int, b2: int, b3: int := buf[pos], buf[pos + 1], buf[pos + 2], buf[pos + 3];
      val := b0 + 0x100 * b1 + 0x1_0000 * b2 + 0x100_0000 * b3;
      pos := pos + 4;
    }

    method GetUint64() returns (res: int, val: u64)
      requires Valid()
      modifies this`pos
      ensures Valid()
      ensures var g := Fields.Get(Fields.Client, Fields.K64, old(Unread()));
              if g.Item? then res == CSWP_SUCCESS && Fields.F64(val) == g.field && pos == old(pos) + g.len
              else res == CSWP_BUFFER_EMPTY && pos == old(pos)
    {
      if used - pos < 8 {
        return CSWP_BUFFER_EMPTY, 0;
      }
      ghost var s := buf[pos..pos + 8];
      assert Unread()[..8] == s && s[..4] == buf[pos..pos + 4] && s[4..] == buf[pos + 4..pos + 8];
      FromLESplit(s);
      var low := Read4();
      var high := Read4();
      val := low + TWO32 * high;
      return CSWP_SUCCESS, val;
    }

    /** An input that ends inside the group leaves the cursor at its end.  The caller must not
        offer more than ten bytes without a terminator. */
    method GetVarint() returns (res: int, val: u64)
      requires Valid() && !Varint.ClientRead(Unread()).TooLong?
      modifies this`pos
      ensures Valid()
      ensures var g := Varint.ClientRead(old(Unread()));
              if g.Got? then res == CSWP_SUCCESS && val == g.value && pos == old(pos) + g.len
              else res == CSWP_BUFFER_EMPTY && pos == used
    {
      hide Varint.Pow128;
      ghost var s := Unread();
      var v: u64 := 0;
      var k := 0;
      while true
        invariant Valid() && used == old(used) && k <= 10 && pos == old(pos) + k
        invariant forall i :: 0 <= i < k ==> s[i] >= 0x80
        invariant v == Varint.Value(s[..k]) % TWO64
        decreases 10 - k
      {
        Varint.ExtentPrefix(s, k);
        if used - pos < 1 {
          return CSWP_BUFFER_EMPTY, 0;
        }
        var b := buf[pos];
        assert b == s[k] && s[k..][0] == b;
        assert k < 10;
        assert s[..k + 1] == s[..k] + [b];
        SeptetFits(s[..k], b);
        // v |= (b & 0x7F) << 7k: the bits below are clear, so the OR is a sum
        v := v + b % 0x80 * Varint.Pow128(k) % TWO64;
        pos := pos + 1;
        k := k + 1;
        if b < 0x80 {
          return CSWP_SUCCESS, v;
        }
      }
    }

    /** The string reader: the length first, then the bytes if they are there and fit the caller's
        array with its terminator.  The length is also handed out. */
    method GetString(str: array<byte>) returns (res: int, len: u64)
      requires Valid() && str != buf && !Varint.ClientRead(Unread()).TooLong?
      modifies this`pos, str
      ensures Valid()
      ensures var g := Fields.Get(Fields.Client, Fields.KStr(str.Length), old(Unread()));
              if g.Item? then
                && res == CSWP_SUCCESS && pos == old(pos) + g.len
                && len == |g.field.str| < str.Length && str[..|g.field.str|] == g.field.str && str[|g.field.str|] == 0
              else res in {CSWP_BUFFER_EMPTY, CSWP_OUTPUT_BUFFER_OVERFLOW}
      ensures res != CSWP_SUCCESS ==> str[..] == old(str[..])
      ensures res == CSWP_OUTPUT_BUFFER_OVERFLOW <==>
                var g := Varint.ClientRead(old(Unread()));
                g.Got? && old(used - pos) - g.len >= g.value >= str.Length
      ensures res != CSWP_SUCCESS ==>
                var g := Varint.ClientRead(old(Unread()));
                pos == if g.Got? then old(pos) + g.len else used
    {
      hide Varint.ClientRead;
      ghost var s := Unread();
      res, len := GetVarint();
      if res != CSWP_SUCCESS {
        return;
      }
      if used - pos < len {
        res := CSWP_BUFFER_EMPTY;
        return;
      }
      if len >= str.Length {
        res := CSWP_OUTPUT_BUFFER_OVERFLOW;
        return;
      }
      ghost var n, all := pos - old(pos), buf[..];
      SliceSlice(all, old(pos), used, n, n + len);
      SliceSlice(s, n, |s|, 0, len);
      assert s == all[old(pos)..used] && buf[pos..pos + len] == all[pos..pos + len];
      CopyOut(len, str);
      pos := pos + len;
    }

    /** `memcpy` of the next `len` bytes into a C string, and its terminator. */
    method CopyOut(len: nat, str: array<byte>)
      requires Valid() && str != buf && pos + len <= used && len < str.Length
      modifies str
      ensures str[..len] == buf[pos..pos + len] && str[len] == 0
    {
      for i := 0 to len
        invariant forall j :: 0 <= j < i ==> str[j] == buf[pos + j]
      {
        str[i] := buf[pos + i];
      }
      str[len] := 0;
    }

    /** `cswp_buffer_get_direct`: the bytes at the cursor, in place. */
    method GetDirect(len: nat) returns (res: int, data: seq<byte>)
      requires Valid()
      modifies this`pos
      ensures Valid()
      ensures var g := Fields.Get(Fields.Client, Fields.KData(len), old(Unread()));
              if g.Item? then res == CSWP_SUCCESS && Fields.FData(data) == g.field && pos == old(pos) + len
              else res == CSWP_BUFFER_EMPTY && pos == old(pos) && data == []
    {
      if used - pos < len {
        return CSWP_BUFFER_EMPTY, [];
      }
      data := buf[pos..pos + len];
      assert data == Unread()[..len];
      pos := pos + len;
      return CSWP_SUCCESS, data;
    }
  }

  /** Adding the next septet, cut to 64 bits, neither carries nor loses a bit below 2^64. */
  lemma {:induction false} SeptetFits(s: seq<byte>, b: byte)
    requires |s| < 10
    ensures Varint.Value(s) % TWO64 + b % 0x80 * Varint.Pow128(|s|) % TWO64 == Varint.Value(s + [b]) % TWO64
  {
    hide Varint.Value, Varint.Pow128;
    Varint.ValueSnoc(s, b);
    Varint.ValueBound(s);
    SeptetSum(Varint.Value(s), b % 0x80, |s|);
  }

  lemma {:induction false} SeptetSum(v: nat, x: nat, k: nat)
    requires k < 10 && v < Varint.Pow128(k) && x < 0x80
    ensures v % TWO64 + x * Varint.Pow128(k) % TWO64 == (v + x * Varint.Pow128(k)) % TWO64
  {
    var p := Varint.Pow128(k);
    Varint.Pow128Values();
    assert Varint.Pow128(k + 1) == 0x80 * p;
    hide Varint.Pow128;
    if k < 9 {
      Varint.Pow128Mono(k + 1, 9);
      SumBound(v, x, p);
      NoWrap(v, x * p);
    } else {
      TopBit(v, x, p);
    }
  }

  lemma {:induction false} SumBound(v: nat, x: nat, p: nat)
    requires v < p && x < 0x80
    ensures v + x * p < 0x80 * p
  {
    assert x * p <= 0x7F * p;
  }

  lemma {:induction false} NoWrap(v: nat, t: nat)
    requires v + t < TWO64
    ensures v % TWO64 + t % TWO64 == (v + t) % TWO64
  {
  }

  lemma {:induction false} TopBit(v: nat, x: nat, p: nat)
    requires p == 0x8000_0000_0000_0000 && v < p && x < 0x80
    ensures v % TWO64 + x * p % TWO64 == (v + x * p) % TWO64
  {
    var q, r := x / 2, x % 2;
    assert x * p == q * TWO64 + r * p;
    assert x * p % TWO64 == r * p;
  }
}
