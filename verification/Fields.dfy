/** A message body is a list of typed fields.  `Put` is the encoding every writer produces, `Get`
    what a reader of the given side returns for it.
 */
module Fields {
  import opened Bytes
  import Varint

  datatype Side = Client | Server

  datatype Field =
    | F8(b: byte)
    | F32(w: u32)
    | F64(d: u64)
    | FVar(v: u64)
    | FStr(str: seq<byte>)
    | FData(data: seq<byte>)

  /** What a reader asks for: a string has the caller's room (the client's only limit on it), raw
      data a known size. */
  datatype Kind = K8 | K32 | K64 | KVar | KStr(room: nat) | KData(size: nat)

  function Put(f: Field): (r: seq<byte>) {
    match f
    case F8(b) => [b]
    case F32(w) => LE(w, 4)
    case F64(d) => LE(d, 8)
    case FVar(v) => Varint.Encode(v)
    case FStr(str) => Varint.Encode(|str|) + str
    case FData(data) => data
  }

  function PutAll(fs: seq<Field>): seq<byte> {
    if fs == [] then [] else Put(fs[0]) + PutAll(fs[1..])
  }

  /** One field read, and how many bytes it took. */
  datatype Item = NoItem | Item(field: Field, len: nat)

  datatype Items = NoItems | Items(fields: seq<Field>, len: nat)

  function ReadVarint(side: Side, s: seq<byte>): (r: Varint.ReadResult)
    ensures r.Got? ==> 1 <= r.len <= |s|
  {
    if side.Client? then Varint.ClientRead(s) else Varint.ServerRead(s)
  }

  function GetString(side: Side, room: nat, s: seq<byte>): (r: Item)
    ensures r.Item? ==> r.len <= |s| && r.field.FStr?
  {
    var r := ReadVarint(side, s);
    if !r.Got? || |s| - r.len < r.value || (side.Client? && r.value >= room) then NoItem
    else Item(FStr(s[r.len..r.len + r.value]), r.len + r.value)
  }

  function GetVar(side: Side, s: seq<byte>): (r: Item)
    ensures r.Item? ==> r.len <= |s| && r.field.FVar?
  {
    var r := ReadVarint(side, s);
    if r.Got? then Item(FVar(r.value), r.len) else NoItem
  }

  function Get(side: Side, k: Kind, s: seq<byte>): (r: Item)
    ensures r.Item? ==> r.len <= |s|
  {
    match k
    case K8 => if |s| < 1 then NoItem else Item(F8(s[0]), 1)
    case K32 => if |s| < 4 then NoItem else Item(F32(U32At(s)), 4)
    case K64 => if |s| < 8 then NoItem else Item(F64(U64At(s)), 8)
    case KVar => GetVar(side, s)
    case KStr(room) => GetString(side, room, s)
    case KData(size) => if |s| < size then NoItem else Item(FData(s[..size]), size)
  }

  function GetAll(side: Side, ks: seq<Kind>, s: seq<byte>): (r: Items)
    ensures r.Items? ==> r.len <= |s| && |r.fields| == |ks|
  {
    if ks == [] then Items([], 0)
    else
      var head := Get(side, ks[0], s);
      if head.NoItem? then NoItems else Prepend(head, GetAll(side, ks[1..], s[head.len..]))
  }

  function Prepend(head: Item, tail: Items): (r: Items)
    requires head.Item?
    ensures r.Items? <==> tail.Items?
  {
    if tail.NoItems? then NoItems else Items([head.field] + tail.fields, head.len + tail.len)
  }

  /** `k` is the request that reads a field written as `f`.  The server's varints stop at 2^31. */
  predicate Reads(side: Side, k: Kind, f: Field) {
    match f
    case F8(_) => k.K8?
    case F32(_) => k.K32?
    case F64(_) => k.K64?
    case FVar(v) => k.KVar? && (side.Server? ==> v < TWO31)
    case FStr(str) => k.KStr? && |str| < TWO64 && (if side.Server? then |str| < TWO31 else |str| < k.room)
    case FData(data) => k.KData? && k.size == |data|
  }

  predicate ReadsAll(side: Side, ks: seq<Kind>, fs: seq<Field>) {
    |ks| == |fs| && forall i :: 0 <= i < |fs| ==> Reads(side, ks[i], fs[i])
  }

  lemma {:induction false} GetPut(side: Side, k: Kind, f: Field, rest: seq<byte>)
    requires Reads(side, k, f)
    ensures Get(side, k, Put(f) + rest) == Item(f, |Put(f)|)
  {
    hide LE, FromLE, U32At, U64At, Varint.Encode, ReadVarint;
    match f
    case F8(b) =>
    case F32(w) =>
      GetPut32(w, rest);
    case F64(d) =>
      GetPut64(d, rest);
    case FVar(v) =>
      ReadPut(side, v, rest);
    case FStr(str) =>
      ReadPut(side, |str|, str + rest);
      assert Put(f) + rest == Varint.Encode(|str|) + (str + rest);
    case FData(data) =>
      assert (data + rest)[..|data|] == data;
  }

  lemma {:induction false} GetPut32(w: u32, rest: seq<byte>)
    ensures |LE(w, 4) + rest| >= 4 && U32At(LE(w, 4) + rest) == w
  {
    Pow256Values();
    LERoundTrip(w, 4);
    assert (LE(w, 4) + rest)[..4] == LE(w, 4);
  }

  lemma {:induction false} GetPut64(d: u64, rest: seq<byte>)
    ensures |LE(d, 8) + rest| >= 8 && U64At(LE(d, 8) + rest) == d
  {
    Pow256Values();
    LERoundTrip(d, 8);
    assert (LE(d, 8) + rest)[..8] == LE(d, 8);
  }

  lemma {:induction false} ReadPut(side: Side, v: u64, rest: seq<byte>)
    requires side.Server? ==> v < TWO31
    ensures ReadVarint(side, Varint.Encode(v) + rest) == Varint.Got(v, |Varint.Encode(v)|)
  {
    Varint.ClientRoundTrip(v, rest);
    Varint.ServerRoundTrip(v, rest);
  }

  lemma {:induction false} GetFirst(side: Side, ks: seq<Kind>, f: Field, tail: seq<byte>)
    requires ks != [] && Reads(side, ks[0], f)
    ensures GetAll(side, ks, Put(f) + tail) == Prepend(Item(f, |Put(f)|), GetAll(side, ks[1..], tail))
  {
    hide Get, GetAll, Put, Reads;
    var s := Put(f) + tail;
    GetPut(side, ks[0], f, tail);
    GetAllUnfold(side, ks, s);
    DropFront(Put(f), tail);
  }

  /** Any list of fields written in order is read back in the same order, to the last byte, on
      either side, whatever follows it. */
  lemma {:induction false} RoundTrip(side: Side, ks: seq<Kind>, fs: seq<Field>, rest: seq<byte>)
    requires ReadsAll(side, ks, fs)
    ensures GetAll(side, ks, PutAll(fs) + rest) == Items(fs, |PutAll(fs)|)
  {
    hide Get, Put, Reads;
    if fs == [] {
      assert ks == [] && fs == [];
    } else {
      assert PutAll(fs) == Put(fs[0]) + PutAll(fs[1..]);
      hide GetAll, PutAll;
      var tail := PutAll(fs[1..]) + rest;
      assert PutAll(fs) + rest == Put(fs[0]) + tail;
      GetFirst(side, ks, fs[0], tail);
      RoundTrip(side, ks[1..], fs[1..], rest);
      PrependPut(fs);
    }
  }

  lemma {:induction false} PrependPut(fs: seq<Field>)
    requires fs != []
    ensures Prepend(Item(fs[0], |Put(fs[0])|), Items(fs[1..], |PutAll(fs[1..])|)) == Items(fs, |PutAll(fs)|)
  {
    HeadTail(fs);
    assert |PutAll(fs)| == |Put(fs[0])| + |PutAll(fs[1..])|;
  }

  lemma {:induction false} HeadTail<T>(s: seq<T>)
    requires s != []
    ensures [s[0]] + s[1..] == s
  {
  }

  lemma {:induction false} PutAllAppend(a: seq<Field>, b: seq<Field>)
    ensures PutAll(a + b) == PutAll(a) + PutAll(b)
  {
    if a == [] {
      assert a + b == b;
    } else {
      assert (a + b)[1..] == a[1..] + b;
      PutAllAppend(a[1..], b);
    }
  }

  /** The outcome of reading `b` after a first part that ended as `ra`. */
  function Continue(side: Side, ra: Items, b: seq<Kind>, s: seq<byte>): (r: Items)
    requires ra.Items? ==> ra.len <= |s|
  {
    if ra.NoItems? then NoItems else Concat(ra, GetAll(side, b, s[ra.len..]))
  }

  function Concat(a: Items, b: Items): (r: Items)
    requires a.Items?
  {
    if b.NoItems? then NoItems else Items(a.fields + b.fields, a.len + b.len)
  }

  lemma {:induction false} GetAllAppend(side: Side, a: seq<Kind>, b: seq<Kind>, s: seq<byte>)
    ensures GetAll(side, a + b, s) == Continue(side, GetAll(side, a, s), b, s)
  {
    if a == [] {
      assert a + b == b && s[0..] == s;
      assert forall x: seq<Field> :: [] + x == x;
    } else {
      var head := Get(side, a[0], s);
      GetAllUnfold(side, a, s);
      GetAllUnfold(side, a + b, s);
      hide GetAll, Get;
      assert (a + b)[1..] == a[1..] + b;
      if head.Item? {
        GetAllAppend(side, a[1..], b, s[head.len..]);
        ContinueCons(side, head, GetAll(side, a[1..], s[head.len..]), b, s);
      }
    }
  }

  /** The same without naming the continuation. */
  lemma {:induction false} GetAllTwo(side: Side, a: seq<Kind>, b: seq<Kind>, s: seq<byte>)
    ensures var ra, r := GetAll(side, a, s), GetAll(side, a + b, s);
            && (ra.NoItems? ==> r.NoItems?)
            && (ra.Items? ==>
                  var rb := GetAll(side, b, s[ra.len..]);
                  if rb.NoItems? then r.NoItems? else r == Items(ra.fields + rb.fields, ra.len + rb.len))
  {
    hide GetAll;
    GetAllAppend(side, a, b, s);
  }

  lemma {:induction false} GetAllUnfold(side: Side, ks: seq<Kind>, s: seq<byte>)
    requires ks != []
    ensures var head := Get(side, ks[0], s);
            GetAll(side, ks, s) == if head.NoItem? then NoItems else Prepend(head, GetAll(side, ks[1..], s[head.len..]))
  {
    hide Get;
  }

  lemma {:induction false} ContinueCons(side: Side, head: Item, ra: Items, b: seq<Kind>, s: seq<byte>)
    requires head.Item? && head.len <= |s| && (ra.Items? ==> head.len + ra.len <= |s|)
    ensures Continue(side, Prepend(head, ra), b, s) == Prepend(head, Continue(side, ra, b, s[head.len..]))
  {
    hide GetAll;
    if ra.Items? {
      DropTwice(s, head.len, ra.len);
      PrependConcat(head, ra, GetAll(side, b, s[head.len + ra.len..]));
    }
  }

  lemma {:induction false} PrependConcat(head: Item, a: Items, b: Items)
    requires head.Item? && a.Items?
    ensures Concat(Prepend(head, a), b) == Prepend(head, Concat(a, b))
  {
    if b.Items? {
      assert [head.field] + (a.fields + b.fields) == [head.field] + a.fields + b.fields;
    }
  }
}
