/** The request side of the wire protocol: commands, their encodings, and a request frame. */
module Commands {
  import opened Bytes
  import Varint
  import opened Fields
  import opened CswpBuffer

  const CSWP_INIT := 0x1
  const CSWP_TERM := 0x2
  const CSWP_CLIENT_INFO := 0x5
  const CSWP_SET_DEVICES := 0x10
  const CSWP_GET_DEVICES := 0x11
  const CSWP_GET_SYSTEM_DESCRIPTION := 0x12
  const CSWP_DEVICE_OPEN := 0x100
  const CSWP_DEVICE_CLOSE := 0x101
  const CSWP_SET_CONFIG := 0x102
  const CSWP_GET_DEVICE_CAPABILITIES := 0x104
  const CSWP_REG_LIST := 0x200
  const CSWP_REG_READ := 0x201
  const CSWP_REG_WRITE := 0x202
  const CSWP_MEM_READ := 0x300
  const CSWP_MEM_WRITE := 0x301
  const CSWP_MEM_POLL := 0x302
  const CSWP_ASYNC_MESSAGE := 0x1000

  datatype Command =
    | Init(version: u64, clientID: CString)
    | Term
    | ClientInfo(message: CString)
    | SetDevices(devices: seq<(CString, CString)>)
    | GetDevices
    | GetSystemDescription
    | DeviceOpen(dev: u64)
    | DeviceClose(dev: u64)
    | SetConfig(dev: u64, name: CString, value: CString)
    | GetDeviceCapabilities(dev: u64)
    | RegList(dev: u64)
    | RegRead(dev: u64, ids: seq<u64>)
    | RegWrite(dev: u64, writes: seq<(u64, u32)>)
    | MemRead(dev: u64, address: u64, size: u64, accessSize: u64, flags: u64)
    | MemWrite(dev: u64, address: u64, accessSize: u64, flags: u64, data: seq<byte>)

  function Type(c: Command): u64 {
    match c
    case Init(_, _) => CSWP_INIT
    case Term => CSWP_TERM
    case ClientInfo(_) => CSWP_CLIENT_INFO
    case SetDevices(_) => CSWP_SET_DEVICES
    case GetDevices => CSWP_GET_DEVICES
    case GetSystemDescription => CSWP_GET_SYSTEM_DESCRIPTION
    case DeviceOpen(_) => CSWP_DEVICE_OPEN
    case DeviceClose(_) => CSWP_DEVICE_CLOSE
    case SetConfig(_, _, _) => CSWP_SET_CONFIG
    case GetDeviceCapabilities(_) => CSWP_GET_DEVICE_CAPABILITIES
    case RegList(_) => CSWP_REG_LIST
    case RegRead(_, _) => CSWP_REG_READ
    case RegWrite(_, _) => CSWP_REG_WRITE
    case MemRead(_, _, _, _, _) => CSWP_MEM_READ
    case MemWrite(_, _, _, _, _) => CSWP_MEM_WRITE
  }

  /** Counts and lengths are those of real arrays. */
  predicate Sized(c: Command) {
    match c
    case SetDevices(ds) => |ds| < TWO32
    case RegRead(_, ids) => |ids| < TWO32
    case RegWrite(_, ws) => |ws| < TWO32
    case MemWrite(_, _, _, _, data) => |data| < TWO64
    case _ => true
  }

  function NameFields(ds: seq<(CString, CString)>): (fs: seq<Field>)
    ensures |fs| == 2 * |ds|
  {
    if ds == [] then [] else [FStr(ds[0].0), FStr(ds[0].1)] + NameFields(ds[1..])
  }

  function IdFields(ids: seq<u64>): (fs: seq<Field>)
    ensures |fs| == |ids|
  {
    if ids == [] then [] else [FVar(ids[0])] + IdFields(ids[1..])
  }

  function WriteFields(ws: seq<(u64, u32)>): (fs: seq<Field>)
    ensures |fs| == 2 * |ws|
  {
    if ws == [] then [] else [FVar(ws[0].0), F32(ws[0].1)] + WriteFields(ws[1..])
  }

  /** The argument fields up to and including the last one of fixed shape... */
  function HeadArgs(c: Command): seq<Field>
    requires Sized(c)
  {
    match c
    case Init(version, id) => [FVar(version), FStr(id)]
    case ClientInfo(message) => [FStr(message)]
    case SetDevices(ds) => [FVar(|ds|)]
    case DeviceOpen(dev) => [FVar(dev)]
    case DeviceClose(dev) => [FVar(dev)]
    case SetConfig(dev, name, value) => [FVar(dev), FStr(name), FStr(value)]
    case GetDeviceCapabilities(dev) => [FVar(dev)]
    case RegList(dev) => [FVar(dev)]
    case RegRead(dev, ids) => [FVar(dev), FVar(|ids|)]
    case RegWrite(dev, ws) => [FVar(dev), FVar(|ws|)]
    case MemRead(dev, address, size, accessSize, flags) => [FVar(dev), F64(address), FVar(size), FVar(accessSize),
            FVar(flags)]
    case MemWrite(dev, address, accessSize, flags, data) => [FVar(dev), F64(address), FVar(|data|), FVar(accessSize),
            FVar(flags)]
    case _ => []
  }

  /** ...and those whose number or size an earlier field gives. */
  function TailArgs(c: Command): seq<Field> {
    match c
    case SetDevices(ds) => NameFields(ds)
    case RegRead(_, ids) => IdFields(ids)
    case RegWrite(_, ws) => WriteFields(ws)
    case MemWrite(_, _, _, _, data) => [FData(data)]
    case _ => []
  }

  function Args(c: Command): seq<Field>
    requires Sized(c)
  {
    HeadArgs(c) + TailArgs(c)
  }

  /** Type and fixed-shape arguments. */
  function CommandHead(c: Command): (r: seq<byte>)
    requires Sized(c)
    ensures |r| >= 1
  {
    Varint.Encode(Type(c)) + PutAll(HeadArgs(c))
  }

  lemma {:induction false} HeadThenTail(c: Command)
    requires Sized(c)
    ensures CommandBytes(c) == CommandHead(c) + PutAll(TailArgs(c))
  {
    PutAllAppend(HeadArgs(c), TailArgs(c));
  }

  function CommandBytes(c: Command): (r: seq<byte>)
    requires Sized(c)
    ensures |r| >= 1
  {
    Varint.Encode(Type(c)) + PutAll(Args(c))
  }

  function AllBytes(cs: seq<Command>): (r: seq<byte>)
    requires forall i :: 0 <= i < |cs| ==> Sized(cs[i])
    ensures |r| >= |cs|
  {
    if cs == [] then [] else CommandBytes(cs[0]) + AllBytes(cs[1..])
  }

  lemma {:induction false} AllBytesSnoc(cs: seq<Command>, c: Command)
    requires forall i :: 0 <= i < |cs| ==> Sized(cs[i])
    requires Sized(c)
    ensures AllBytes(cs + [c]) == AllBytes(cs) + CommandBytes(c)
  {
    hide CommandBytes;
    if cs == [] {
      assert [c][1..] == [];
      assert AllBytes([c]) == CommandBytes(c) + AllBytes([]);
    } else {
      AllBytesSnoc(cs[1..], c);
      assert (cs + [c])[1..] == cs[1..] + [c];
    }
  }

  /** A request: total length, number of commands, error mode, commands. */
  function Frame(mode: byte, cs: seq<Command>): (r: seq<byte>)
    requires forall i :: 0 <= i < |cs| ==> Sized(cs[i])
  {
    var body := Varint.Encode(|cs|) + [mode] + AllBytes(cs);
    LE(4 + |body|, 4) + body
  }

  // ---------------------------------------------------------------------------------------------
  // Encoders

  /** One `__CSWP_CHECK`ed put. */
  method PutField(b: Buffer, f: Field) returns (res: int)
    requires b.Appending() && (f.FStr? ==> 0 !in f.str && |f.str| < TWO64)
    modifies b, b.buf
    ensures b.Appending() && PutOutcome(old(b.Contents()), b.Contents(), b.buf.Length, Put(f), res)
  {
    match f
    case F8(v) => res := b.PutUint8(v);
    case F32(v) => res := b.PutUint32(v);
    case F64(v) => res := b.PutUint64(v);
    case FVar(v) => res := b.PutVarint(v);
    case FStr(s) => res := b.PutString(s);
    case FData(s) => res := b.PutData(s);
  }

  /** A run of `__CSWP_CHECK`ed puts: the first failure ends it. */
  method PutFields(b: Buffer, fs: seq<Field>) returns (res: int)
    requires b.Appending() && forall i :: 0 <= i < |fs| && fs[i].FStr? ==> 0 !in fs[i].str && |fs[i].str| < TWO64
    modifies b, b.buf
    ensures b.Appending() && PutOutcome(old(b.Contents()), b.Contents(), b.buf.Length, PutAll(fs), res)
  {
    hide PutOutcome, PutAll, Put;
    ghost var before := b.Contents();
    res := CSWP_SUCCESS;
    PutNone(before, b.buf.Length, fs);
    for i := 0 to |fs|
      invariant b.Appending() && res == CSWP_SUCCESS
      invariant PutOutcome(before, b.Contents(), b.buf.Length, PutAll(fs[..i]), res)
    {
      ghost var mid := b.Contents();
      res := PutField(b, fs[i]);
      PutMore(before, mid, b.Contents(), b.buf.Length, fs, i, res);
      if res != CSWP_SUCCESS {
        return;
      }
    }
    assert fs[..|fs|] == fs;
  }

  lemma {:induction false} PutNone(before: seq<byte>, cap: nat, fs: seq<Field>)
    requires |before| <= cap
    ensures PutOutcome(before, before, cap, PutAll(fs[..0]), CSWP_SUCCESS)
  {
    assert fs[..0] == [] && before + [] == before;
  }

  /** One more of a run of checked puts. */
  lemma {:induction false} PutMore(before: seq<byte>, mid: seq<byte>, after: seq<byte>, cap: nat,
          fs: seq<Field>, i: nat, res: int)
    requires i < |fs| && PutOutcome(before, mid, cap, PutAll(fs[..i]), CSWP_SUCCESS)
    requires PutOutcome(mid, after, cap, Put(fs[i]), res)
    ensures PutOutcome(before, after, cap, PutAll(fs[..i + 1]), res)
    ensures res != CSWP_SUCCESS ==> PutOutcome(before, after, cap, PutAll(fs), res)
  {
    hide PutOutcome, Put;
    PutAllOne(fs[i]);
    hide PutAll;
    PutAllAppend(fs[..i], [fs[i]]);
    PutAllAppend(fs[..i + 1], fs[i + 1..]);
    assert fs[..i + 1] == fs[..i] + [fs[i]] && fs == fs[..i + 1] + fs[i + 1..];
    PutThen(before, mid, after, cap, PutAll(fs[..i]), Put(fs[i]), CSWP_SUCCESS, res);
    if res != CSWP_SUCCESS {
      PutStops(before, after, cap, PutAll(fs[..i + 1]), PutAll(fs[i + 1..]), res);
    }
  }

  lemma {:induction false} PutAllOne(f: Field)
    ensures PutAll([f]) == Put(f)
  {
    assert [f][1..] == [];
  }

  lemma {:induction false} PutStops(before: seq<byte>, after: seq<byte>, cap: nat, a: seq<byte>, b: seq<byte>, res: int)
    requires PutOutcome(before, after, cap, a, res) && res != CSWP_SUCCESS
    ensures PutOutcome(before, after, cap, a + b, res)
  {
    Assoc(before, a, b);
  }

  predicate ShortStrings(fs: seq<Field>) {
    forall i :: 0 <= i < |fs| && fs[i].FStr? ==> 0 !in fs[i].str && |fs[i].str| < TWO64
  }

  lemma {:induction false} PutVar(v: u64)
    ensures Put(FVar(v)) == Varint.Encode(v)
  {
  }

  /** Every `cswp_encode_*_command` whose puts are all checked: the header, then the arguments. */
  method EncodeCommand(b: Buffer, c: Command) returns (res: int)
    requires b.Appending() && Sized(c) && ShortStrings(Args(c))
    modifies b, b.buf
    ensures b.Appending() && PutOutcome(old(b.Contents()), b.Contents(), b.buf.Length, CommandBytes(c), res)
  {
    hide PutOutcome, PutAll, Put, Varint.Encode;
    PutVar(Type(c));
    ghost var before := b.Contents();
    res := b.PutVarint(Type(c));
    ghost var mid, r := b.Contents(), res;
    if res == CSWP_SUCCESS {
      res := PutFields(b, Args(c));
    }
    PutThen(before, mid, b.Contents(), b.buf.Length, Varint.Encode(Type(c)), PutAll(Args(c)), r, res);
  }

  /** Unchecked puts: each one that does not fit is dropped and the next is tried. */
  function PutLoose(before: seq<byte>, cap: nat, fs: seq<Field>): (r: seq<byte>)
    requires |before| <= cap
    ensures before <= r && |r| <= cap
    decreases |fs|
  {
    if fs == [] then before
    else PutLoose(if |before| + |Put(fs[0])| <= cap then before + Put(fs[0]) else before, cap, fs[1..])
  }

  /** The first of them. */
  lemma {:induction false} LooseFirst(before: seq<byte>, cap: nat, fs: seq<Field>)
    requires fs != [] && |before| + |PutAll(fs)| <= cap
    ensures |before + Put(fs[0])| + |PutAll(fs[1..])| <= cap
    ensures PutLoose(before, cap, fs) == PutLoose(before + Put(fs[0]), cap, fs[1..])
    ensures before + PutAll(fs) == before + Put(fs[0]) + PutAll(fs[1..])
  {
    hide Put;
    assert PutAll(fs) == Put(fs[0]) + PutAll(fs[1..]);
    hide PutAll;
    Assoc(before, Put(fs[0]), PutAll(fs[1..]));
  }

  lemma {:induction false} LooseAll(before: seq<byte>, cap: nat, fs: seq<Field>)
    requires |before| + |PutAll(fs)| <= cap
    ensures PutLoose(before, cap, fs) == before + PutAll(fs)
    decreases |fs|
  {
    if fs == [] {
      assert before + [] == before;
    } else {
      hide Put, PutAll, PutLoose;
      LooseFirst(before, cap, fs);
      LooseAll(before + Put(fs[0]), cap, fs[1..]);
    }
  }

  /** They are right exactly when there is room for all. */
  lemma {:induction false} LooseFits(before: seq<byte>, cap: nat, fs: seq<Field>)
    requires |before| <= cap
    ensures PutLoose(before, cap, fs) == before + PutAll(fs) <==> |before| + |PutAll(fs)| <= cap
  {
    hide PutAll, PutLoose;
    if |before| + |PutAll(fs)| <= cap {
      LooseAll(before, cap, fs);
    } else {
      assert |before + PutAll(fs)| > cap;
    }
  }

  lemma {:induction false} LoosePair(before: seq<byte>, cap: nat, ws: seq<(u64, u32)>)
    requires |before| <= cap && ws != []
    ensures var a, b := Put(FVar(ws[0].0)), Put(F32(ws[0].1));
            var mid := if |before| + |a| <= cap then before + a else before;
            PutLoose(before, cap, WriteFields(ws))
            == PutLoose(if |mid| + |b| <= cap then mid + b else mid, cap, WriteFields(ws[1..]))
  {
    var fs := WriteFields(ws);
    assert fs[0] == FVar(ws[0].0) && fs[1] == F32(ws[0].1) && fs[1..][1..] == WriteFields(ws[1..]);
    hide Put, WriteFields;
  }

  /** `cswp_device_reg_write`'s encoding: the header puts are checked, the register puts are not,
      so the call succeeds whenever the header fits, and drops what does not. */
  method EncodeRegWrite(b: Buffer, c: Command) returns (res: int)
    requires b.Appending() && c.RegWrite? && Sized(c)
    modifies b, b.buf
    ensures b.Appending()
    ensures res == CSWP_SUCCESS <==> old(b.used) + |CommandHead(c)| <= b.buf.Length
    ensures b.used >= old(b.used) + if res == CSWP_SUCCESS then 1 else 0
    ensures res == CSWP_SUCCESS ==>
              b.Contents() == PutLoose(old(b.Contents()) + CommandHead(c), b.buf.Length, WriteFields(c.writes))
    ensures old(b.used) + |CommandBytes(c)| <= b.buf.Length ==>
              res == CSWP_SUCCESS && b.Contents() == old(b.Contents()) + CommandBytes(c)
  {
    hide CommandBytes, CommandHead, PutAll, PutLoose, WriteFields;
    ghost var before := b.Contents();
    res := EncodeRegWriteHead(b, c);
    ghost var mid := b.Contents();
    PutPairs(b, c.writes);
    LooseFits(mid, b.buf.Length, WriteFields(c.writes));
    RegWriteFits(c, before, mid, b.Contents(), b.buf.Length, res);
  }

  lemma {:induction false} RegWriteFits(c: Command, before: seq<byte>, mid: seq<byte>, after: seq<byte>, cap: nat,
          res: int)
    requires c.RegWrite? && Sized(c) && PutOutcome(before, mid, cap, CommandHead(c), res)
    requires var tail := PutAll(WriteFields(c.writes)); |mid| + |tail| <= cap ==> after == mid + tail
    ensures |before| + |CommandBytes(c)| <= cap ==> res == CSWP_SUCCESS && after == before + CommandBytes(c)
  {
    HeadThenTail(c);
    assert TailArgs(c) == WriteFields(c.writes);
    Joined(before, mid, after, cap, CommandHead(c), PutAll(WriteFields(c.writes)), res);
  }

  lemma {:induction false} Joined(before: seq<byte>, mid: seq<byte>, after: seq<byte>, cap: nat, a: seq<byte>,
          b: seq<byte>, res: int)
    requires PutOutcome(before, mid, cap, a, res)
    requires |mid| + |b| <= cap ==> after == mid + b
    ensures |before| + |a + b| <= cap ==> res == CSWP_SUCCESS && after == before + (a + b)
  {
    assert before + a + b == before + (a + b);
  }

  /** `cswp_encode_reg_write_command`. */
  method EncodeRegWriteHead(b: Buffer, c: Command) returns (res: int)
    requires b.Appending() && c.RegWrite? && Sized(c)
    modifies b, b.buf
    ensures b.Appending() && PutOutcome(old(b.Contents()), b.Contents(), b.buf.Length, CommandHead(c), res)
  {
    ghost var before := b.Contents();
    res := b.PutVarint(Type(c));
    ghost var mid, r := b.Contents(), res;
    if res == CSWP_SUCCESS {
      res := PutFields(b, HeadArgs(c));
    }
    PutThen(before, mid, b.Contents(), b.buf.Length, Varint.Encode(Type(c)), PutAll(HeadArgs(c)), r, res);
  }

  /** The unchecked loop. */
  method PutPairs(b: Buffer, ws: seq<(u64, u32)>)
    requires b.Appending()
    modifies b, b.buf
    ensures b.Appending() && b.used >= old(b.used)
    ensures b.Contents() == PutLoose(old(b.Contents()), b.buf.Length, WriteFields(ws))
  {
    hide PutLoose, WriteFields, Put;
    ghost var goal := PutLoose(b.Contents(), b.buf.Length, WriteFields(ws));
    assert ws[0..] == ws;
    for i := 0 to |ws|
      invariant b.Appending() && b.used >= old(b.used)
      invariant PutLoose(b.Contents(), b.buf.Length, WriteFields(ws[i..])) == goal
    {
      LoosePair(b.Contents(), b.buf.Length, ws[i..]);
      assert ws[i..][0] == ws[i] && ws[i..][1..] == ws[i + 1..];
      PutPair(b, ws[i]);
    }
    assert ws[|ws|..] == [];
    LooseNone(b.Contents(), b.buf.Length);
  }

  lemma {:induction false} LooseNone(before: seq<byte>, cap: nat)
    requires |before| <= cap
    ensures PutLoose(before, cap, WriteFields([])) == before
  {
  }

  method PutPair(b: Buffer, w: (u64, u32))
    requires b.Appending()
    modifies b, b.buf
    ensures b.Appending() && b.used >= old(b.used)
    ensures var before, cap := old(b.Contents()), b.buf.Length;
            var mid := if |before| + |Put(FVar(w.0))| <= cap then before + Put(FVar(w.0)) else before;
            b.Contents() == if |mid| + |Put(F32(w.1))| <= cap then mid + Put(F32(w.1)) else mid
  {
    hide Put;
    var _ := b.PutVarint(w.0);
    var _ := b.PutUint32(w.1);
  }
}
