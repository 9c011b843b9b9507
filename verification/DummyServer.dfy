/** The server of the repository: parsing of a request, the command loop, and the reply frame.
    The command handlers themselves are abstract: each returns an error code or adds one response.
 */
module DummyServer {
  import opened Bytes
  import Varint
  import opened Fields
  import opened Commands

  const CSWP_CANCELLED := 0x2

  // ---------------------------------------------------------------------------------------------
  // Request parsing

  /** One entry of the command array: type, device (-1 for session commands), where the arguments
      start, and the arguments as the server logs them. */
  datatype Info = Info(cmdEnc: int, apnum: int, data: nat, args: seq<Field>)

  /** The reads of the branch for a command type: those of fixed shape...  `None` is a type the
      parser does not know.  (CSWP_GET_CONFIG frees a pointer it never set, and is not a request
      this parser can be asked to handle.) */
  function Head(enc: u64): Option<seq<Kind>> {
    if enc == CSWP_INIT then Some([KVar, KStr(0)])
    else if enc == CSWP_TERM || enc == CSWP_GET_DEVICES || enc == CSWP_GET_SYSTEM_DESCRIPTION then Some([])
    else if enc == CSWP_CLIENT_INFO then Some([KStr(0)])
    else if enc == CSWP_SET_DEVICES then Some([KVar])
    else if enc == CSWP_DEVICE_OPEN || enc == CSWP_DEVICE_CLOSE || enc == CSWP_GET_DEVICE_CAPABILITIES
            || enc == CSWP_REG_LIST then Some([KVar])
    else if enc == CSWP_SET_CONFIG then Some([KVar, KStr(0), KStr(0)])
    else if enc == CSWP_REG_READ || enc == CSWP_REG_WRITE then Some([KVar, KVar])
    else if enc == CSWP_MEM_READ || enc == CSWP_MEM_WRITE then Some([KVar, K64, KVar, KVar, KVar])
    else if enc == CSWP_MEM_POLL then Some([KVar, K64, KVar, KVar, KVar, KVar])
    else None
  }

  /** ...and those repeated or sized by a field just read. */
  datatype Rest = Rest(group: seq<Kind>, count: nat)

  function Tail(enc: u64, head: seq<Field>): Rest {
    if enc == CSWP_SET_DEVICES && |head| == 1 && head[0].FVar? then Rest([KStr(0), KStr(0)], head[0].v)
    else if enc == CSWP_REG_READ && |head| == 2 && head[1].FVar? then Rest([KVar], head[1].v)
    else if enc == CSWP_REG_WRITE && |head| == 2 && head[1].FVar? then Rest([KVar, K32], head[1].v)
    else if enc == CSWP_MEM_WRITE && |head| == 5 && head[2].FVar? then Rest([KData(head[2].v)], 1)
    else if enc == CSWP_MEM_POLL && |head| == 6 && head[2].FVar? then Rest([KData(2 * head[2].v % TWO64)], 1)
    else Rest([], 0)
  }

  function Repeat(group: seq<Kind>, n: nat): (r: seq<Kind>) {
    if n == 0 then [] else Repeat(group, n - 1) + group
  }

  /** `info->apnum`: the device for device commands. */
  function ApNum(enc: u64, head: seq<Field>): int {
    if head != [] && head[0].FVar? && enc != CSWP_INIT && enc != CSWP_SET_DEVICES then Int32(head[0].v) else -1
  }

  datatype ArgList = NoArgs | ArgList(apnum: int, args: seq<Field>, len: nat)

  /** The arguments of a command of a known type, at the front of `s`. */
  function ParseArgs(enc: u64, s: seq<byte>): (r: ArgList)
    requires Head(enc).Some?
    ensures r.ArgList? ==> r.len <= |s|
  {
    var h := GetAll(Server, Head(enc).value, s);
    if h.NoItems? then NoArgs
    else
      var rest := Tail(enc, h.fields);
      var r := GetAll(Server, Repeat(rest.group, rest.count), s[h.len..]);
      if r.NoItems? then NoArgs else ArgList(ApNum(enc, h.fields), h.fields + r.fields, h.len + r.len)
  }

  datatype Parsed = Undefined | Unknown | Known(info: Info, len: nat)

  /** One turn of the parser's loop on `s`, the message from offset `at` on.  `Undefined`: it reads
      past the message or shifts a varint septet out of an `int`. */
  function ParseCommand(s: seq<byte>, at: nat): (p: Parsed)
    ensures p.Known? ==> 1 <= p.len <= |s|
  {
    var t := Varint.ServerRead(s);
    if !t.Got? then Undefined
    else if Head(t.value).None? then Unknown
    else
      var a := ParseArgs(t.value, s[t.len..]);
      if a.NoArgs? then Undefined
      else Known(Info(Int32(t.value), a.apnum, at + t.len, a.args), t.len + a.len)
  }

  datatype Parses = NoParse | Parses(infos: seq<Info>, next: nat)

  /** The loop: the commands found and the offset it stops at.  An unknown type ends it. */
  function ParseCommands(s: seq<byte>, at: nat, n: nat): (r: Parses)
    ensures r.Parses? ==> at <= r.next <= at + |s| && |r.infos| <= n
    decreases n
  {
    if n == 0 then Parses([], at)
    else
      var p := ParseCommand(s, at);
      if p.Undefined? then NoParse
      else if p.Unknown? then Parses([], at)
      else WithFirst(p.info, ParseCommands(s[p.len..], at + p.len, n - 1))
  }

  function WithFirst(info: Info, r: Parses): Parses {
    if r.NoParse? then NoParse else Parses([info] + r.infos, r.next)
  }

  datatype Request = Request(length: u32, errorMode: byte, infos: seq<Info>, next: nat)

  function Parse(d: seq<byte>): Option<Request> {
    if |d| < 4 then None
    else
      var n := Varint.ServerRead(d[4..]);
      if !n.Got? || |d| < 4 + n.len + 1 then None
      else
        var at := 4 + n.len;
        var cs := ParseCommands(d[at + 1..], at + 1, n.value);
        if cs.NoParse? then None else Some(Request(U32At(d), d[at], cs.infos, cs.next))
  }

  /** Reads a fixed list of fields, one `process_incoming_*` call each. */
  method ProcessFields(d: seq<byte>, off: nat, ks: seq<Kind>) returns (r: Items)
    requires off <= |d|
    ensures r == GetAll(Server, ks, d[off..])
  {
    hide Get, GetAll;
    ghost var s := d[off..];
    var fs, at: nat := [], 0;
    NoFields(ks, s);
    for i := 0 to |ks|
      invariant at <= |s|
      invariant GetAll(Server, ks[..i], s) == Items(fs, at)
    {
      DropTwice(d, off, at);
      var f := ProcessField(d, off + at, ks[i]);
      NextField(ks, i, s, fs, at, f);
      if f.NoItem? {
        return NoItems;
      }
      fs, at := fs + [f.field], at + f.len;
    }
    assert ks[..|ks|] == ks;
    r := Items(fs, at);
  }

  lemma {:induction false} NoFields(ks: seq<Kind>, s: seq<byte>)
    ensures GetAll(Server, ks[..0], s) == Items([], 0)
  {
  }

  lemma {:induction false} NextField(ks: seq<Kind>, i: nat, s: seq<byte>, fs: seq<Field>, at: nat, f: Item)
    requires i < |ks| && at <= |s| && GetAll(Server, ks[..i], s) == Items(fs, at) && f == Get(Server, ks[i], s[at..])
    ensures f.NoItem? ==> GetAll(Server, ks, s).NoItems?
    ensures f.Item? ==> at + f.len <= |s| && GetAll(Server, ks[..i + 1], s) == Items(fs + [f.field], at + f.len)
  {
    hide Get, GetAll;
    GetOne(Server, ks[i], s[at..]);
    GetAllTwo(Server, ks[..i], [ks[i]], s);
    GetAllTwo(Server, ks[..i + 1], ks[i + 1..], s);
    assert ks[..i] + [ks[i]] == ks[..i + 1];
    assert ks[..i + 1] + ks[i + 1..] == ks;
  }

  lemma {:induction false} GetOne(side: Side, k: Kind, s: seq<byte>)
    ensures GetAll(side, [k], s) == var f := Get(side, k, s); if f.NoItem? then NoItems else Items([f.field], f.len)
  {
    GetAllUnfold(side, [k], s);
    hide Get;
  }

  /** `process_incoming_varint`, `_string`, `_uint32`, `_uint64`, or the skip over raw data. */
  method ProcessField(d: seq<byte>, off: nat, k: Kind) returns (r: Item)
    requires off <= |d|
    ensures r == Get(Server, k, d[off..])
  {
    hide U32At, U64At, Varint.ServerRead;
    var s := d[off..];
    match k
    case K8 =>
      return if |s| < 1 then NoItem else Item(F8(s[0]), 1);
    case K32 =>
      return if |s| < 4 then NoItem else Item(F32(U32At(s)), 4);
    case K64 =>
      return if |s| < 8 then NoItem else Item(F64(U64At(s)), 8);
    case KVar =>
      var v := Varint.ProcessIncomingVarint(d, off);
      return if v.Got? then Item(FVar(v.value), v.len) else NoItem;
    case KStr(_) =>
      r := ProcessIncomingString(d, off);
    case KData(size) =>
      return if |s| < size then NoItem else Item(FData(s[..size]), size);
  }

  method ProcessIncomingString(d: seq<byte>, off: nat) returns (r: Item)
    requires off <= |d|
    ensures r == GetString(Server, 0, d[off..])
    ensures forall room: nat :: r == GetString(Server, room, d[off..])
  {
    hide Varint.ServerRead;
    var s := d[off..];
    var v := Varint.ProcessIncomingVarint(d, off);
    if !v.Got? || |s| - v.len < v.value {
      return NoItem;
    }
    return Item(FStr(s[v.len..v.len + v.value]), v.len + v.value);
  }

  /** The counted loops of the SET_DEVICES, REG_READ and REG_WRITE branches. */
  method ProcessGroups(d: seq<byte>, off: nat, group: seq<Kind>, count: nat) returns (r: Items)
    requires off <= |d|
    ensures r == GetAll(Server, Repeat(group, count), d[off..])
  {
    hide GetAll, Repeat;
    ghost var s := d[off..];
    var fs, at: nat := [], 0;
    NoGroups(group, s);
    for i := 0 to count
      invariant at <= |s|
      invariant GetAll(Server, Repeat(group, i), s) == Items(fs, at)
    {
      DropTwice(d, off, at);
      var g := ProcessFields(d, off + at, group);
      NextGroup(group, i, count, s, fs, at, g);
      if g.NoItems? {
        return NoItems;
      }
      fs, at := fs + g.fields, at + g.len;
    }
    r := Items(fs, at);
  }

  lemma {:induction false} NoGroups(group: seq<Kind>, s: seq<byte>)
    ensures GetAll(Server, Repeat(group, 0), s) == Items([], 0)
  {
  }

  lemma {:induction false} NextGroup(group: seq<Kind>, i: nat, n: nat, s: seq<byte>, fs: seq<Field>, at: nat, g: Items)
    requires i < n && at <= |s| && GetAll(Server, Repeat(group, i), s) == Items(fs, at)
            && g == GetAll(Server, group, s[at..])
    ensures g.NoItems? ==> GetAll(Server, Repeat(group, n), s).NoItems?
    ensures g.Items? ==> at + g.len <= |s|
    ensures g.Items? ==> GetAll(Server, Repeat(group, i + 1), s) == Items(fs + g.fields, at + g.len)
  {
    hide GetAll, Repeat;
    RepeatSnoc(group, i);
    GetAllTwo(Server, Repeat(group, i), group, s);
    if g.NoItems? {
      RepeatFails(group, i + 1, n, s);
    }
  }

  lemma {:induction false} RepeatSnoc(group: seq<Kind>, i: nat)
    ensures Repeat(group, i + 1) == Repeat(group, i) + group
  {
  }

  lemma {:induction false} RepeatFails(group: seq<Kind>, i: nat, n: nat, s: seq<byte>)
    requires i <= n && GetAll(Server, Repeat(group, i), s).NoItems?
    ensures GetAll(Server, Repeat(group, n), s).NoItems?
  {
    hide GetAll, Repeat;
    if i < n {
      RepeatFails(group, i, n - 1, s);
      RepeatSnoc(group, n - 1);
      GetAllTwo(Server, Repeat(group, n - 1), group, s);
    }
  }

  method ProcessArgs(d: seq<byte>, off: nat, enc: u64) returns (r: ArgList)
    requires off <= |d| && Head(enc).Some?
    ensures r == ParseArgs(enc, d[off..])
  {
    hide GetAll, Repeat, Tail, Head, ApNum;
    var h := ProcessFields(d, off, Head(enc).value);
    if h.NoItems? {
      return NoArgs;
    }
    var rest := Tail(enc, h.fields);
    DropTwice(d, off, h.len);
    var g := ProcessGroups(d, off + h.len, rest.group, rest.count);
    if g.NoItems? {
      return NoArgs;
    }
    return ArgList(ApNum(enc, h.fields), h.fields + g.fields, h.len + g.len);
  }

  /** One turn of the loop of `process_incoming_data`. */
  method ProcessCommand(d: seq<byte>, off: nat) returns (p: Parsed)
    requires off <= |d|
    ensures p == ParseCommand(d[off..], off) && (p.Known? ==> off + p.len <= |d|)
  {
    hide ParseArgs, Varint.ServerRead, Head, Int32;
    var t := Varint.ProcessIncomingVarint(d, off);
    if !t.Got? {
      return Undefined;
    }
    if Head(t.value).None? {
      return Unknown;
    }
    DropTwice(d, off, t.len);
    var a := ProcessArgs(d, off + t.len, t.value);
    if a.NoArgs? {
      return Undefined;
    }
    return Known(Info(Int32(t.value), a.apnum, off + t.len, a.args), t.len + a.len);
  }

  /** The loop over `num_sub_requests`. */
  method ProcessCommands(d: seq<byte>, start: nat, n: nat) returns (r: Parses)
    requires start <= |d|
    ensures r == ParseCommands(d[start..], start, n)
  {
    hide ParseCommand, ParseCommands, Join;
    var infos, offset: nat := [], start;
    ghost var all := ParseCommands(d[start..], start, n);
    JoinNone(all);
    var cmd: nat := 0;
    while cmd < n
      invariant cmd <= n && offset <= |d|
      invariant all == Join(infos, ParseCommands(d[offset..], offset, n - cmd))
    {
      var p := ProcessCommand(d, offset);
      NextCommand(infos, d[offset..], offset, n - cmd, p);
      if p.Undefined? {
        return NoParse;
      }
      if p.Unknown? {
        return Parses(infos, offset);
      }
      DropTwice(d, offset, p.len);
      infos, offset, cmd := infos + [p.info], offset + p.len, cmd + 1;
    }
    JoinEnd(infos, d[offset..], offset);
    return Parses(infos, offset);
  }

  ghost function Join(infos: seq<Info>, r: Parses): Parses {
    if r.NoParse? then NoParse else Parses(infos + r.infos, r.next)
  }

  lemma {:induction false} NextCommand(infos: seq<Info>, s: seq<byte>, at: nat, n: nat, p: Parsed)
    requires n > 0 && p == ParseCommand(s, at)
    ensures var r := Join(infos, ParseCommands(s, at, n));
            && (p.Undefined? ==> r == NoParse)
            && (p.Unknown? ==> r == Parses(infos, at))
            && (p.Known? ==> p.len <= |s| && r == Join(infos + [p.info], ParseCommands(s[p.len..], at + p.len, n - 1)))
  {
    hide ParseCommand;
    assert infos + [] == infos;
    if p.Known? {
      JoinNext(infos, p.info, ParseCommands(s[p.len..], at + p.len, n - 1));
    }
  }

  lemma {:induction false} JoinEnd(infos: seq<Info>, s: seq<byte>, at: nat)
    ensures Join(infos, ParseCommands(s, at, 0)) == Parses(infos, at)
  {
    assert infos + [] == infos;
  }

  lemma {:induction false} JoinNone(r: Parses)
    ensures Join([], r) == r
  {
    if r.Parses? {
      assert [] + r.infos == r.infos;
    }
  }

  lemma {:induction false} JoinNext(infos: seq<Info>, info: Info, r: Parses)
    ensures Join(infos, WithFirst(info, r)) == Join(infos + [info], r)
  {
    if r.Parses? {
      assert infos + ([info] + r.infos) == infos + [info] + r.infos;
    }
  }

  /** `process_incoming_data`. */
  method ProcessIncomingData(d: seq<byte>) returns (req: Option<Request>)
    ensures req == Parse(d)
  {
    hide Varint.ServerRead, ParseCommands, U32At;
    if |d| < 4 {
      return None;
    }
    var n := Varint.ProcessIncomingVarint(d, 4);
    if !n.Got? || |d| < 4 + n.len + 1 {
      return None;
    }
    var at := 4 + n.len;
    var cs := ProcessCommands(d, at + 1, n.value);
    if cs.NoParse? {
      return None;
    }
    return Some(Request(U32At(d), d[at], cs.infos, cs.next));
  }

  // ---------------------------------------------------------------------------------------------
  // Parsing what the client encodes

  /** Every varint of the command is below 2^31. */
  predicate Small(c: Command)
    requires Sized(c)
  {
    SmallFields(Args(c))
  }

  predicate SmallFields(fs: seq<Field>) {
    forall i :: 0 <= i < |fs| ==> match fs[i] case FVar(v) => v < TWO31 case FStr(s) => |s| < TWO31 case _ => true
  }

  /** The device a command is meant for; the session's own commands have none. */
  function DeviceOf(c: Command): int {
    match c
    case Init(_, _) | Term | ClientInfo(_) | SetDevices(_) | GetDevices | GetSystemDescription => -1
    case DeviceOpen(dev) => dev
    case DeviceClose(dev) => dev
    case SetConfig(dev, _, _) => dev
    case GetDeviceCapabilities(dev) => dev
    case RegList(dev) => dev
    case RegRead(dev, _) => dev
    case RegWrite(dev, _) => dev
    case MemRead(dev, _, _, _, _) => dev
    case MemWrite(dev, _, _, _, _) => dev
  }

  /** What an entry of the command array tells a handler: the protocol's number for the command, its device,
      and its arguments in the protocol's order. */
  predicate Tells(info: Info, c: Command) {
    var enc, args := info.cmdEnc, info.args;
    && info.apnum == DeviceOf(c)
    && match c
       case Init(version, id) => enc == 0x1 && args == [FVar(version), FStr(id)]
       case Term => enc == 0x2 && args == []
       case ClientInfo(message) => enc == 0x5 && args == [FStr(message)]
       case SetDevices(ds) =>
         && enc == 0x10 && |args| == 1 + 2 * |ds| && args[0].FVar? && args[0].v == |ds|
         && forall i :: 0 <= i < |ds| ==> args[1 + 2 * i] == FStr(ds[i].0) && args[2 + 2 * i] == FStr(ds[i].1)
       case GetDevices => enc == 0x11 && args == []
       case GetSystemDescription => enc == 0x12 && args == []
       case DeviceOpen(dev) => enc == 0x100 && args == [FVar(dev)]
       case DeviceClose(dev) => enc == 0x101 && args == [FVar(dev)]
       case SetConfig(dev, name, value) => enc == 0x102 && args == [FVar(dev), FStr(name), FStr(value)]
       case GetDeviceCapabilities(dev) => enc == 0x104 && args == [FVar(dev)]
       case RegList(dev) => enc == 0x200 && args == [FVar(dev)]
       case RegRead(dev, ids) =>
         && enc == 0x201 && |args| == 2 + |ids| && args[0] == FVar(dev) && args[1].FVar? && args[1].v == |ids|
         && forall i :: 0 <= i < |ids| ==> args[2 + i] == FVar(ids[i])
       case RegWrite(dev, ws) =>
         && enc == 0x202 && |args| == 2 + 2 * |ws| && args[0] == FVar(dev) && args[1].FVar? && args[1].v == |ws|
         && forall i :: 0 <= i < |ws| ==> args[2 + 2 * i] == FVar(ws[i].0) && args[3 + 2 * i] == F32(ws[i].1)
       case MemRead(dev, address, size, acc, flags) =>
         enc == 0x300 && args == [FVar(dev), F64(address), FVar(size), FVar(acc), FVar(flags)]
       case MemWrite(dev, address, acc, flags, data) =>
         && enc == 0x301 && |args| == 6 && args[2].FVar? && args[2].v == |data|
         && args == [FVar(dev), F64(address), args[2], FVar(acc), FVar(flags), FData(data)]
  }

  lemma {:induction false} NamesAt(ds: seq<(CString, CString)>, i: nat)
    requires i < |ds|
    ensures NameFields(ds)[2 * i] == FStr(ds[i].0) && NameFields(ds)[2 * i + 1] == FStr(ds[i].1)
  {
    if i > 0 {
      NamesAt(ds[1..], i - 1);
    }
  }

  lemma {:induction false} IdsAt(ids: seq<u64>, i: nat)
    requires i < |ids|
    ensures IdFields(ids)[i] == FVar(ids[i])
  {
    if i > 0 {
      IdsAt(ids[1..], i - 1);
    }
  }

  lemma {:induction false} WritesAt(ws: seq<(u64, u32)>, i: nat)
    requires i < |ws|
    ensures WriteFields(ws)[2 * i] == FVar(ws[i].0) && WriteFields(ws)[2 * i + 1] == F32(ws[i].1)
  {
    if i > 0 {
      WritesAt(ws[1..], i - 1);
    }
  }

  lemma {:induction false} SmallDevice(c: Command)
    requires Sized(c) && Small(c)
    ensures ApNum(Type(c), HeadArgs(c)) == DeviceOf(c)
  {
    hide TailArgs;
    if HeadArgs(c) != [] {
      assert Args(c)[0] == HeadArgs(c)[0];
    }
  }

  lemma {:induction false} NamesTold(info: Info, ds: seq<(CString, CString)>)
    requires |ds| < TWO32 && info.cmdEnc == 0x10 && info.apnum == -1 && info.args == [FVar(|ds|)] + NameFields(ds)
    ensures Tells(info, SetDevices(ds))
  {
    hide NameFields;
    forall i | 0 <= i < |ds| ensures info.args[1 + 2 * i] == FStr(ds[i].0) && info.args[2 + 2 * i] == FStr(ds[i].1) {
      NamesAt(ds, i);
    }
  }

  lemma {:induction false} IdsTold(info: Info, dev: u64, ids: seq<u64>)
    requires |ids| < TWO32 && info.cmdEnc == 0x201 && info.apnum == dev
    requires info.args == [FVar(dev), FVar(|ids|)] + IdFields(ids)
    ensures Tells(info, RegRead(dev, ids))
  {
    hide IdFields;
    forall i | 0 <= i < |ids| ensures info.args[2 + i] == FVar(ids[i]) {
      IdsAt(ids, i);
    }
  }

  lemma {:induction false} WritesTold(info: Info, dev: u64, ws: seq<(u64, u32)>)
    requires |ws| < TWO32 && info.cmdEnc == 0x202 && info.apnum == dev
    requires info.args == [FVar(dev), FVar(|ws|)] + WriteFields(ws)
    ensures Tells(info, RegWrite(dev, ws))
  {
    hide WriteFields;
    forall i | 0 <= i < |ws| ensures info.args[2 + 2 * i] == FVar(ws[i].0) && info.args[3 + 2 * i] == F32(ws[i].1) {
      WritesAt(ws, i);
    }
  }

  /** An entry made from a small command tells all about it. */
  lemma {:induction false} InfoTells(c: Command, at: nat)
    requires Sized(c) && Small(c)
    ensures Tells(InfoOf(c, at), c)
  {
    SmallDevice(c);
    hide ApNum, Small, NameFields, IdFields, WriteFields, Varint.Encode;
    match c
    case SetDevices(ds) =>
      NamesTold(InfoOf(c, at), ds);
      hide Tells;
    case RegRead(dev, ids) =>
      IdsTold(InfoOf(c, at), dev, ids);
      hide Tells;
    case RegWrite(dev, ws) =>
      WritesTold(InfoOf(c, at), dev, ws);
      hide Tells;
    case _ =>
  }

  lemma {:induction false} InfosTell(cs: seq<Command>, at: nat)
    requires forall i :: 0 <= i < |cs| ==> Sized(cs[i]) && Small(cs[i])
    ensures forall i :: 0 <= i < |cs| ==> Tells(InfosOf(cs, at)[i], cs[i])
  {
    hide Sized, Small, Tells, InfoOf, CommandBytes;
    if cs != [] {
      InfoTells(cs[0], at);
      InfosTell(cs[1..], at + |CommandBytes(cs[0])|);
      var rest := InfosOf(cs[1..], at + |CommandBytes(cs[0])|);
      forall i | 0 <= i < |cs| ensures Tells(InfosOf(cs, at)[i], cs[i]) {
        if i > 0 {
          assert InfosOf(cs, at)[i] == rest[i - 1] && cs[i] == cs[1..][i - 1];
        }
      }
    }
  }

  function InfoOf(c: Command, at: nat): Info
    requires Sized(c)
  {
    Info(Type(c), ApNum(Type(c), HeadArgs(c)), at + |Varint.Encode(Type(c))|, Args(c))
  }

  /** The parser's requests match the encoder's fields, branch by branch. */
  lemma {:induction false} HeadMatches(c: Command)
    requires Sized(c) && Small(c)
    ensures Head(Type(c)).Some? && ReadsAll(Server, Head(Type(c)).value, HeadArgs(c))
  {
    var h, a := HeadArgs(c), Args(c);
    assert forall i :: 0 <= i < |h| ==> h[i] == a[i];
  }

  lemma {:induction false} NamesMatch(ds: seq<(CString, CString)>)
    requires SmallFields(NameFields(ds))
    ensures ReadsAll(Server, Repeat([KStr(0), KStr(0)], |ds|), NameFields(ds))
  {
    hide Repeat, NameFields;
    NamesAre(ds);
    RepeatAll([KStr(0), KStr(0)], |ds|);
  }

  lemma {:induction false} IdsMatch(ids: seq<u64>)
    requires SmallFields(IdFields(ids))
    ensures ReadsAll(Server, Repeat([KVar], |ids|), IdFields(ids))
  {
    hide Repeat, IdFields;
    IdsAre(ids);
    RepeatAll([KVar], |ids|);
  }

  lemma {:induction false} WritesMatch(ws: seq<(u64, u32)>)
    requires SmallFields(WriteFields(ws))
    ensures ReadsAll(Server, Repeat([KVar, K32], |ws|), WriteFields(ws))
  {
    hide Repeat, WriteFields;
    WritesAre(ws);
    RepeatAll([KVar, K32], |ws|);
  }

  lemma {:induction false} TailMatches(c: Command)
    requires Sized(c) && Small(c)
    ensures var rest := Tail(Type(c), HeadArgs(c));
            ReadsAll(Server, Repeat(rest.group, rest.count), TailArgs(c))
  {
    hide Repeat, NameFields, IdFields, WriteFields, SmallFields, Small;
    TailSmall(c);
    match c
    case SetDevices(ds) =>
      hide ReadsAll;
      NamesMatch(ds);
    case RegRead(_, ids) =>
      hide ReadsAll;
      IdsMatch(ids);
    case RegWrite(_, ws) =>
      hide ReadsAll;
      WritesMatch(ws);
    case MemWrite(_, _, _, _, data) =>
      RepeatAll([KData(|data|)], 1);
    case _ =>
      RepeatNone([]);
  }

  lemma {:induction false} RepeatNone(group: seq<Kind>)
    ensures Repeat(group, 0) == []
  {
  }

  lemma {:induction false} TailSmall(c: Command)
    requires Sized(c) && Small(c)
    ensures SmallFields(TailArgs(c))
  {
    hide TailArgs, HeadArgs;
    var t, a := TailArgs(c), Args(c);
    assert forall i :: 0 <= i < |t| ==> t[i] == a[|HeadArgs(c)| + i];
  }

  lemma {:induction false} RepeatAll(group: seq<Kind>, n: nat)
    requires |group| == 1 || |group| == 2
    ensures |Repeat(group, n)| == if |group| == 1 then n else 2 * n
    ensures forall i :: 0 <= i < |Repeat(group, n)| ==> Repeat(group, n)[i] == group[i % |group|]
  {
    if n > 0 {
      RepeatAll(group, n - 1);
    }
  }

  lemma {:induction false} NamesAre(ds: seq<(CString, CString)>)
    ensures forall i :: 0 <= i < |NameFields(ds)| ==> NameFields(ds)[i].FStr?
  {
    if ds != [] {
      NamesAre(ds[1..]);
    }
  }

  lemma {:induction false} IdsAre(ids: seq<u64>)
    ensures forall i :: 0 <= i < |IdFields(ids)| ==> IdFields(ids)[i].FVar?
  {
    if ids != [] {
      IdsAre(ids[1..]);
    }
  }

  lemma {:induction false} WritesAre(ws: seq<(u64, u32)>)
    ensures forall i :: 0 <= i < |WriteFields(ws)| ==>
              if i % 2 == 0 then WriteFields(ws)[i].FVar? else WriteFields(ws)[i].F32?
  {
    if ws != [] {
      WritesAre(ws[1..]);
      var t := WriteFields(ws[1..]);
      forall i | 0 <= i < |WriteFields(ws)|
        ensures if i % 2 == 0 then WriteFields(ws)[i].FVar? else WriteFields(ws)[i].F32?
      {
        if i >= 2 {
          assert WriteFields(ws)[i] == t[i - 2];
        }
      }
    }
  }

  /** Arguments in two parts are read back when each part matches what the parser asks for. */
  lemma {:induction false} ArgsInTwo(enc: u64, h: seq<Field>, t: seq<Field>, post: seq<byte>)
    requires Head(enc).Some? && ReadsAll(Server, Head(enc).value, h)
    requires ReadsAll(Server, Repeat(Tail(enc, h).group, Tail(enc, h).count), t)
    ensures ParseArgs(enc, PutAll(h + t) + post) == ArgList(ApNum(enc, h), h + t, |PutAll(h + t)|)
  {
    hide Head, Tail, ReadsAll, PutAll, GetAll, ApNum, Repeat;
    var rest := Tail(enc, h);
    var front, back := PutAll(h), PutAll(t) + post;
    PutAllAppend(h, t);
    assert PutAll(h + t) + post == front + back;
    RoundTrip(Server, Head(enc).value, h, back);
    DropFront(front, back);
    RoundTrip(Server, Repeat(rest.group, rest.count), t, post);
  }

  lemma {:induction false} ArgsParse(c: Command, post: seq<byte>)
    requires Sized(c) && Small(c)
    ensures Head(Type(c)).Some?
    ensures ParseArgs(Type(c), PutAll(Args(c)) + post)
         == ArgList(ApNum(Type(c), HeadArgs(c)), Args(c), |PutAll(Args(c))|)
  {
    HeadMatches(c);
    TailMatches(c);
    ArgsInTwo(Type(c), HeadArgs(c), TailArgs(c), post);
    hide Small, Sized, Type, HeadArgs, TailArgs, Head, Tail, PutAll, ParseArgs, ReadsAll, ApNum, Repeat;
  }

  lemma {:induction false} ParseTyped(enc: u64, args: seq<byte>, at: nat, post: seq<byte>)
    requires enc < TWO31 && Head(enc).Some? && ParseArgs(enc, args + post).ArgList?
    ensures var a := ParseArgs(enc, args + post);
            var typ := Varint.Encode(enc);
            ParseCommand(typ + args + post, at) == Known(Info(enc, a.apnum, at + |typ|, a.args), |typ| + a.len)
  {
    hide Head, ParseArgs, Varint.Encode, Varint.ServerRead;
    var typ := Varint.Encode(enc);
    assert typ + args + post == typ + (args + post);
    Varint.ServerRoundTrip(enc, args + post);
    DropFront(typ, args + post);
  }

  lemma {:induction false} ParsedTo(c: Command, at: nat, post: seq<byte>)
    requires Sized(c) && Small(c)
    ensures ParseCommand(CommandBytes(c) + post, at) == Known(InfoOf(c, at), |CommandBytes(c)|)
  {
    TypeSmall(c);
    hide Small, Sized, Type, Args, HeadArgs, Head, PutAll, Varint.Encode, ParseArgs, ParseCommand, ApNum;
    ArgsParse(c, post);
    ParseTyped(Type(c), PutAll(Args(c)), at, post);
  }

  /** A command is parsed to an entry that tells its type, device and arguments and where they start, and
      the parser moves exactly behind it, whatever follows. */
  lemma {:induction false} ParseOne(c: Command, at: nat, post: seq<byte>)
    requires Sized(c) && Small(c)
    ensures ParseCommand(CommandBytes(c) + post, at) == Known(InfoOf(c, at), |CommandBytes(c)|)
    ensures var info := ParseCommand(CommandBytes(c) + post, at).info;
            Tells(info, c) && info.data == at + |CommandBytes(c)| - |PutAll(Args(c))|
  {
    hide Small, Sized, Type, Args, HeadArgs, PutAll, Varint.Encode, ParseCommand, ApNum, Tells, DeviceOf;
    ParsedTo(c, at, post);
    InfoTells(c, at);
  }

  lemma {:induction false} TypeSmall(c: Command)
    ensures Type(c) < TWO31
  {
  }

  function InfosOf(cs: seq<Command>, at: nat): (r: seq<Info>)
    requires forall i :: 0 <= i < |cs| ==> Sized(cs[i])
    ensures |r| == |cs|
  {
    if cs == [] then [] else [InfoOf(cs[0], at)] + InfosOf(cs[1..], at + |CommandBytes(cs[0])|)
  }

  lemma {:induction false} ParseStep(s: seq<byte>, at: nat, n: nat)
    requires n > 0 && ParseCommand(s, at).Known?
    ensures var p := ParseCommand(s, at);
            ParseCommands(s, at, n) == WithFirst(p.info, ParseCommands(s[p.len..], at + p.len, n - 1))
  {
    hide ParseCommand;
  }

  lemma {:induction false} ParseMany(cs: seq<Command>, at: nat, post: seq<byte>)
    requires forall i :: 0 <= i < |cs| ==> Sized(cs[i]) && Small(cs[i])
    ensures ParseCommands(AllBytes(cs) + post, at, |cs|) == Parses(InfosOf(cs, at), at + |AllBytes(cs)|)
  {
    hide Sized, Small, CommandBytes, InfoOf, ParseCommand, ParseCommands, AllBytes, InfosOf;
    if cs == [] {
      NoneToParse(at, post);
    } else {
      var first, others := CommandBytes(cs[0]), AllBytes(cs[1..]);
      ManyFirst(cs, at, post);
      ParseOne(cs[0], at, others + post);
      DropFront(first, others + post);
      ParseStep(first + (others + post), at, |cs|);
      ParseMany(cs[1..], at + |first|, post);
    }
  }

  /** The protocol's numbers of the commands the parser has a branch for. */
  predicate HasBranch(enc: u64) {
    || enc == 0x1 || enc == 0x2 || enc == 0x5 || enc == 0x10 || enc == 0x11 || enc == 0x12
    || 0x100 <= enc <= 0x104 || 0x200 <= enc <= 0x202 || 0x300 <= enc <= 0x302
  }

  /** A type without a branch ends the loop: what stood in front of it has been parsed, and nothing of what
      follows is looked at, however many commands were announced. */
  lemma {:induction false} UnknownEnds(cs: seq<Command>, enc: u64, at: nat, n: nat, post: seq<byte>)
    requires forall i :: 0 <= i < |cs| ==> Sized(cs[i]) && Small(cs[i])
    requires n > |cs| && enc < TWO31 && !HasBranch(enc)
    ensures ParseCommands(AllBytes(cs) + (Varint.Encode(enc) + post), at, n) ==
              Parses(InfosOf(cs, at), at + |AllBytes(cs)|)
  {
    hide Sized, Small, CommandBytes, InfoOf, ParseCommand, ParseCommands, AllBytes, InfosOf, HasBranch, Varint.Encode,
            Tells;
    var tail := Varint.Encode(enc) + post;
    if cs == [] {
      UnknownFirst(enc, at, n, post);
    } else {
      var first, others := CommandBytes(cs[0]), AllBytes(cs[1..]);
      ManyFirst(cs, at, tail);
      ParseOne(cs[0], at, others + tail);
      DropFront(first, others + tail);
      ParseStep(first + (others + tail), at, n);
      UnknownEnds(cs[1..], enc, at + |first|, n - 1, post);
    }
  }

  lemma {:induction false} UnknownFirst(enc: u64, at: nat, n: nat, post: seq<byte>)
    requires n > 0 && enc < TWO31 && !HasBranch(enc)
    ensures ParseCommands(AllBytes([]) + (Varint.Encode(enc) + post), at, n) ==
              Parses(InfosOf([], at), at + |AllBytes([])|)
  {
    NoBranch(enc);
    hide HasBranch, Head, Varint.Encode, Varint.ServerRead, ParseArgs;
    var s := Varint.Encode(enc) + post;
    Varint.ServerRoundTrip(enc, post);
    assert ParseCommand(s, at) == Unknown;
    hide ParseCommand;
    assert AllBytes([]) + s == s;
  }

  lemma {:induction false} NoBranch(enc: u64)
    requires !HasBranch(enc)
    ensures Head(enc).None?
  {
  }

  lemma {:induction false} NoneToParse(at: nat, post: seq<byte>)
    ensures ParseCommands(AllBytes([]) + post, at, 0) == Parses(InfosOf([], at), at + |AllBytes([])|)
  {
  }

  lemma {:induction false} ManyFirst(cs: seq<Command>, at: nat, post: seq<byte>)
    requires cs != [] && forall i :: 0 <= i < |cs| ==> Sized(cs[i])
    ensures var first, others := CommandBytes(cs[0]), AllBytes(cs[1..]);
            && AllBytes(cs) + post == first + (others + post) && |AllBytes(cs)| == |first| + |others|
            && InfosOf(cs, at) == [InfoOf(cs[0], at)] + InfosOf(cs[1..], at + |first|)
  {
    hide Sized, CommandBytes, InfoOf;
    assert AllBytes(cs) == CommandBytes(cs[0]) + AllBytes(cs[1..]);
    Assoc(CommandBytes(cs[0]), AllBytes(cs[1..]), post);
  }

  /** The server recovers, from any request frame the client can build out of commands with small
      varints, the length, the mode, and every command in order, and stops exactly at the length,
      whatever the receive buffer holds behind it. */
  lemma {:induction false} ParseFrame(mode: byte, cs: seq<Command>, post: seq<byte>)
    requires forall i :: 0 <= i < |cs| ==> Sized(cs[i]) && Small(cs[i])
    requires |cs| < TWO31 && |Frame(mode, cs)| < TWO32
    ensures var f := Frame(mode, cs);
            var start := 4 + |Varint.Encode(|cs|)| + 1;
            && Parse(f + post) == Some(Request(|f|, mode, InfosOf(cs, start), |f|))
            && forall i :: 0 <= i < |cs| ==> Tells(InfosOf(cs, start)[i], cs[i])
  {
    hide Small, Sized, Varint.Encode, AllBytes, InfosOf, ParseCommands, LE, FromLE, U32At, Varint.ServerRead, Tells,
            CommandBytes;
    InfosTell(cs, 4 + |Varint.Encode(|cs|)| + 1);
    var n, all := Varint.Encode(|cs|), AllBytes(cs);
    var f := Frame(mode, cs);
    var len := LE(|f|, 4);
    var d := f + post;
    FrameParts(len, n, mode, all, post, d);
    GetPut32(|f|, n + ([mode] + all + post));
    Varint.ServerRoundTrip(|cs|, [mode] + all + post);
    ParseMany(cs, 4 + |n| + 1, post);
  }

  lemma {:induction false} FrameParts(len: seq<byte>, n: seq<byte>, mode: byte, all: seq<byte>, post: seq<byte>,
          d: seq<byte>)
    requires |len| == 4 && d == len + (n + [mode] + all) + post
    ensures d == len + (n + ([mode] + all + post))
    ensures d[4..] == n + ([mode] + all + post)
    ensures |d| > 4 + |n| && d[4 + |n|] == mode && d[4 + |n| + 1..] == all + post
  {
  }
}
