/** Memory chunks on the wire: the utility's batches of reads and writes, what the server makes of
    them, and what comes back.
 */
module MemoryWire {
  import opened Bytes
  import Varint
  import opened Fields
  import opened CswpBuffer
  import opened Commands
  import opened DummyServer
  import opened Responses
  import opened Matching
  import opened CswpClient
  import opened EndToEnd
  import opened MemorySplit
  import opened MemoryCost
  import opened MemoryChunks
  import opened Capacity

  function Waiting(typ: u64, n: nat): (ps: seq<Pending>)
    ensures |ps| == n && forall i :: 0 <= i < n ==> ps[i] == Pending(typ, NoHandler)
  {
    seq(n, i => Pending(typ, NoHandler))
  }

  /** The error mode of a chunk's request: a batch that aborts, or a plain call. */
  function WireMode(pieces: nat): byte {
    if pieces > 1 then 2 else 0
  }

  ghost predicate Returns(o: Outcome, res: int) {
    o.Matched? && o.res == res
  }

  /** `execute_set_dev_mem_out` on the client: several pieces go out as one aborting batch, a single
      piece as a call of its own.  A piece that does not fit leaves the batch open behind it. */
  method ExecuteSetOverClient(client: Client, deviceNo: u64, subreqs: array<SubReq>, num: nat, rwValues: array<byte>,
          ch: Channel)
    returns (res: int)
    requires client.Valid() && client.batchMode.BatchNone?
    requires subreqs !in client.Repr() && rwValues !in client.Repr()
    requires num <= subreqs.Length && num <= MAX_NUM_SUBREQ && InRange(subreqs[..num], TWO64, rwValues.Length)
    requires OneByte(deviceNo, 0, subreqs[..num]) && ChannelOk(ch, Waiting(CSWP_MEM_WRITE, num), num)
    modifies client.Repr()
    ensures client.Valid()
    ensures num == 0 ==> res == 0 && client.sent == old(client.sent)
    ensures num > 0 && WriteFits(subreqs[..num]) ==>
              && client.batchMode.BatchNone? && |client.sent| == |old(client.sent)| + 1
              && client.sent[..|old(client.sent)|] == old(client.sent)
              && IsFrame(client.sent[|old(client.sent)|], WireMode(num),
                         WriteCommands(deviceNo, 0, subreqs[..num], rwValues[..]))
              && Returns(Transacted(ch, Waiting(CSWP_MEM_WRITE, num), num, 0), res)
    ensures num > 0 && !WriteFits(subreqs[..num]) ==>
              res == CSWP_BUFFER_FULL && client.sent == old(client.sent)
              && client.batchMode == if num > 1 then BatchAbort else BatchNone
  {
    hide ChannelOk, IsFrame, WriteCommand, Transacted, CommandBytes, WriteCost, Fields.ReadsAll;
    res := 0;
    if num == 1 {
      OnlyPiece(subreqs[..num], deviceNo, rwValues[..]);
      assert Waiting(CSWP_MEM_WRITE, 1) == [Pending(CSWP_MEM_WRITE, NoHandler)];
      res := SetOne(client, deviceNo, subreqs[0], rwValues, ch);
    } else if num > 1 {
      res := SetBatch(client, deviceNo, subreqs, num, rwValues, ch);
    }
  }

  lemma {:induction false} OnlyPiece(ps: seq<SubReq>, dev: u64, data: seq<byte>)
    requires |ps| == 1 && InRange(ps, TWO64, |data|)
    ensures WriteCommands(dev, 0, ps, data) == [WriteCommand(dev, 0, ps[0], data)]
    ensures WriteCost(ps) == 13 + VarLen(ps[0].size) + ps[0].size
  {
    assert ps[1..] == [];
  }

  method SetOne(client: Client, deviceNo: u64, s: SubReq, rwValues: array<byte>, ch: Channel) returns (res: int)
    requires client.Valid() && client.batchMode.BatchNone? && rwValues !in client.Repr()
    requires s.bufIdx + s.size <= rwValues.Length && deviceNo < 0x80 && s.acc < 0x80
    requires ChannelOk(ch, [Pending(CSWP_MEM_WRITE, NoHandler)], 1)
    modifies client.Repr()
    ensures client.Valid() && client.batchMode.BatchNone?
    ensures if REQ_HEADER_SIZE + 13 + VarLen(s.size) + s.size <= REQ_RSP_BUFFER_SIZE then
              && |client.sent| == |old(client.sent)| + 1 && client.sent[..|old(client.sent)|] == old(client.sent)
              && IsFrame(client.sent[|old(client.sent)|], 0, [WriteCommand(deviceNo, 0, s, rwValues[..])])
              && Returns(Transacted(ch, [Pending(CSWP_MEM_WRITE, NoHandler)], 1, 0), res)
            else res == CSWP_BUFFER_FULL && client.sent == old(client.sent)
  {
    ghost var data := rwValues[..];
    WriteSize(deviceNo, 0, s, data);
    var c := MemWrite(deviceNo, s.saddr, s.acc, 0, rwValues[s.bufIdx..s.bufIdx + s.size]);
    assert c == WriteCommand(deviceNo, 0, s, data) && ShortStrings(Args(c)) && Type(c) == CSWP_MEM_WRITE;
    hide ChannelOk, IsFrame, WriteCommand, Transacted, CommandBytes, ShortStrings, Args, Type;
    res := client.Call(c, NoHandler, ch);
  }

  /** One piece of a batch. */
  method SetPiece(client: Client, deviceNo: u64, s: SubReq, rwValues: array<byte>, ch: Channel) returns (res: int)
    requires client.Open() && client.batchMode.BatchAbort? && rwValues !in client.Repr()
    requires s.bufIdx + s.size <= rwValues.Length && deviceNo < 0x80 && s.acc < 0x80
    modifies client.Repr()
    ensures client.Valid() && client.batchMode.BatchAbort? && client.sent == old(client.sent)
    ensures if old(client.cmd.used) + 13 + VarLen(s.size) + s.size <= REQ_RSP_BUFFER_SIZE then
              && res == CSWP_SUCCESS && client.Open() && client.clean == old(client.clean)
              && client.cmd.used == old(client.cmd.used) + 13 + VarLen(s.size) + s.size
              && client.cmds == old(client.cmds) + [WriteCommand(deviceNo, 0, s, rwValues[..])]
              && client.pending == old(client.pending) + [Pending(CSWP_MEM_WRITE, NoHandler)]
            else res == CSWP_BUFFER_FULL
  {
    ghost var data := rwValues[..];
    WriteSize(deviceNo, 0, s, data);
    var c := MemWrite(deviceNo, s.saddr, s.acc, 0, rwValues[s.bufIdx..s.bufIdx + s.size]);
    assert c == WriteCommand(deviceNo, 0, s, data) && ShortStrings(Args(c)) && Type(c) == CSWP_MEM_WRITE;
    hide ChannelOk, IsFrame, WriteCommand, Transacted, CommandBytes, ShortStrings, Args, Type, Holds;
    res := client.Call(c, NoHandler, ch);
  }

  method SetBatch(client: Client, deviceNo: u64, subreqs: array<SubReq>, num: nat, rwValues: array<byte>, ch: Channel)
    returns (res: int)
    requires client.Valid() && client.batchMode.BatchNone?
    requires subreqs !in client.Repr() && rwValues !in client.Repr()
    requires 1 < num <= subreqs.Length && InRange(subreqs[..num], TWO64, rwValues.Length)
    requires OneByte(deviceNo, 0, subreqs[..num]) && ChannelOk(ch, Waiting(CSWP_MEM_WRITE, num), num)
    modifies client.Repr()
    ensures client.Valid()
    ensures if WriteFits(subreqs[..num]) then
              && client.batchMode.BatchNone? && |client.sent| == |old(client.sent)| + 1
              && client.sent[..|old(client.sent)|] == old(client.sent)
              && IsFrame(client.sent[|old(client.sent)|], 2, WriteCommands(deviceNo, 0, subreqs[..num], rwValues[..]))
              && Returns(Transacted(ch, Waiting(CSWP_MEM_WRITE, num), num, 0), res)
            else
              res == CSWP_BUFFER_FULL && client.sent == old(client.sent) && client.batchMode.BatchAbort?
  {
    hide ChannelOk, IsFrame, WriteCommand, Transacted, WriteCost, VarLen, Holds, HandlerOk;
    ghost var ps, data := subreqs[..num], rwValues[..];
    ghost var cs := WriteCommands(deviceNo, 0, ps, data);
    client.BatchBegin(true);
    NoCost(ps);
    for i := 0 to num
      invariant client.Open() && client.batchMode.BatchAbort? && client.clean && client.sent == old(client.sent)
      invariant client.cmds == cs[..i] && client.pending == Waiting(CSWP_MEM_WRITE, i)
      invariant client.cmd.used == REQ_HEADER_SIZE + WriteCost(ps[..i]) && client.Repr() == old(client.Repr())
      invariant subreqs[..num] == ps && rwValues[..] == data
    {
      var s := subreqs[i];
      assert s == ps[i];
      CostSnoc(ps, i);
      CostPrefix(ps, i + 1);
      res := SetPiece(client, deviceNo, s, rwValues, ch);
      if res != CSWP_SUCCESS {
        return;
      }
      assert cs[..i + 1] == cs[..i] + [cs[i]];
      assert Waiting(CSWP_MEM_WRITE, i + 1) == Waiting(CSWP_MEM_WRITE, i) + [Pending(CSWP_MEM_WRITE, NoHandler)];
    }
    assert ps[..num] == ps && cs[..num] == cs;
    var ops;
    ops, res := client.BatchEnd(ch, 0);
  }

  // ---------------------------------------------------------------------------------------------
  // Writes, as the server performs them

  /** A parsed write of one piece: its device, and everything about the piece in the protocol's order. */
  predicate WritesPiece(info: Info, dev: int, p: SubReq, data: seq<byte>)
    requires p.bufIdx + p.size <= |data|
  {
    && info.cmdEnc == 0x301 && info.apnum == dev && 0 <= dev < TWO64
    && info.args == [FVar(dev), F64(p.saddr), FVar(p.size), FVar(p.acc), FVar(0),
                     FData(data[p.bufIdx..p.bufIdx + p.size])]
  }

  predicate ReadsPiece(info: Info, dev: int, p: SubReq) {
    && info.cmdEnc == 0x300 && info.apnum == dev && 0 <= dev < TWO64
    && info.args == [FVar(dev), F64(p.saddr), FVar(p.size), FVar(p.acc), FVar(0)]
  }

  /** An access of a device. */
  datatype Touch = Touch(dev: int, access: Access)

  /** The memories of a server's devices, and the writes made to them. */
  datatype Board = Board(mems: map<int, seq<byte>>, writes: seq<Touch>)

  /** What a parsed memory write does: the device it names is written. */
  function Perform(b: Board, info: Info): Board {
    var a := info.args;
    if info.cmdEnc == CSWP_MEM_WRITE && |a| == 6 && a[1].F64? && a[2].FVar? && a[3].FVar? && a[5].FData?
       && info.apnum in b.mems && |a[5].data| == a[2].v && a[1].d + a[2].v <= |b.mems[info.apnum]| then
      Board(b.mems[info.apnum := Move(b.mems[info.apnum], a[1].d, a[5].data, 0, a[2].v)],
            b.writes + [Touch(info.apnum, Access(true, a[1].d, a[3].v, a[2].v))])
    else b
  }

  function PerformAll(b: Board, infos: seq<Info>): Board
    decreases |infos|
  {
    if infos == [] then b else PerformAll(Perform(b, infos[0]), infos[1..])
  }

  /** The writes of pieces. */
  function Touches(dev: int, ps: seq<SubReq>): (ts: seq<Touch>)
    ensures |ts| == |ps|
    ensures forall i :: 0 <= i < |ps| ==> ts[i] == Touch(dev, Access(true, ps[i].saddr, ps[i].acc, ps[i].size))
  {
    seq(|ps|, i requires 0 <= i < |ps| => Touch(dev, Access(true, ps[i].saddr, ps[i].acc, ps[i].size)))
  }

  /** What an entry tells about a piece's write, field by field. */
  lemma {:induction false} ToldWrite(info: Info, dev: u64, p: SubReq, data: seq<byte>)
    requires p.bufIdx + p.size <= |data| && Tells(info, WriteCommand(dev, 0, p, data))
    ensures WritesPiece(info, dev, p, data)
  {
    assert info.args[2] == FVar(p.size);
  }

  lemma {:induction false} ToldRead(info: Info, dev: u64, p: SubReq)
    requires Tells(info, ReadCommand(dev, 0, p))
    ensures ReadsPiece(info, dev, p)
  {
  }

  lemma {:induction false} PerformsPiece(b: Board, dev: int, p: SubReq, data: seq<byte>, info: Info)
    requires dev in b.mems && p.saddr + p.size <= |b.mems[dev]| && p.bufIdx + p.size <= |data|
    requires WritesPiece(info, dev, p, data)
    ensures Perform(b, info) == Board(b.mems[dev := Move(b.mems[dev], p.saddr, data, p.bufIdx, p.size)],
                                      b.writes + [Touch(dev, Access(true, p.saddr, p.acc, p.size))])
  {
    var bytes := data[p.bufIdx..p.bufIdx + p.size];
    MoveOf(b.mems[dev], p.saddr, data, p.bufIdx, p.size, bytes);
    hide Move;
  }

  lemma {:induction false} PerformsPieces(b: Board, dev: int, ps: seq<SubReq>, data: seq<byte>, infos: seq<Info>)
    requires dev in b.mems && InRange(ps, |b.mems[dev]|, |data|) && |infos| == |ps|
    requires forall i :: 0 <= i < |ps| ==> WritesPiece(infos[i], dev, ps[i], data)
    ensures PerformAll(b, infos) ==
              Board(b.mems[dev := WriteAll(b.mems[dev], ps, data)], b.writes + Touches(dev, ps))
    decreases |ps|
  {
    hide WritesPiece, Perform, Move;
    if ps == [] {
      assert b.writes + [] == b.writes && b.mems[dev := b.mems[dev]] == b.mems;
    } else {
      var p, mem := ps[0], b.mems[dev];
      PerformsPiece(b, dev, p, data, infos[0]);
      var t := Touch(dev, Access(true, p.saddr, p.acc, p.size));
      var next := Board(b.mems[dev := Move(mem, p.saddr, data, p.bufIdx, p.size)], b.writes + [t]);
      PerformsPieces(next, dev, ps[1..], data, infos[1..]);
      assert b.writes + [t] + Touches(dev, ps[1..]) == b.writes + Touches(dev, ps);
      var last := WriteAll(mem, ps, data);
      assert next.mems[dev := last] == b.mems[dev := last];
    }
  }

  /** The varints of a memory request of the utility are small. */
  lemma {:induction false} RequestsSmall(dev: u64, ps: seq<SubReq>, data: seq<byte>, addr: nat, idx: nat, n: nat)
    requires OneByte(dev, 0, ps) && InRange(ps, TWO64, |data|) && Tiles(ps, addr, idx, n) && n <= MEM_MAX_RW_SZ
    ensures forall i :: 0 <= i < |ps| ==> Small(WriteCommand(dev, 0, ps[i], data))
  {
    PieceSizes(ps, addr, idx, n);
    hide Tiles;
  }

  lemma {:induction false} PieceSizes(ps: seq<SubReq>, addr: nat, idx: nat, n: nat)
    requires Tiles(ps, addr, idx, n)
    ensures forall i :: 0 <= i < |ps| ==> ps[i].size <= n
  {
    hide Width;
    if ps != [] {
      PieceSizes(ps[1..], addr + ps[0].size, idx + ps[0].size, n - ps[0].size);
      forall i | 0 <= i < |ps| ensures ps[i].size <= n {
        if i > 0 {
          assert ps[i] == ps[1..][i - 1];
        }
      }
    }
  }

  lemma {:induction false} AccessesOneByte(dev: nat, addr: u64, idx: u64, n: u64)
    requires dev < 0x80
    ensures OneByte(dev, 0, Pieces(dev, addr, idx, n))
    decreases n
  {
    if n == 0 {
      PiecesDone(dev, addr, idx);
    } else {
      PiecesNext(dev, addr, idx, n);
      var p := FirstPiece(dev, addr, idx, n);
      assert p.acc < 0x80;
      hide Pieces, FirstPiece, Left;
      AccessesOneByte(dev, (addr + p.size) % TWO64, (idx + p.size) % TWO64, n - p.size);
    }
  }

  lemma {:induction false} FrameShort(mode: byte, dev: u64, ps: seq<SubReq>, data: seq<byte>)
    requires InRange(ps, TWO64, |data|) && OneByte(dev, 0, ps) && WriteFits(ps) && |ps| <= MAX_NUM_SUBREQ
    ensures |Frame(mode, WriteCommands(dev, 0, ps, data))| < TWO32
  {
    WriteCommandsCost(dev, 0, ps, data);
    LenIs(|ps|);
    VarLens(|ps|);
    hide WriteCommands, AllBytes, WriteCost, InRange, OneByte, Varint.Encode, VarLen;
  }

  /** Whenever a write chunk fits, the server that parses its frame finds one write for each piece, for the
      chunk's device, and performing them is one plain write of the chunk's range of that device's memory; the
      rest of it and every other device are left alone, and the accesses are the pieces'. */
  lemma {:induction false} WriteChunkOverWire(mode: byte, dev: nat, addr: u64, idx: u64, n: u64, data: seq<byte>,
          b: Board)
    requires dev < 0x80 && n <= MEM_MAX_RW_SZ && WriteFits(Pieces(dev, addr, idx, n)) && dev in b.mems
    requires addr + n <= |b.mems[dev]| <= TWO64 && idx + n <= |data| <= TWO64
    ensures var ps := Pieces(dev, addr, idx, n);
            && InRange(ps, TWO64, |data|)
            && var req := Parse(Frame(mode, WriteCommands(dev, 0, ps, data)));
            && req.Some? && |req.value.infos| == |ps|
            && (forall i :: 0 <= i < |ps| ==> WritesPiece(req.value.infos[i], dev, ps[i], data))
            && PerformAll(b, req.value.infos) ==
                 Board(b.mems[dev := Move(b.mems[dev], addr, data, idx, n)], b.writes + Touches(dev, ps))
  {
    hide Pieces, WriteFits, WriteCommand, Parse, Frame, InfosOf, Tiles, OneByte, Small, Move, PerformAll, WriteAll,
            Tells, WritesPiece, Touches;
    var ps := Pieces(dev, addr, idx, n);
    PiecesTile(dev, addr, idx, n);
    PiecesFew(dev, addr, idx, n);
    TilesInRange(ps, addr, idx, n);
    AccessesOneByte(dev, addr, idx, n);
    RequestsSmall(dev, ps, data, addr, idx, n);
    FrameShort(mode, dev, ps, data);
    var cs := WriteCommands(dev, 0, ps, data);
    ParseFrame(mode, cs, []);
    assert Frame(mode, cs) + [] == Frame(mode, cs);
    var infos := InfosOf(cs, 4 + |Varint.Encode(|cs|)| + 1);
    forall i | 0 <= i < |ps| ensures WritesPiece(infos[i], dev, ps[i], data) {
      ToldWrite(infos[i], dev, ps[i], data);
    }
    PerformsPieces(b, dev, ps, data, infos);
    WriteTiles(b.mems[dev], ps, data, addr, idx, n);
  }

  // ---------------------------------------------------------------------------------------------
  // Reads, as they come back

  /** A read of each piece, answered from the memory. */
  function ReadExchange(dev: u64, p: SubReq, mem: seq<byte>): Exchange
    requires p.saddr + p.size <= |mem|
  {
    Exchange(ReadCommand(dev, 0, p), MemReader(p.size), Added(Memory(mem[p.saddr..p.saddr + p.size])))
  }

  function ReadExchanges(dev: u64, ps: seq<SubReq>, mem: seq<byte>): (xs: seq<Exchange>)
    requires InRange(ps, |mem|, TWO64)
    ensures |xs| == |ps| && forall i :: 0 <= i < |xs| ==> xs[i] == ReadExchange(dev, ps[i], mem)
  {
    seq(|ps|, i requires 0 <= i < |ps| => ReadExchange(dev, ps[i], mem))
  }

  /** The buffer after each piece's data went to its own place. */
  function Place(buf: seq<byte>, ps: seq<SubReq>, outs: seq<Out>): seq<byte>
    requires |ps| <= |outs|
    decreases |ps|
  {
    if ps == [] then buf
    else
      var o := outs[0];
      var next := if o.MemoryOut? && ps[0].bufIdx + |o.data| <= |buf| then Move(buf, ps[0].bufIdx, o.data, 0,
              |o.data|) else buf;
      Place(next, ps[1..], outs[1..])
  }

  lemma {:induction false} PlaceReads(buf: seq<byte>, ps: seq<SubReq>, mem: seq<byte>, outs: seq<Out>)
    requires InRange(ps, |mem|, |buf|) && |ps| <= |outs|
    requires forall i :: 0 <= i < |ps| ==> outs[i] == MemoryOut(mem[ps[i].saddr..ps[i].saddr + ps[i].size])
    ensures Place(buf, ps, outs) == ReadAll(buf, ps, mem)
    decreases |ps|
  {
    hide Move;
    if ps != [] {
      var p := ps[0];
      var data := mem[p.saddr..p.saddr + p.size];
      MoveOf(buf, p.bufIdx, mem, p.saddr, p.size, data);
      assert outs[0] == MemoryOut(data);
      PlaceReads(Move(buf, p.bufIdx, mem, p.saddr, p.size), ps[1..], mem, outs[1..]);
    }
  }

  lemma {:induction false} ReadsProper(dev: u64, ps: seq<SubReq>, mem: seq<byte>)
    requires InRange(ps, |mem|, TWO64)
    requires forall i :: 0 <= i < |ps| ==> Small(ReadCommand(dev, 0, ps[i]))
    ensures AllProper(ReadExchanges(dev, ps, mem))
    ensures forall x :: x in ReadExchanges(dev, ps, mem) ==> x.h.Added? && !x.c.Term?
  {
    hide Small;
  }

  lemma {:induction false} ReadFrameShort(mode: byte, dev: u64, ps: seq<SubReq>)
    requires OneByte(dev, 0, ps) && |ps| <= MAX_NUM_SUBREQ && forall i :: 0 <= i < |ps| ==> ps[i].size < 0x4000
    ensures |Frame(mode, ReadCommands(dev, 0, ps))| < TWO32
  {
    ReadsShort(dev, ps);
    LenIs(|ps|);
    VarLens(|ps|);
    hide ReadCommands, AllBytes, OneByte, Varint.Encode, VarLen;
  }

  lemma {:induction false} ReadsShort(dev: u64, ps: seq<SubReq>)
    requires OneByte(dev, 0, ps) && forall i :: 0 <= i < |ps| ==> ps[i].size < 0x4000
    ensures |AllBytes(ReadCommands(dev, 0, ps))| <= 15 * |ps|
  {
    hide CommandBytes, ReadCommand, VarLen;
    if ps != [] {
      ReadSizeOf(dev, 0, ps[0]);
      VarLens(ps[0].size);
      var cs := ReadCommands(dev, 0, ps);
      assert cs[1..] == ReadCommands(dev, 0, ps[1..]);
      ReadsShort(dev, ps[1..]);
    }
  }

  lemma {:induction false} ReadResponsesRun(mode: byte, dev: u64, ps: seq<SubReq>, mem: seq<byte>)
    requires InRange(ps, |mem|, TWO64)
    requires AllProper(ReadExchanges(dev, ps, mem))
    ensures var xs := ReadExchanges(dev, ps, mem);
            Run(mode, Types(CommandsOf(xs)), HandledOf(xs), false) == ReadResponses(ps, mem)
  {
    hide AllProper, Proper;
    if ps != [] {
      var xs := ReadExchanges(dev, ps, mem);
      assert xs[1..] == ReadExchanges(dev, ps[1..], mem);
      assert AllProper(ReadExchanges(dev, ps[1..], mem)) by { ProperTail(xs); }
      ReadResponsesRun(mode, dev, ps[1..], mem);
      ReadFirst(mode, dev, xs, ps[0], mem);
    }
  }

  lemma {:induction false} ProperTail(xs: seq<Exchange>)
    requires xs != [] && AllProper(xs)
    ensures AllProper(xs[1..])
  {
    hide Proper;
  }

  lemma {:induction false} ReadFirst(mode: byte, dev: u64, xs: seq<Exchange>, p: SubReq, mem: seq<byte>)
    requires xs != [] && AllProper(xs) && AllProper(xs[1..]) && p.saddr + p.size <= |mem|
            && xs[0] == ReadExchange(dev, p, mem)
    ensures Run(mode, Types(CommandsOf(xs)), HandledOf(xs), false) ==
              [Response(CSWP_MEM_READ, 0, Memory(mem[p.saddr..p.saddr + p.size]))]
              + Run(mode, Types(CommandsOf(xs[1..])), HandledOf(xs[1..]), false)
  {
    hide Proper, AllProper;
    var cs, hs := CommandsOf(xs), HandledOf(xs);
    assert cs == [xs[0].c] + CommandsOf(xs[1..]) && hs == [xs[0].h] + HandledOf(xs[1..]);
    assert cs[1..] == CommandsOf(xs[1..]) && hs[1..] == HandledOf(xs[1..]);
    var ts := Types(cs);
    assert ts == [Type(cs[0])] + Types(cs[1..]) && ts[1..] == Types(cs[1..]);
  }

  /** A handler's answer to a parsed read: the bytes of the device it names. */
  predicate AnsweredFrom(mems: map<int, seq<byte>>, info: Info, h: Handled) {
    var a := info.args;
    && |a| == 5 && a[1].F64? && a[2].FVar? && info.apnum in mems && a[1].d + a[2].v <= |mems[info.apnum]|
    && h == Added(Memory(mems[info.apnum][a[1].d..a[1].d + a[2].v]))
  }

  /** The request of a read chunk is parsed to one read for each piece, for the chunk's device, and a server
      that answers these from its devices' memories answers as the exchanges say. */
  lemma {:induction false} ReadsParse(dev: nat, ps: seq<SubReq>, mem: seq<byte>, mems: map<int, seq<byte>>)
    requires InRange(ps, |mem|, TWO64) && |ps| <= MAX_NUM_SUBREQ && dev < 0x80
    requires OneByte(dev, 0, ps) && dev in mems && mems[dev] == mem
    requires forall i :: 0 <= i < |ps| ==> Small(ReadCommand(dev, 0, ps[i])) && ps[i].size < 0x4000
    ensures var xs := ReadExchanges(dev, ps, mem);
            var req := Parse(Frame(WireMode(|ps|), ReadCommands(dev, 0, ps)));
            && req.Some? && |req.value.infos| == |ps|
            && forall i :: 0 <= i < |ps| ==>
                 ReadsPiece(req.value.infos[i], dev, ps[i]) && AnsweredFrom(mems, req.value.infos[i], xs[i].h)
  {
    hide Parse, Frame, InfosOf, OneByte, Small, Tells, ReadCommand, ReadsPiece, AnsweredFrom;
    var cs := ReadCommands(dev, 0, ps);
    var mode := WireMode(|ps|);
    ReadFrameShort(mode, dev, ps);
    ParseFrame(mode, cs, []);
    assert Frame(mode, cs) + [] == Frame(mode, cs);
    var infos := InfosOf(cs, 4 + |Varint.Encode(|cs|)| + 1);
    forall i | 0 <= i < |ps|
      ensures ReadsPiece(infos[i], dev, ps[i]) && AnsweredFrom(mems, infos[i], ReadExchanges(dev, ps, mem)[i].h)
    {
      ToldRead(infos[i], dev, ps[i]);
      AnswerIs(infos[i], dev, ps[i], mems);
    }
  }

  lemma {:induction false} AnswerIs(info: Info, dev: u64, p: SubReq, mems: map<int, seq<byte>>)
    requires ReadsPiece(info, dev, p) && dev in mems && p.saddr + p.size <= |mems[dev]|
    ensures AnsweredFrom(mems, info, ReadExchange(dev, p, mems[dev]).h)
  {
  }

  /** Every read chunk goes over the wire whole: the batch the client sends is parsed to one read for each
      piece, for the chunk's device; run by a server that answers each from that device's memory, it comes
      back in a frame that fits, is accepted, and leaves in the caller's buffer a plain read of the range. */
  lemma {:induction false} ReadChunkOverWire(dev: nat, addr: u64, idx: u64, n: u64, mem: seq<byte>, buf: seq<byte>)
    requires dev < 0x80 && n <= MEM_MAX_RW_SZ
    requires addr + n <= |mem| <= TWO64 && idx + n <= |buf| <= TWO64
    ensures var ps := Pieces(dev, addr, idx, n);
            && InRange(ps, |mem|, TWO64)
            && var xs := ReadExchanges(dev, ps, mem);
            && AllProper(xs) && CommandsOf(xs) == ReadCommands(dev, 0, ps)
            && var req := Parse(Frame(WireMode(|ps|), CommandsOf(xs)));
            && req.Some? && |req.value.infos| == |ps|
            && (forall i :: 0 <= i < |ps| ==>
                  && ReadsPiece(req.value.infos[i], dev, ps[i])
                  && AnsweredFrom(map[dev := mem], req.value.infos[i], xs[i].h))
            && var answer := Serve(Frame(WireMode(|ps|), CommandsOf(xs)), HandledOf(xs));
            && answer.Some? && |Reply(answer.value)| <= REQ_RSP_BUFFER_SIZE
            && var o := Receive(PendingOf(xs), |xs|, Reply(answer.value));
            && o.Matched? && o.res == CSWP_SUCCESS && o.ops == |ps| == |o.outs|
            && Place(buf, ps, o.outs) == Move(buf, idx, mem, addr, n)
  {
    hide Pieces, ReadCommand, Frame, Tiles, OneByte, Small, Move, ReadAll, Serve, Run, Reply, Receive, ReadResponses,
            Place, Parse, ReadsPiece, AnsweredFrom;
    var ps := Pieces(dev, addr, idx, n);
    var mode := WireMode(|ps|);
    PiecesTile(dev, addr, idx, n);
    PiecesFew(dev, addr, idx, n);
    TilesInRange(ps, addr, idx, n);
    AccessesOneByte(dev, addr, idx, n);
    ReadRequestsSmall(dev, ps, addr, idx, n);
    ReadsProper(dev, ps, mem);
    ReadFrameShort(mode, dev, ps);
    ReadsParse(dev, ps, mem, map[dev := mem]);
    var xs := ReadExchanges(dev, ps, mem);
    assert CommandsOf(xs) == ReadCommands(dev, 0, ps);
    BatchOutcome(mode, xs, |xs|);
    ServeFrame(WireMode(|ps|), xs);
    ReadResponsesRun(mode, dev, ps, mem);
    ReadReplyFits(dev, addr, idx, n, mem);
    var o := Receive(PendingOf(xs), |xs|, Reply(ReadResponses(ps, mem)));
    PlaceReads(buf, ps, mem, o.outs);
    ReadTiles(buf, ps, mem, addr, idx, n);
  }

  lemma {:induction false} ReadRequestsSmall(dev: u64, ps: seq<SubReq>, addr: nat, idx: nat, n: nat)
    requires OneByte(dev, 0, ps) && Tiles(ps, addr, idx, n) && n <= MEM_MAX_RW_SZ
    ensures forall i :: 0 <= i < |ps| ==> Small(ReadCommand(dev, 0, ps[i])) && ps[i].size < 0x4000
  {
    PieceSizes(ps, addr, idx, n);
    hide Tiles;
  }

  // ---------------------------------------------------------------------------------------------
  // From chunk to chunk

  /** A range of memory and of data that a fill or a dump can be asked for. */
  predicate Within(dev: nat, addr: u64, idx: u64, n: u64, data: nat) {
    dev < 0x80 && addr + n <= TWO64 && idx + n <= data < TWO64
  }

  lemma {:induction false} WithinNext(dev: nat, addr: u64, idx: u64, n: u64, data: nat)
    requires Within(dev, addr, idx, n, data) && n > 0
    ensures var k := ChunkSize(n);
            && 0 < k <= n && k <= MEM_MAX_RW_SZ && Within(dev, addr, idx, k, data)
            && Within(dev, Advance(addr, k), Advance(idx, k), n - k, data)
            && Advance(idx, k) == idx + k && (n > k ==> Advance(addr, k) == addr + k)
  {
  }

  lemma {:induction false} ChunkInRange(dev: nat, addr: u64, idx: u64, n: u64, data: nat)
    requires Within(dev, addr, idx, n, data)
    ensures var ps := Pieces(dev, addr, idx, n);
            && InRange(ps, TWO64, data) && OneByte(dev, 0, ps) && |ps| <= MAX_NUM_SUBREQ && (n > 0 ==> ps != [])
  {
    PiecesTile(dev, addr, idx, n);
    PiecesFew(dev, addr, idx, n);
    AccessesOneByte(dev, addr, idx, n);
    if n > 0 {
      PiecesNext(dev, addr, idx, n);
    }
    var ps := Pieces(dev, addr, idx, n);
    hide Pieces, Tiles, OneByte;
    TilesInRange(ps, addr, idx, n);
  }

  lemma {:induction false} WithinIs(dev: nat, addr: u64, idx: u64, n: u64, data: nat)
    requires Within(dev, addr, idx, n, data)
    ensures addr + n <= TWO64 && idx + n <= data < TWO64
  {
  }

  lemma {:induction false} InMemory(addr: u64, k: nat, n: nat)
    requires k <= n && addr + n <= TWO64
    ensures Advance(addr, k) + (n - k) <= addr + n
  {
  }

  lemma {:induction false} Composed(mem: seq<byte>, addr: nat, data: seq<byte>, idx: nat, k: nat, addr2: nat, m: nat,
          n: nat)
    requires k + m <= n && addr + n <= |mem| && idx + n <= |data| && (n > k ==> addr2 == addr + k) && addr2 <= |mem|
    ensures Move(Move(mem, addr, data, idx, k), addr2, data, idx + k, m) == Move(mem, addr, data, idx, k + m)
  {
    hide Move;
    if n > k {
      MoveMove(mem, addr, data, idx, k, m);
    } else {
      MoveNone(Move(mem, addr, data, idx, k), addr2, data, idx + k);
    }
  }
}
