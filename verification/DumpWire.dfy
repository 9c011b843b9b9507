/** A whole dump on the wire: the read loop through the client, and what comes back from a server that
    answers from its memory.
 */
module DumpWire {
  import opened Bytes
  import opened Fields
  import opened CswpBuffer
  import opened Commands
  import opened DummyServer
  import opened Responses
  import opened Matching
  import opened CswpClient
  import opened EndToEnd
  import opened MemorySplit
  import opened MemoryCost
  import opened MemoryChunks
  import opened Capacity
  import opened MemoryWire

  /** The pending responses of a batch of reads. */
  function Readers(ps: seq<SubReq>): (rs: seq<Pending>)
    ensures |rs| == |ps| && forall i :: 0 <= i < |ps| ==> rs[i] == Pending(CSWP_MEM_READ, MemReader(ps[i].size))
  {
    seq(|ps|, i requires 0 <= i < |ps| => Pending(CSWP_MEM_READ, MemReader(ps[i].size)))
  }

  // ---------------------------------------------------------------------------------------------
  // What the completion functions hand out

  /** Data handed out is for a read, and no longer than it has room for. */
  predicate RoomFor(p: Pending, out: Out) {
    out.MemoryOut? ==> p.complete.MemReader? && |out.data| <= p.complete.max
  }

  lemma {:induction false} VerifyRoom(p: Pending, s: seq<byte>)
    requires !Verify(p, s).Undefined?
    ensures RoomFor(p, Verify(p, s).out)
  {
    hide Varint.ClientRead, Complete, RoomFor;
    var t := Varint.ClientRead(s);
    NoRoom(p);
    if t.Got? {
      var s1 := s[t.len..];
      var e := Varint.ClientRead(s1);
      if e.Got? && t.value == p.typ {
        var s2 := s1[e.len..];
        if e.value == 0 {
          CompleteRoom(p, s2);
        } else if !VerifyError(p, e.value, s2).Undefined? {
          ErrorRoom(p, e.value, s2);
        }
      }
    }
  }

  lemma {:induction false} NoRoom(p: Pending)
    ensures RoomFor(p, NoOut)
  {
  }

  lemma {:induction false} ErrorRoom(p: Pending, err: u64, s: seq<byte>)
    requires !VerifyError(p, err, s).Undefined?
    ensures RoomFor(p, VerifyError(p, err, s).out)
  {
    hide Varint.ClientRead, Complete, RoomFor;
    NoRoom(p);
    if !Varint.ClientRead(s).TooLong? && Int32(err) == 0 {
      CompleteRoom(p, s[MessageEnd(s)..]);
    }
  }

  lemma {:induction false} CompleteRoom(p: Pending, s: seq<byte>)
    requires !Complete(p.complete, s).Undefined?
    ensures RoomFor(p, Complete(p.complete, s).out)
  {
    hide Varint.ClientRead;
    match p.complete
    case FieldReader(ks) =>
      DecodeRoom(ks, s);
      hide Decode;
    case _ =>
  }

  lemma {:induction false} DecodeRoom(ks: seq<Kind>, s: seq<byte>)
    requires !Decode(ks, s).Undefined?
    ensures !Decode(ks, s).out.MemoryOut?
    decreases |ks|
  {
    hide Get, Endless, Fault;
    if ks != [] {
      var g := Get(Client, ks[0], s);
      if g.Item? && !Decode(ks[1..], s[g.len..]).Undefined? {
        DecodeRoom(ks[1..], s[g.len..]);
      }
    }
  }

  lemma {:induction false} MatchRoom(ps: seq<Pending>, s: seq<byte>)
    requires Match(ps, s).Matched?
    ensures |Match(ps, s).outs| <= |ps|
    ensures forall i :: 0 <= i < |Match(ps, s).outs| ==> RoomFor(ps[i], Match(ps, s).outs[i])
    decreases |ps|
  {
    hide Verify, RoomFor;
    if ps != [] {
      var v := Verify(ps[0], s);
      VerifyRoom(ps[0], s);
      if v.Good? {
        MatchRoom(ps[1..], s[v.len..]);
        var rest := Match(ps[1..], s[v.len..]);
        assert Match(ps, s).outs == [v.out] + rest.outs;
      }
    }
  }

  lemma {:induction false} TransactedRoom(ch: Channel, ps: seq<Pending>, n: nat, ops: nat)
    requires Transacted(ch, ps, n, ops).Matched?
    ensures var outs := Transacted(ch, ps, n, ops).outs;
            |outs| <= |ps| && forall i :: 0 <= i < |outs| ==> RoomFor(ps[i], outs[i])
  {
    hide RoomFor, Match, Varint.ClientRead, U32At;
    if ch.sendRes == CSWP_SUCCESS && ch.recvRes == CSWP_SUCCESS && |ch.reply| >= 4 {
      var count := Varint.ClientRead(ch.reply[4..]);
      if count.Got? && Match(ps, ch.reply[4 + count.len..]).Matched? {
        MatchRoom(ps, ch.reply[4 + count.len..]);
      }
    }
  }

  // ---------------------------------------------------------------------------------------------
  // One chunk through the client

  /** A piece of a read that fits the request buffer wherever it stands in a batch of four. */
  predicate ReadPiece(deviceNo: u64, s: SubReq) {
    deviceNo < 0x80 && s.acc < 0x80 && s.size < 0x4000
  }

  lemma {:induction false} ReadFits(deviceNo: u64, s: SubReq)
    requires ReadPiece(deviceNo, s)
    ensures var c := ReadCommand(deviceNo, 0, s);
            && |CommandBytes(c)| <= 15 && ShortStrings(Args(c)) && Type(c) == CSWP_MEM_READ && Sized(c)
  {
    ReadSizeOf(deviceNo, 0, s);
    hide VarLen, CommandBytes;
    VarLens(s.size);
  }

  method GetOne(client: Client, deviceNo: u64, s: SubReq, ch: Channel) returns (res: int)
    requires client.Valid() && client.batchMode.BatchNone? && ReadPiece(deviceNo, s)
    requires ChannelOk(ch, [Pending(CSWP_MEM_READ, MemReader(s.size))], 1)
    modifies client.Repr()
    ensures client.Valid() && client.batchMode.BatchNone?
    ensures |client.sent| == |old(client.sent)| + 1 && client.sent[..|old(client.sent)|] == old(client.sent)
    ensures IsFrame(client.sent[|old(client.sent)|], 0, [ReadCommand(deviceNo, 0, s)])
    ensures exists ops ::
              Matched(ops, res, client.outputs) == Transacted(ch, [Pending(CSWP_MEM_READ, MemReader(s.size))], 1, 0)
  {
    ReadFits(deviceNo, s);
    var c := MemRead(deviceNo, s.saddr, s.size, s.acc, 0);
    assert c == ReadCommand(deviceNo, 0, s);
    hide ChannelOk, IsFrame, ReadCommand, Transacted, CommandBytes, ShortStrings, Args, Type, Sized;
    res := client.Call(c, MemReader(s.size), ch);
  }

  /** One piece of a batch. */
  method GetPiece(client: Client, deviceNo: u64, s: SubReq, ch: Channel) returns (res: int)
    requires client.Open() && client.batchMode.BatchAbort? && ReadPiece(deviceNo, s)
    requires client.cmd.used + 15 <= REQ_RSP_BUFFER_SIZE
    modifies client.Repr()
    ensures client.Open() && client.batchMode.BatchAbort? && client.sent == old(client.sent)
    ensures res == CSWP_SUCCESS && client.clean == old(client.clean) && client.cmd.used <= old(client.cmd.used) + 15
    ensures client.cmds == old(client.cmds) + [ReadCommand(deviceNo, 0, s)]
    ensures client.pending == old(client.pending) + [Pending(CSWP_MEM_READ, MemReader(s.size))]
  {
    ReadFits(deviceNo, s);
    var c := MemRead(deviceNo, s.saddr, s.size, s.acc, 0);
    assert c == ReadCommand(deviceNo, 0, s);
    hide ChannelOk, IsFrame, ReadCommand, Transacted, CommandBytes, ShortStrings, Args, Type, Holds, Sized;
    res := client.Call(c, MemReader(s.size), ch);
  }

  method GetBatch(client: Client, deviceNo: u64, subreqs: array<SubReq>, num: nat, ch: Channel) returns (res: int)
    requires client.Valid() && client.batchMode.BatchNone? && subreqs !in client.Repr()
    requires 1 < num <= subreqs.Length && num <= MAX_NUM_SUBREQ
    requires forall i :: 0 <= i < num ==> ReadPiece(deviceNo, subreqs[i])
    requires ChannelOk(ch, Readers(subreqs[..num]), num)
    modifies client.Repr()
    ensures client.Valid() && client.batchMode.BatchNone?
    ensures |client.sent| == |old(client.sent)| + 1 && client.sent[..|old(client.sent)|] == old(client.sent)
    ensures IsFrame(client.sent[|old(client.sent)|], 2, ReadCommands(deviceNo, 0, subreqs[..num]))
    ensures exists ops :: Matched(ops, res, client.outputs) == Transacted(ch, Readers(subreqs[..num]), num, 0)
  {
    hide ChannelOk, IsFrame, ReadCommand, Transacted, Holds, HandlerOk;
    ghost var ps := subreqs[..num];
    ghost var cs, rs := ReadCommands(deviceNo, 0, ps), Readers(ps);
    client.BatchBegin(true);
    for i := 0 to num
      invariant client.Open() && client.batchMode.BatchAbort? && client.clean && client.sent == old(client.sent)
      invariant client.cmds == cs[..i] && client.pending == rs[..i] && client.cmd.used <= REQ_HEADER_SIZE + 15 * i
      invariant client.Repr() == old(client.Repr()) && subreqs[..num] == ps
    {
      var s := subreqs[i];
      assert s == ps[i];
      res := GetPiece(client, deviceNo, s, ch);
      assert cs[..i + 1] == cs[..i] + [cs[i]] && rs[..i + 1] == rs[..i] + [rs[i]];
    }
    assert cs[..num] == cs && rs[..num] == rs;
    var ops;
    ops, res := client.BatchEnd(ch, 0);
  }

  /** The completion functions' copies into the caller's buffer. */
  method CopyOutputs(outs: seq<Out>, subreqs: array<SubReq>, num: nat, rwValues: array<byte>)
    requires num <= subreqs.Length && InRange(subreqs[..num], TWO64, rwValues.Length)
    requires |outs| <= num && forall i :: 0 <= i < |outs| ==> RoomFor(Readers(subreqs[..num])[i], outs[i])
    modifies rwValues
    ensures rwValues[..] == Place(old(rwValues[..]), subreqs[..|outs|], outs)
  {
    hide Place, Move, RoomFor, InRange;
    ghost var ps := subreqs[..|outs|];
    assert ps[0..] == ps && outs[0..] == outs;
    for i := 0 to |outs|
      invariant Place(rwValues[..], ps[i..], outs[i..]) == Place(old(rwValues[..]), ps, outs)
      invariant rwValues.Length == |old(rwValues[..])|
    {
      PlaceNext(rwValues[..], ps, outs, i, subreqs[..num]);
      if outs[i].MemoryOut? {
        ghost var was := rwValues[..];
        PutBytes(rwValues, subreqs[i].bufIdx, outs[i].data);
        MoveAll(was, subreqs[i].bufIdx, outs[i].data);
        assert was[..subreqs[i].bufIdx] + outs[i].data + was[subreqs[i].bufIdx + |outs[i].data|..] == rwValues[..];
      }
    }
    PlaceNone(rwValues[..], ps[|outs|..], outs[|outs|..]);
  }

  lemma {:induction false} PlaceNone(buf: seq<byte>, ps: seq<SubReq>, outs: seq<Out>)
    requires ps == [] && |ps| <= |outs|
    ensures Place(buf, ps, outs) == buf
  {
  }

  lemma {:induction false} MoveAll(buf: seq<byte>, at: nat, data: seq<byte>)
    requires at + |data| <= |buf|
    ensures Move(buf, at, data, 0, |data|) == buf[..at] + data + buf[at + |data|..]
  {
    assert data[0..|data|] == data;
  }

  lemma {:induction false} PlaceNext(buf: seq<byte>, ps: seq<SubReq>, outs: seq<Out>, i: nat, all: seq<SubReq>)
    requires i < |ps| == |outs| <= |all| && ps == all[..|ps|] && InRange(all, TWO64, |buf|)
    requires RoomFor(Readers(all)[i], outs[i])
    ensures outs[i].MemoryOut? ==> ps[i].bufIdx + |outs[i].data| <= |buf|
    ensures Place(buf, ps[i..], outs[i..]) ==
              Place(if outs[i].MemoryOut? then Move(buf, ps[i].bufIdx, outs[i].data, 0, |outs[i].data|) else buf,
                    ps[i + 1..], outs[i + 1..])
  {
    hide Move;
    assert ps[i] == all[i];
    assert ps[i..][0] == ps[i] && outs[i..][0] == outs[i];
    assert ps[i..][1..] == ps[i + 1..] && outs[i..][1..] == outs[i + 1..];
  }

  /** `execute_get_dev_mem_out` on the client: one frame with all pieces, and what the completion
      functions hand out of the reply in the pieces' places of the buffer. */
  method ExecuteGetOverClient(client: Client, deviceNo: u64, subreqs: array<SubReq>, num: nat, rwValues: array<byte>,
          ch: Channel)
    returns (res: int)
    requires client.Valid() && client.batchMode.BatchNone?
    requires subreqs !in client.Repr() && rwValues !in client.Repr()
    requires 0 < num <= subreqs.Length && num <= MAX_NUM_SUBREQ && InRange(subreqs[..num], TWO64, rwValues.Length)
    requires forall i :: 0 <= i < num ==> ReadPiece(deviceNo, subreqs[i])
    requires ChannelOk(ch, Readers(subreqs[..num]), num)
    modifies client.Repr(), rwValues
    ensures client.Valid() && client.batchMode.BatchNone?
    ensures |client.sent| == |old(client.sent)| + 1 && client.sent[..|old(client.sent)|] == old(client.sent)
    ensures IsFrame(client.sent[|old(client.sent)|], WireMode(num), ReadCommands(deviceNo, 0, subreqs[..num]))
    ensures var o := Transacted(ch, Readers(subreqs[..num]), num, 0);
            && o.Matched? && o.res == res && |o.outs| <= num
            && rwValues[..] == Place(old(rwValues[..]), subreqs[..|o.outs|], o.outs)
  {
    hide ChannelOk, IsFrame, ReadCommand, Transacted, RoomFor, InRange, Place, ReadPiece;
    ghost var ps := subreqs[..num];
    if num == 1 {
      assert ps == [subreqs[0]];
      assert Readers(ps) == [Pending(CSWP_MEM_READ, MemReader(subreqs[0].size))];
      assert ReadCommands(deviceNo, 0, ps) == [ReadCommand(deviceNo, 0, subreqs[0])];
      res := GetOne(client, deviceNo, subreqs[0], ch);
    } else {
      res := GetBatch(client, deviceNo, subreqs, num, ch);
    }
    TransactedRoom(ch, Readers(ps), num, 0);
    CopyOutputs(client.outputs, subreqs, num, rwValues);
  }

  // ---------------------------------------------------------------------------------------------
  // A server that answers from its memory

  lemma {:induction false} DumpPieces(dev: nat, addr: u64, idx: u64, n: u64, mem: nat, data: nat)
    requires Within(dev, addr, idx, n, data) && n <= MEM_MAX_RW_SZ && addr + n <= mem
    ensures var ps := Pieces(dev, addr, idx, n);
            && InRange(ps, mem, TWO64) && InRange(ps, TWO64, data) && |ps| <= MAX_NUM_SUBREQ && (n > 0 ==> ps != [])
            && forall i :: 0 <= i < |ps| ==> ReadPiece(dev, ps[i])
  {
    ChunkInRange(dev, addr, idx, n, data);
    PiecesTile(dev, addr, idx, n);
    var ps := Pieces(dev, addr, idx, n);
    hide Pieces, Tiles;
    TilesInRange(ps, addr, idx, n);
    PieceSizes(ps, addr, idx, n);
  }

  /** The request of one chunk. */
  function ReadFrame(dev: u64, addr: u64, idx: u64, n: u64): seq<byte> {
    var ps := Pieces(dev, addr, idx, n);
    Frame(WireMode(|ps|), ReadCommands(dev, 0, ps))
  }

  /** A server that answers reads from the memories of its devices, and refuses what is not there. */
  function AnswerTo(mems: map<int, seq<byte>>, info: Info): (h: Handled)
    ensures h.Failed? ==> h.code == 1
  {
    var a := info.args;
    if info.cmdEnc == CSWP_MEM_READ && |a| == 5 && a[1].F64? && a[2].FVar? && info.apnum in mems
       && a[1].d + a[2].v <= |mems[info.apnum]| then
      Added(Memory(mems[info.apnum][a[1].d..a[1].d + a[2].v]))
    else Failed(1)
  }

  function AnswersTo(mems: map<int, seq<byte>>, infos: seq<Info>): (hs: seq<Handled>)
    ensures |hs| == |infos| && forall i :: 0 <= i < |hs| ==> hs[i] == AnswerTo(mems, infos[i]) && CodeOk(hs[i])
  {
    seq(|infos|, i requires 0 <= i < |infos| => AnswerTo(mems, infos[i]))
  }

  /** What such a server sends back for a frame. */
  function ServeFrom(mems: map<int, seq<byte>>, frame: seq<byte>): seq<byte> {
    var req := Parse(frame);
    if req.None? then []
    else
      var answer := Serve(frame, AnswersTo(mems, req.value.infos));
      if answer.Some? then Reply(answer.value) else []
  }

  lemma {:induction false} AnsweredAs(mems: map<int, seq<byte>>, dev: int, p: SubReq, info: Info, h: Handled)
    requires dev in mems && ReadsPiece(info, dev, p) && AnsweredFrom(map[dev := mems[dev]], info, h)
    ensures AnswerTo(mems, info) == h
  {
  }

  /** It answers a chunk's frame from the memory of the chunk's device. */
  lemma {:induction false} ChunkServed(dev: nat, addr: u64, idx: u64, n: u64, mems: map<int, seq<byte>>)
    requires dev < 0x80 && n <= MEM_MAX_RW_SZ && dev in mems && addr + n <= |mems[dev]| <= TWO64 && idx + n < TWO64
    ensures var ps := Pieces(dev, addr, idx, n);
            && InRange(ps, |mems[dev]|, TWO64)
            && var xs := ReadExchanges(dev, ps, mems[dev]);
            && AllProper(xs) && CommandsOf(xs) == ReadCommands(dev, 0, ps)
            && var answer := Serve(Frame(WireMode(|ps|), CommandsOf(xs)), HandledOf(xs));
            answer.Some? && ServeFrom(mems, ReadFrame(dev, addr, idx, n)) == Reply(answer.value)
  {
    hide Pieces, ReadCommand, Frame, Move, Serve, Receive, Place, AllProper, Proper, Small, Sized, Parse, ReadsPiece,
            AnsweredFrom, AnswerTo, Reply;
    var mem := mems[dev];
    ReadChunkOverWire(dev, addr, idx, n, mem, seq(idx + n, i => 0));
    var ps := Pieces(dev, addr, idx, n);
    var xs := ReadExchanges(dev, ps, mem);
    var infos := Parse(Frame(WireMode(|ps|), CommandsOf(xs))).value.infos;
    forall i | 0 <= i < |ps| ensures AnswersTo(mems, infos)[i] == HandledOf(xs)[i] {
      AnsweredAs(mems, dev, ps[i], infos[i], xs[i].h);
    }
    assert AnswersTo(mems, infos) == HandledOf(xs);
  }

  /** The transport between the client and such a server, when the client sends `frame`. */
  predicate Answered(frame: seq<byte>, mems: map<int, seq<byte>>, ch: Channel) {
    ch.sendRes == CSWP_SUCCESS && ch.recvRes == CSWP_SUCCESS && ch.reply == ServeFrom(mems, frame)
  }

  lemma {:induction false} ChunkAnswered(dev: nat, addr: u64, idx: u64, n: u64, mems: map<int, seq<byte>>,
          buf: seq<byte>, ch: Channel)
    requires dev < 0x80 && n <= MEM_MAX_RW_SZ && dev in mems && addr + n <= |mems[dev]| <= TWO64
    requires idx + n <= |buf| < TWO64 && Answered(ReadFrame(dev, addr, idx, n), mems, ch)
    ensures var ps := Pieces(dev, addr, idx, n);
            && ChannelOk(ch, Readers(ps), |ps|)
            && var o := Transacted(ch, Readers(ps), |ps|, 0);
            && o.Matched? && o.res == CSWP_SUCCESS && |o.outs| == |ps|
            && Place(buf, ps, o.outs) == Move(buf, idx, mems[dev], addr, n)
  {
    hide Pieces, ReadCommand, Frame, Move, Serve, Receive, Place, AllProper, Proper, Small, Sized, Parse, ReadsPiece,
            AnsweredFrom, ServeFrom, ReadFrame, Reply;
    ReadChunkOverWire(dev, addr, idx, n, mems[dev], buf);
    ChunkServed(dev, addr, idx, n, mems);
    var ps := Pieces(dev, addr, idx, n);
    var xs := ReadExchanges(dev, ps, mems[dev]);
    ReadersOf(dev, ps, mems[dev]);
    assert |xs| == |ps|;
  }

  lemma {:induction false} ReadersOf(dev: u64, ps: seq<SubReq>, mem: seq<byte>)
    requires InRange(ps, |mem|, TWO64)
    ensures PendingOf(ReadExchanges(dev, ps, mem)) == Readers(ps)
  {
    var xs := ReadExchanges(dev, ps, mem);
    forall i | 0 <= i < |ps| ensures PendingOf(xs)[i] == Readers(ps)[i] {
      assert Type(xs[i].c) == CSWP_MEM_READ;
    }
  }

  /** The frames of a dump. */
  function DumpFrames(dev: u64, addr: u64, idx: u64, n: u64): seq<seq<byte>>
    decreases n
  {
    if n == 0 then []
    else
      var k := ChunkSize(n);
      [ReadFrame(dev, addr, idx, k)] + DumpFrames(dev, Advance(addr, k), Advance(idx, k), n - k)
  }

  lemma {:induction false} PlaceSize(buf: seq<byte>, ps: seq<SubReq>, outs: seq<Out>)
    requires |ps| <= |outs|
    ensures |Place(buf, ps, outs)| == |buf|
    decreases |ps|
  {
    hide Move;
    if ps != [] {
      var o := outs[0];
      PlaceSize(if o.MemoryOut? && ps[0].bufIdx + |o.data| <= |buf| then Move(buf, ps[0].bufIdx, o.data, 0, |o.data|)
                else buf, ps[1..], outs[1..]);
    }
  }

  /** The buffer when the reply to one chunk has been received. */
  function ChunkDumped(dev: u64, addr: u64, idx: u64, n: u64, mems: map<int, seq<byte>>, buf: seq<byte>): (r: seq<byte>)
    ensures |r| == |buf|
  {
    var ps := Pieces(dev, addr, idx, n);
    var o := Receive(Readers(ps), |ps|, ServeFrom(mems, ReadFrame(dev, addr, idx, n)));
    if o.Matched? && |ps| <= |o.outs| then PlaceSize(buf, ps, o.outs); Place(buf, ps, o.outs) else buf
  }

  lemma {:induction false} DumpNext(dev: nat, addr: u64, idx: u64, n: u64, mem: nat, data: nat)
    requires Within(dev, addr, idx, n, data) && addr + n <= mem <= TWO64 && n > 0
    ensures var k := ChunkSize(n);
            && 0 < k <= n && k <= MEM_MAX_RW_SZ && dev < 0x80 && addr + k <= mem && idx + k <= data < TWO64
            && Within(dev, Advance(addr, k), Advance(idx, k), n - k, data) && Advance(addr, k) + (n - k) <= mem
            && Advance(idx, k) == idx + k && (n > k ==> Advance(addr, k) == addr + k)
  {
    WithinNext(dev, addr, idx, n, data);
    InMemory(addr, ChunkSize(n), n);
  }

  /** The buffer when each chunk's reply has been received in turn. */
  function Dumped(dev: u64, addr: u64, idx: u64, n: u64, mems: map<int, seq<byte>>, buf: seq<byte>): seq<byte>
    decreases n
  {
    if n == 0 then buf
    else
      var k := ChunkSize(n);
      Dumped(dev, Advance(addr, k), Advance(idx, k), n - k, mems, ChunkDumped(dev, addr, idx, k, mems, buf))
  }

  /** All chunks of a dump, requested, answered by such a server and received in turn, are one plain read of the
      range from the memory of the device. */
  lemma {:induction false} DumpOverWire(dev: nat, addr: u64, idx: u64, n: u64, mems: map<int, seq<byte>>,
          buf: seq<byte>)
    requires Within(dev, addr, idx, n, |buf|) && dev in mems && addr + n <= |mems[dev]| <= TWO64
    ensures Dumped(dev, addr, idx, n, mems, buf) == Move(buf, idx, mems[dev], addr, n)
    decreases n
  {
    hide Move, ChunkDumped, Within, Advance, ChunkSize;
    var mem := mems[dev];
    WithinIs(dev, addr, idx, n, |buf|);
    if n == 0 {
      MoveNone(buf, idx, mem, addr);
    } else {
      var k := ChunkSize(n);
      var addr2, idx2 := Advance(addr, k), Advance(idx, k);
      DumpNext(dev, addr, idx, n, |mem|, |buf|);
      ReceivesChunk(dev, addr, idx, k, mems, buf);
      var next := Move(buf, idx, mem, addr, k);
      DumpOverWire(dev, addr2, idx2, n - k, mems, next);
      ReadOn(buf, idx, mem, addr, k, addr2, n);
    }
  }

  lemma {:induction false} ReadOn(buf: seq<byte>, idx: nat, mem: seq<byte>, addr: nat, k: nat, addr2: nat, n: nat)
    requires k <= n && idx + n <= |buf| && addr + n <= |mem| && (n > k ==> addr2 == addr + k) && addr2 <= |mem|
    ensures Move(Move(buf, idx, mem, addr, k), idx + k, mem, addr2, n - k) == Move(buf, idx, mem, addr, n)
  {
    hide Move;
    if n > k {
      MoveMove(buf, idx, mem, addr, k, n - k);
    } else {
      MoveNone(Move(buf, idx, mem, addr, k), idx + k, mem, addr2);
    }
  }

  lemma {:induction false} ReceivesChunk(dev: nat, addr: u64, idx: u64, n: u64, mems: map<int, seq<byte>>,
          buf: seq<byte>)
    requires dev < 0x80 && n <= MEM_MAX_RW_SZ && dev in mems && addr + n <= |mems[dev]| <= TWO64
    requires idx + n <= |buf| < TWO64
    ensures ChunkDumped(dev, addr, idx, n, mems, buf) == Move(buf, idx, mems[dev], addr, n)
  {
    hide Pieces, Place, Receive, ServeFrom, ReadFrame, ChannelOk;
    var ch := Channel(CSWP_SUCCESS, CSWP_SUCCESS, ServeFrom(mems, ReadFrame(dev, addr, idx, n)));
    ChunkAnswered(dev, addr, idx, n, mems, buf, ch);
  }

  // ---------------------------------------------------------------------------------------------
  // The loop

  /** The transport's results for the frames of a dump, each answered as it was sent. */
  predicate AllAnswered(frames: seq<seq<byte>>, mems: map<int, seq<byte>>, chs: seq<Channel>) {
    |frames| <= |chs| && forall i :: 0 <= i < |frames| ==> Answered(frames[i], mems, chs[i])
  }

  lemma {:induction false} NextAnswered(dev: nat, addr: u64, idx: u64, n: u64, mems: map<int, seq<byte>>,
          chs: seq<Channel>, i: nat)
    requires dev < 0x80 && n > 0 && i <= |chs| && AllAnswered(DumpFrames(dev, addr, idx, n), mems, chs[i..])
    ensures var k := ChunkSize(n);
            && i < |chs| && k <= n && Answered(ReadFrame(dev, addr, idx, k), mems, chs[i])
            && AllAnswered(DumpFrames(dev, Advance(addr, k), Advance(idx, k), n - k), mems, chs[i + 1..])
  {
    hide Answered, Advance, ReadFrame;
    var k := ChunkSize(n);
    var frames, rest := DumpFrames(dev, addr, idx, n), DumpFrames(dev, Advance(addr, k), Advance(idx, k), n - k);
    assert frames == [ReadFrame(dev, addr, idx, k)] + rest;
    hide DumpFrames;
    assert Answered(frames[0], mems, chs[i..][0]);
    forall j | 0 <= j < |rest| ensures Answered(rest[j], mems, chs[i + 1..][j]) {
      assert Answered(frames[j + 1], mems, chs[i..][j + 1]);
    }
  }

  /** One turn of the loop. */
  method GetChunk(client: Client, dev: nat, addr: u64, idx: u64, n: u64, subreqs: array<SubReq>, rwValues: array<byte>,
          ch: Channel, ghost mems: map<int, seq<byte>>)
    returns (res: int)
    requires client.Valid() && client.batchMode.BatchNone? && subreqs.Length == MAX_NUM_SUBREQ
    requires subreqs !in client.Repr() && rwValues !in client.Repr()
    requires 0 < n <= MEM_MAX_RW_SZ && Within(dev, addr, idx, n, rwValues.Length)
    requires dev in mems && addr + n <= |mems[dev]| <= TWO64 && Answered(ReadFrame(dev, addr, idx, n), mems, ch)
    modifies client.Repr(), subreqs, rwValues
    ensures client.Valid() && client.batchMode.BatchNone? && res == CSWP_SUCCESS
    ensures client.sent == old(client.sent) + [ReadFrame(dev, addr, idx, n)]
    ensures rwValues[..] == Move(old(rwValues[..]), idx, mems[dev], addr, n)
  {
    hide ChannelOk, Transacted, Pieces, Frame, Place, Move, Answered, ReadPiece, InRange, ReadCommands;
    DumpPieces(dev, addr, idx, n, |mems[dev]|, rwValues.Length);
    ghost var ps := Pieces(dev, addr, idx, n);
    ChunkAnswered(dev, addr, idx, n, mems, rwValues[..], ch);
    var num := CreateMemSubreqs(dev, addr, idx, n, subreqs);
    assert subreqs[..num] == ps && num == |ps| > 0;
    assert forall i :: 0 <= i < num ==> subreqs[i] == ps[i];
    res := ExecuteGetOverClient(client, dev, subreqs, num, rwValues, ch);
    assert client.sent == client.sent[..|client.sent| - 1] + [client.sent[|client.sent| - 1]];
  }

  /** The loop of `dump_dev_mem` through the client, with a server that answers each frame it is sent from the
      memories of its devices: one frame for each chunk goes out, and the buffer holds the range of the memory of
      the device asked for. */
  method DumpOverClient(client: Client, dev: u64, startAddr: u64, size: u64, rwValues: array<byte>, chs: seq<Channel>,
          ghost mems: map<int, seq<byte>>)
    returns (res: int)
    requires client.Valid() && client.batchMode.BatchNone? && rwValues !in client.Repr()
    requires Within(dev, startAddr, 0, size, rwValues.Length)
    requires dev in mems && startAddr + size <= |mems[dev]| <= TWO64
    requires AllAnswered(DumpFrames(dev, startAddr, 0, size), mems, chs)
    modifies client.Repr(), rwValues
    ensures client.Valid() && client.batchMode.BatchNone? && res == CSWP_SUCCESS
    ensures client.sent == old(client.sent) + DumpFrames(dev, startAddr, 0, size)
    ensures rwValues[..] == Move(old(rwValues[..]), 0, mems[dev], startAddr, size)
  {
    hide Within, ReadFrame, Advance, DumpFrames, AllAnswered, Answered, Move;
    var subreqs := new SubReq[MAX_NUM_SUBREQ](_ => SubReq(0, 0, 0, 0));
    ghost var mem := mems[dev];
    ghost var goal, buf := client.sent + DumpFrames(dev, startAddr, 0, size), rwValues[..];
    var addr: u64, idx: u64, left: u64, i := startAddr, 0, size, 0;
    assert chs[0..] == chs;
    WithinIs(dev, startAddr, 0, size, rwValues.Length);
    res := CSWP_SUCCESS;
    while left > 0
      invariant client.Valid() && client.batchMode.BatchNone? && client.Repr() == old(client.Repr())
      invariant res == CSWP_SUCCESS && i <= |chs| && Within(dev, addr, idx, left, rwValues.Length)
      invariant addr + left <= |mem| && AllAnswered(DumpFrames(dev, addr, idx, left), mems, chs[i..])
      invariant client.sent + DumpFrames(dev, addr, idx, left) == goal
      invariant idx + left <= rwValues.Length && addr <= |mem|
      invariant Move(rwValues[..], idx, mem, addr, left) == Move(buf, 0, mem, startAddr, size)
      decreases left
    {
      var n := ChunkSize(left);
      DumpNext(dev, addr, idx, left, |mem|, rwValues.Length);
      WithinNext(dev, addr, idx, left, rwValues.Length);
      NextAnswered(dev, addr, idx, left, mems, chs, i);
      FramesNext(dev, addr, idx, left, client.sent);
      ReadOn(rwValues[..], idx, mem, addr, n, Advance(addr, n), left);
      res := GetChunk(client, dev, addr, idx, n, subreqs, rwValues, chs[i], mems);
      addr, idx, left, i := Advance(addr, n), Advance(idx, n), left - n, i + 1;
      WithinIs(dev, addr, idx, left, rwValues.Length);
    }
    NoFrames(dev, addr, idx, client.sent);
    MoveNone(rwValues[..], idx, mem, addr);
  }

  lemma {:induction false} FramesNext(dev: u64, addr: u64, idx: u64, n: u64, sent: seq<seq<byte>>)
    requires n > 0
    ensures var k := ChunkSize(n);
            k <= n && sent + DumpFrames(dev, addr, idx, n)
            == sent + [ReadFrame(dev, addr, idx, k)] + DumpFrames(dev, Advance(addr, k), Advance(idx, k), n - k)
  {
    hide ReadFrame, Advance;
  }

  lemma {:induction false} NoFrames(dev: u64, addr: u64, idx: u64, sent: seq<seq<byte>>)
    ensures sent + DumpFrames(dev, addr, idx, 0) == sent
  {
  }
}
