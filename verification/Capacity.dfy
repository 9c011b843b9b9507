/** Which memory requests fit the 16384-byte request and response buffers. */
module Capacity {
  import opened Bytes
  import Varint
  import opened Fields
  import opened Commands
  import opened Responses
  import opened CswpClient
  import opened MemorySplit
  import opened MemoryCost
  import opened MemoryChunks

  /** The device numbers, access sizes and flags of the utility take one byte each. */
  predicate OneByte(dev: u64, flags: u64, ps: seq<SubReq>) {
    dev < 0x80 && flags < 0x80 && forall i :: 0 <= i < |ps| ==> ps[i].acc < 0x80
  }

  function WriteCommand(dev: u64, flags: u64, p: SubReq, data: seq<byte>): (c: Command)
    requires p.bufIdx + p.size <= |data|
    ensures Sized(c)
  {
    MemWrite(dev, p.saddr, p.acc, flags, data[p.bufIdx..p.bufIdx + p.size])
  }

  function ReadCommand(dev: u64, flags: u64, p: SubReq): Command {
    MemRead(dev, p.saddr, p.size, p.acc, flags)
  }

  function WriteCommands(dev: u64, flags: u64, ps: seq<SubReq>, data: seq<byte>): (cs: seq<Command>)
    requires InRange(ps, TWO64, |data|)
    ensures |cs| == |ps| && forall i :: 0 <= i < |cs| ==> Sized(cs[i]) && cs[i] == WriteCommand(dev, flags, ps[i], data)
  {
    seq(|ps|, i requires 0 <= i < |ps| => WriteCommand(dev, flags, ps[i], data))
  }

  function ReadCommands(dev: u64, flags: u64, ps: seq<SubReq>): (cs: seq<Command>)
    ensures |cs| == |ps| && forall i :: 0 <= i < |cs| ==> Sized(cs[i]) && cs[i] == ReadCommand(dev, flags, ps[i])
  {
    seq(|ps|, i requires 0 <= i < |ps| => ReadCommand(dev, flags, ps[i]))
  }

  lemma {:induction false} PutAllLen(fs: seq<Field>)
    ensures fs != [] ==> |PutAll(fs)| == |Put(fs[0])| + |PutAll(fs[1..])|
    ensures fs == [] ==> |PutAll(fs)| == 0
  {
  }

  lemma {:induction false} FieldLens(dev: u64, address: u64, size: u64, acc: u64, flags: u64, tail: seq<Field>)
    ensures |PutAll([FVar(dev), F64(address), FVar(size), FVar(acc), FVar(flags)] + tail)|
         == VarLen(dev) + 8 + VarLen(size) + VarLen(acc) + VarLen(flags) + |PutAll(tail)|
  {
    var fs := [FVar(dev), F64(address), FVar(size), FVar(acc), FVar(flags)];
    PutAllAppend(fs, tail);
    PutAllLen(fs);
    assert fs[1..] == [F64(address), FVar(size), FVar(acc), FVar(flags)];
    PutAllLen(fs[1..]);
    assert fs[1..][1..] == [FVar(size), FVar(acc), FVar(flags)];
    PutAllLen(fs[1..][1..]);
    assert fs[1..][1..][1..] == [FVar(acc), FVar(flags)];
    PutAllLen(fs[1..][1..][1..]);
    assert fs[1..][1..][1..][1..] == [FVar(flags)];
    PutAllLen(fs[1..][1..][1..][1..]);
    assert fs[1..][1..][1..][1..][1..] == [];
    PutAllLen([]);
  }

  lemma {:induction false} WriteSize(dev: u64, flags: u64, p: SubReq, data: seq<byte>)
    requires p.bufIdx + p.size <= |data| && dev < 0x80 && flags < 0x80 && p.acc < 0x80
    ensures |CommandBytes(WriteCommand(dev, flags, p, data))| == 13 + VarLen(p.size) + p.size
  {
    var bytes := data[p.bufIdx..p.bufIdx + p.size];
    FieldLens(dev, p.saddr, p.size, p.acc, flags, [FData(bytes)]);
    PutAllLen([FData(bytes)]);
    PutAllLen([]);
    assert [FData(bytes)][1..] == [];
    hide PutAll, VarLen, Varint.Encode;
    VarLens(dev);
    VarLens(flags);
    VarLens(p.acc);
    VarLens(CSWP_MEM_WRITE);
    LenIs(CSWP_MEM_WRITE);
  }

  lemma {:induction false} ReadSizeOf(dev: u64, flags: u64, p: SubReq)
    requires dev < 0x80 && flags < 0x80 && p.acc < 0x80
    ensures |CommandBytes(ReadCommand(dev, flags, p))| == 13 + VarLen(p.size)
  {
    FieldLens(dev, p.saddr, p.size, p.acc, flags, []);
    PutAllLen([]);
    hide PutAll, VarLen, Varint.Encode;
    VarLens(dev);
    VarLens(flags);
    VarLens(p.acc);
    VarLens(CSWP_MEM_READ);
    LenIs(CSWP_MEM_READ);
  }

  lemma {:induction false} WriteCommandsCost(dev: u64, flags: u64, ps: seq<SubReq>, data: seq<byte>)
    requires InRange(ps, TWO64, |data|) && OneByte(dev, flags, ps)
    ensures |AllBytes(WriteCommands(dev, flags, ps, data))| == WriteCost(ps)
  {
    hide CommandBytes, WriteCommand, VarLen;
    var cs := WriteCommands(dev, flags, ps, data);
    if ps != [] {
      assert InRange([ps[0]], TWO64, |data|) by { assert [ps[0]][0] == ps[0]; }
      WriteSize(dev, flags, ps[0], data);
      assert cs[1..] == WriteCommands(dev, flags, ps[1..], data);
      WriteCommandsCost(dev, flags, ps[1..], data);
    }
  }

  // ---------------------------------------------------------------------------------------------
  // Replies to reads

  function ReadResponses(ps: seq<SubReq>, mem: seq<byte>): (rs: seq<Response>)
    requires InRange(ps, |mem|, TWO64)
    ensures |rs| == |ps|
  {
    if ps == [] then []
    else [Response(CSWP_MEM_READ, 0, Memory(mem[ps[0].saddr..ps[0].saddr + ps[0].size]))] + ReadResponses(ps[1..], mem)
  }

  lemma {:induction false} ResponseSize(data: seq<byte>)
    requires |data| <= MEM_MAX_RW_SZ
    ensures |ResponseBytes(Response(CSWP_MEM_READ, 0, Memory(data)))| <= 5 + |data|
  {
    LenIs(CSWP_MEM_READ);
    LenIs(0);
    LenIs(|data|);
    hide VarLen, Varint.Encode;
    VarLens(CSWP_MEM_READ);
    VarLens(0);
    VarLens(|data|);
  }

  lemma {:induction false} ResponsesSize(ps: seq<SubReq>, mem: seq<byte>, saddr: nat, idx: nat, n: nat)
    requires InRange(ps, |mem|, TWO64) && Tiles(ps, saddr, idx, n) && n <= MEM_MAX_RW_SZ
    ensures |AllResponses(ReadResponses(ps, mem))| <= 5 * |ps| + n
  {
    hide ResponseBytes, Width;
    if ps != [] {
      ResponsesSize(ps[1..], mem, saddr + ps[0].size, idx + ps[0].size, n - ps[0].size);
      var data := mem[ps[0].saddr..ps[0].saddr + ps[0].size];
      ResponseSize(data);
      var rs := ReadResponses(ps, mem);
      assert rs[0] == Response(CSWP_MEM_READ, 0, Memory(data)) && rs[1..] == ReadResponses(ps[1..], mem);
      assert AllResponses(rs) == ResponseBytes(rs[0]) + AllResponses(rs[1..]);
    }
  }

  /** The reply to any read chunk fits the response buffer. */
  lemma {:induction false} ReadReplyFits(dev: nat, addr: u64, idx: u64, n: u64, mem: seq<byte>)
    requires n <= MEM_MAX_RW_SZ && addr + n <= TWO64 && idx + n <= TWO64
    requires InRange(Pieces(dev, addr, idx, n), |mem|, TWO64)
    ensures |Reply(ReadResponses(Pieces(dev, addr, idx, n), mem))| <= REQ_RSP_BUFFER_SIZE
  {
    var ps := Pieces(dev, addr, idx, n);
    PiecesTile(dev, addr, idx, n);
    PiecesFew(dev, addr, idx, n);
    hide Pieces, Tiles, InRange, AllResponses, ReadResponses, Left, VarLen, Varint.Encode;
    ResponsesSize(ps, mem, addr, idx, n);
    LenIs(|ps|);
    VarLens(|ps|);
  }
}
