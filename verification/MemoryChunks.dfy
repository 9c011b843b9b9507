/** Dumping and filling device memory chunk by chunk and piece by piece. */
module MemoryChunks {
  import opened Bytes
  import opened CswpBuffer
  import opened CswpClient
  import opened MemorySplit
  import opened MemoryCost

  /** `dst` with `n` bytes of `src` copied into it. */
  function Move(dst: seq<byte>, to: nat, src: seq<byte>, from: nat, n: nat): (r: seq<byte>)
    requires to + n <= |dst| && from + n <= |src|
    ensures |r| == |dst|
  {
    dst[..to] + src[from..from + n] + dst[to + n..]
  }

  lemma {:induction false} MoveMove(dst: seq<byte>, to: nat, src: seq<byte>, from: nat, a: nat, b: nat)
    requires to + a + b <= |dst| && from + a + b <= |src|
    ensures Move(Move(dst, to, src, from, a), to + a, src, from + a, b) == Move(dst, to, src, from, a + b)
  {
    var mid := Move(dst, to, src, from, a);
    assert mid[..to + a] == dst[..to] + src[from..from + a];
    assert mid[to + a + b..] == dst[to + a + b..];
    assert src[from..from + a] + src[from + a..from + a + b] == src[from..from + a + b];
  }

  lemma {:induction false} MoveNone(dst: seq<byte>, to: nat, src: seq<byte>, from: nat)
    requires to <= |dst| && from <= |src|
    ensures Move(dst, to, src, from, 0) == dst
  {
  }

  /** What is copied there and back is what it was. */
  lemma {:induction false} MoveBack(mem: seq<byte>, addr: nat, data: seq<byte>, idx: nat, buf: seq<byte>, n: nat)
    requires addr + n <= |mem| && idx + n <= |data| && idx + n <= |buf|
    ensures Move(buf, idx, Move(mem, addr, data, idx, n), addr, n) == Move(buf, idx, data, idx, n)
  {
    assert Move(mem, addr, data, idx, n)[addr..addr + n] == data[idx..idx + n];
  }

  predicate InRange(ps: seq<SubReq>, mem: nat, buf: nat) {
    forall i :: 0 <= i < |ps| ==> ps[i].saddr + ps[i].size <= mem && ps[i].bufIdx + ps[i].size <= buf
  }

  /** The memory after the pieces were written one after the other... */
  function WriteAll(mem: seq<byte>, ps: seq<SubReq>, data: seq<byte>): (r: seq<byte>)
    requires InRange(ps, |mem|, |data|)
    ensures |r| == |mem|
    decreases ps
  {
    if ps == [] then mem
    else WriteAll(Move(mem, ps[0].saddr, data, ps[0].bufIdx, ps[0].size), ps[1..], data)
  }

  /** ...and the buffer after they were read. */
  function ReadAll(buf: seq<byte>, ps: seq<SubReq>, mem: seq<byte>): (r: seq<byte>)
    requires InRange(ps, |mem|, |buf|)
    ensures |r| == |buf|
    decreases ps
  {
    if ps == [] then buf
    else ReadAll(Move(buf, ps[0].bufIdx, mem, ps[0].saddr, ps[0].size), ps[1..], mem)
  }

  lemma {:induction false} TilesInRange(ps: seq<SubReq>, saddr: nat, bufIdx: nat, n: nat)
    requires Tiles(ps, saddr, bufIdx, n)
    ensures InRange(ps, saddr + n, bufIdx + n)
  {
    hide Width;
    if ps != [] {
      TilesInRange(ps[1..], saddr + ps[0].size, bufIdx + ps[0].size, n - ps[0].size);
      forall i | 0 <= i < |ps|
        ensures ps[i].saddr + ps[i].size <= saddr + n && ps[i].bufIdx + ps[i].size <= bufIdx + n
      {
        if i > 0 {
          assert ps[i] == ps[1..][i - 1];
        }
      }
    }
  }

  /** Writing the pieces of any tiling of a range is one plain write of the range. */
  lemma {:induction false} WriteTiles(mem: seq<byte>, ps: seq<SubReq>, data: seq<byte>, addr: nat, idx: nat, n: nat)
    requires Tiles(ps, addr, idx, n) && InRange(ps, |mem|, |data|) && addr + n <= |mem| && idx + n <= |data|
    ensures WriteAll(mem, ps, data) == Move(mem, addr, data, idx, n)
    decreases ps
  {
    hide Width, Move;
    if ps == [] {
      MoveNone(mem, addr, data, idx);
    } else {
      var k := ps[0].size;
      WriteTiles(Move(mem, addr, data, idx, k), ps[1..], data, addr + k, idx + k, n - k);
      MoveMove(mem, addr, data, idx, k, n - k);
    }
  }

  lemma {:induction false} ReadTiles(buf: seq<byte>, ps: seq<SubReq>, mem: seq<byte>, addr: nat, idx: nat, n: nat)
    requires Tiles(ps, addr, idx, n) && InRange(ps, |mem|, |buf|) && addr + n <= |mem| && idx + n <= |buf|
    ensures ReadAll(buf, ps, mem) == Move(buf, idx, mem, addr, n)
    decreases ps
  {
    hide Width, Move;
    if ps == [] {
      MoveNone(buf, idx, mem, addr);
    } else {
      var k := ps[0].size;
      ReadTiles(Move(buf, idx, mem, addr, k), ps[1..], mem, addr + k, idx + k, n - k);
      MoveMove(buf, idx, mem, addr, k, n - k);
    }
  }

  /** However the same range is cut for writing and for reading, what was filled is dumped. */
  lemma {:induction false} DumpAfterFill(mem: seq<byte>, ps: seq<SubReq>, data: seq<byte>, buf: seq<byte>,
          qs: seq<SubReq>, addr: nat, n: nat)
    requires Tiles(ps, addr, 0, n) && Tiles(qs, addr, 0, n)
    requires addr + n <= |mem| && n <= |data| && n <= |buf|
    ensures InRange(ps, |mem|, |data|) && InRange(qs, |mem|, |buf|)
    ensures ReadAll(buf, qs, WriteAll(mem, ps, data)) == data[..n] + buf[n..]
  {
    hide Tiles, ReadAll, WriteAll;
    TilesInRange(ps, addr, 0, n);
    TilesInRange(qs, addr, 0, n);
    WriteTiles(mem, ps, data, addr, 0, n);
    ReadTiles(buf, qs, Move(mem, addr, data, 0, n), addr, 0, n);
    MoveBack(mem, addr, data, 0, buf, n);
    assert Move(buf, 0, data, 0, n) == data[..n] + buf[n..];
  }

  // ---------------------------------------------------------------------------------------------
  // The device and the commands

  datatype Access = Access(write: bool, addr: u64, acc: u64, size: u64)

  /** Device memory whose accesses succeed, with a record of them. */
  class Target {
    var mem: seq<byte>
    ghost var accesses: seq<Access>

    constructor (mem: seq<byte>)
      ensures this.mem == mem && accesses == []
    {
      this.mem, accesses := mem, [];
    }

    method MemRead(addr: u64, size: u64, acc: u64) returns (data: seq<byte>)
      requires addr + size <= |mem|
      modifies this`accesses
      ensures data == mem[addr..addr + size]
      ensures accesses == old(accesses) + [Access(false, addr, acc, size)]
    {
      accesses := accesses + [Access(false, addr, acc, size)];
      data := mem[addr..addr + size];
    }

    method MemWrite(addr: u64, acc: u64, data: seq<byte>)
      requires addr + |data| <= |mem| && |data| < TWO64
      modifies this
      ensures mem == Move(old(mem), addr, data, 0, |data|)
      ensures accesses == old(accesses) + [Access(true, addr, acc, |data|)]
    {
      accesses := accesses + [Access(true, addr, acc, |data|)];
      mem := mem[..addr] + data + mem[addr + |data|..];
    }
  }

  function AccessesOf(write: bool, ps: seq<SubReq>): (r: seq<Access>)
    ensures |r| == |ps|
    ensures forall i :: 0 <= i < |ps| ==> r[i] == Access(write, ps[i].saddr, ps[i].acc, ps[i].size)
  {
    seq(|ps|, i requires 0 <= i < |ps| => Access(write, ps[i].saddr, ps[i].acc, ps[i].size))
  }

  /** Every access covers a whole number of units of its width and starts at a multiple of it. */
  predicate WellFormed(log: seq<Access>) {
    forall i :: 0 <= i < |log| ==> log[i].addr % Width(log[i].acc) == 0 && log[i].size % Width(log[i].acc) == 0
  }

  /** The loop of `execute_get_dev_mem_out`. */
  method ExecuteGetDevMemOut(t: Target, subreqs: array<SubReq>, num: nat, rwValues: array<byte>)
    requires num <= subreqs.Length && InRange(subreqs[..num], |t.mem|, rwValues.Length)
    modifies t`accesses, rwValues
    ensures rwValues[..] == ReadAll(old(rwValues[..]), subreqs[..num], t.mem)
    ensures t.accesses == old(t.accesses) + AccessesOf(false, subreqs[..num])
  {
    hide ReadAll, Move;
    ghost var ps := subreqs[..num];
    ghost var buf := rwValues[..];
    ghost var goal := ReadAll(buf, ps, t.mem);
    assert ps[0..] == ps;
    for i := 0 to num
      invariant subreqs[..num] == ps && |buf| == rwValues.Length && rwValues[..] == buf
      invariant ReadAll(buf, ps[i..], t.mem) == goal
      invariant t.accesses == old(t.accesses) + AccessesOf(false, ps)[..i]
    {
      var s := subreqs[i];
      assert s == ps[i];
      ReadNext(buf, ps, i, t.mem);
      var data := t.MemRead(s.saddr, s.size, s.acc);
      PutBytes(rwValues, s.bufIdx, data);
      MoveOf(buf, s.bufIdx, t.mem, s.saddr, s.size, data);
      buf := rwValues[..];
      assert AccessesOf(false, ps)[..i + 1] == AccessesOf(false, ps)[..i] + [AccessesOf(false, ps)[i]];
    }
    ReadEnd(buf, ps[num..], t.mem);
  }

  lemma {:induction false} ReadNext(buf: seq<byte>, ps: seq<SubReq>, i: nat, mem: seq<byte>)
    requires i < |ps| && InRange(ps, |mem|, |buf|)
    ensures var p := ps[i];
            ReadAll(buf, ps[i..], mem) == ReadAll(Move(buf, p.bufIdx, mem, p.saddr, p.size), ps[i + 1..], mem)
  {
    hide Move;
    assert ps[i..][1..] == ps[i + 1..];
  }

  lemma {:induction false} ReadEnd(buf: seq<byte>, ps: seq<SubReq>, mem: seq<byte>)
    requires ps == []
    ensures ReadAll(buf, ps, mem) == buf
  {
  }

  lemma {:induction false} MoveOf(dst: seq<byte>, to: nat, src: seq<byte>, from: nat, n: nat, data: seq<byte>)
    requires to + n <= |dst| && from + n <= |src| && data == src[from..from + n]
    ensures Move(dst, to, src, from, n) == dst[..to] + data + dst[to + |data|..]
    ensures Move(dst, to, src, from, n) == Move(dst, to, data, 0, n)
  {
  }

  /** The completion function's `memcpy` into the caller's buffer. */
  method PutBytes(a: array<byte>, at: nat, data: seq<byte>)
    requires at + |data| <= a.Length
    modifies a
    ensures a[..] == old(a[..at]) + data + old(a[at + |data|..])
  {
    for i := 0 to |data|
      invariant a[..at] == old(a[..at]) && a[at..at + i] == data[..i]
      invariant a[at + |data|..] == old(a[at + |data|..])
    {
      a[at + i] := data[i];
    }
    assert a[..] == a[..at] + a[at..at + |data|] + a[at + |data|..];
  }

  /** `execute_set_dev_mem_out`: the pieces are encoded first; if one of them does not fit, nothing is
      sent and nothing is written. */
  method ExecuteSetDevMemOut(t: Target, subreqs: array<SubReq>, num: nat, rwValues: array<byte>) returns (res: int)
    requires num <= subreqs.Length && InRange(subreqs[..num], |t.mem|, rwValues.Length)
    modifies t
    ensures if WriteFits(subreqs[..num]) then
              && res == CSWP_SUCCESS && t.mem == WriteAll(old(t.mem), subreqs[..num], rwValues[..])
              && t.accesses == old(t.accesses) + AccessesOf(true, subreqs[..num])
            else res == CSWP_BUFFER_FULL && unchanged(t)
  {
    hide InRange, WriteAll, AccessesOf;
    var fits := PiecesFit(subreqs, num);
    if !fits {
      return CSWP_BUFFER_FULL;
    }
    WritePieces(t, subreqs, num, rwValues);
    res := CSWP_SUCCESS;
  }

  /** The encoding of the pieces, one behind the other, in the space behind the header. */
  method PiecesFit(subreqs: array<SubReq>, num: nat) returns (fits: bool)
    requires num <= subreqs.Length
    ensures fits <==> WriteFits(subreqs[..num])
  {
    hide WriteCost, VarLen;
    ghost var ps := subreqs[..num];
    var used := REQ_HEADER_SIZE;
    NoCost(ps);
    for i := 0 to num
      invariant used == REQ_HEADER_SIZE + WriteCost(ps[..i]) <= REQ_RSP_BUFFER_SIZE
    {
      CostSnoc(ps, i);
      CostPrefix(ps, i + 1);
      used := used + 13 + VarLen(subreqs[i].size) + subreqs[i].size;
      if used > REQ_RSP_BUFFER_SIZE {
        return false;
      }
    }
    assert ps[..num] == ps;
    fits := true;
  }

  /** The writes of the pieces, in order. */
  method WritePieces(t: Target, subreqs: array<SubReq>, num: nat, rwValues: array<byte>)
    requires num <= subreqs.Length && InRange(subreqs[..num], |t.mem|, rwValues.Length)
    modifies t
    ensures t.mem == WriteAll(old(t.mem), subreqs[..num], rwValues[..])
    ensures t.accesses == old(t.accesses) + AccessesOf(true, subreqs[..num])
  {
    hide WriteAll, Move;
    ghost var ps, data := subreqs[..num], rwValues[..];
    ghost var goal := WriteAll(t.mem, ps, data);
    assert ps[0..] == ps;
    for i := 0 to num
      invariant |t.mem| == |old(t.mem)|
      invariant WriteAll(t.mem, ps[i..], data) == goal
      invariant t.accesses == old(t.accesses) + AccessesOf(true, ps)[..i]
    {
      var s := subreqs[i];
      assert s == ps[i];
      WriteNext(t.mem, ps, i, data);
      var piece := rwValues[s.bufIdx..s.bufIdx + s.size];
      assert piece == data[s.bufIdx..s.bufIdx + s.size];
      MoveOf(t.mem, s.saddr, data, s.bufIdx, s.size, piece);
      t.MemWrite(s.saddr, s.acc, piece);
      assert AccessesOf(true, ps)[..i + 1] == AccessesOf(true, ps)[..i] + [AccessesOf(true, ps)[i]];
    }
    WriteEnd(t.mem, ps[num..], data);
  }

  lemma {:induction false} WriteNext(mem: seq<byte>, ps: seq<SubReq>, i: nat, data: seq<byte>)
    requires i < |ps| && InRange(ps, |mem|, |data|)
    ensures var p := ps[i];
            WriteAll(mem, ps[i..], data) == WriteAll(Move(mem, p.saddr, data, p.bufIdx, p.size), ps[i + 1..], data)
  {
    hide Move;
    assert ps[i..][1..] == ps[i + 1..];
  }

  lemma {:induction false} WriteEnd(mem: seq<byte>, ps: seq<SubReq>, data: seq<byte>)
    requires ps == []
    ensures WriteAll(mem, ps, data) == mem
  {
  }

  lemma {:induction false} TilesWellFormed(write: bool, ps: seq<SubReq>, saddr: nat, bufIdx: nat, n: nat)
    requires Tiles(ps, saddr, bufIdx, n) && AllAligned(ps)
    ensures WellFormed(AccessesOf(write, ps))
  {
    hide Width;
    if ps != [] {
      assert AllAligned(ps[1..]);
      TilesWellFormed(write, ps[1..], saddr + ps[0].size, bufIdx + ps[0].size, n - ps[0].size);
      var all, others := AccessesOf(write, ps), AccessesOf(write, ps[1..]);
      forall i | 0 <= i < |all| ensures all[i].addr % Width(all[i].acc) == 0 && all[i].size % Width(all[i].acc) == 0 {
        assert ps[i].saddr % Width(ps[i].acc) == 0;
        if i > 0 {
          assert all[i] == others[i - 1];
        }
      }
    }
  }

  /** One chunk is tiled by its pieces and read or written with well-formed accesses. */
  lemma {:induction false} ChunkTiles(dev: nat, addr: u64, idx: u64, n: u64, write: bool)
    requires addr + n <= TWO64 && idx + n <= TWO64 && Fitting(dev, addr, n)
    ensures var ps := Pieces(dev, addr, idx, n);
            Tiles(ps, addr, idx, n) && InRange(ps, addr + n, idx + n) && WellFormed(AccessesOf(write, ps))
  {
    hide Pieces, Tiles, Fitting, InRange, WellFormed;
    var ps := Pieces(dev, addr, idx, n);
    PiecesTile(dev, addr, idx, n);
    TilesInRange(ps, addr, idx, n);
    PiecesAligned(dev, addr, idx, n);
    TilesWellFormed(write, ps, addr, idx, n);
  }

  lemma {:induction false} InLarger(ps: seq<SubReq>, m: nat, b: nat, m2: nat, b2: nat)
    requires InRange(ps, m, b) && m <= m2 && b <= b2
    ensures InRange(ps, m2, b2)
  {
  }

  lemma {:induction false} WellFormedAppend(a: seq<Access>, b: seq<Access>)
    requires WellFormed(a) && WellFormed(b)
    ensures WellFormed(a + b)
  {
    hide Width;
  }

  /** Where a chunk loop stands: `done` of `size` bytes handled, `left` to go, the next at `addr`. */
  predicate Progress(dev: nat, start: nat, size: nat, done: nat, left: nat, addr: nat) {
    done + left == size && (left > 0 ==> addr == start + done && Fitting(dev, addr, left))
  }

  lemma {:induction false} NextChunk(dev: nat, start: nat, size: nat, done: nat, left: nat, addr: u64)
    requires left > 0 && Progress(dev, start, size, done, left, addr) && start + size <= TWO64
    ensures var n := ChunkSize(left);
            && 0 < n <= left && n <= MEM_MAX_RW_SZ && addr == start + done && Fitting(dev, addr, n)
            && Progress(dev, start, size, done + n, left - n, Advance(addr, n))
  {
    if left >= MEM_MAX_RW_SZ {
      ChunkFits(dev, addr, left);
    }
  }

  lemma {:induction false} ProgressStart(dev: nat, start: nat, size: nat)
    requires Fitting(dev, start, size)
    ensures Progress(dev, start, size, 0, size, start)
  {
  }

  /** One turn of the dump loop. */
  method DumpChunk(t: Target, devID: nat, addr: u64, idx: u64, n: u64, subreqs: array<SubReq>, rwValues: array<byte>)
    requires subreqs.Length == MAX_NUM_SUBREQ && Fitting(devID, addr, n) && WellFormed(t.accesses)
    requires addr + n <= |t.mem| <= TWO64 && idx + n <= rwValues.Length <= TWO64
    modifies t`accesses, rwValues, subreqs
    ensures rwValues[..] == Move(old(rwValues[..]), idx, t.mem, addr, n) && WellFormed(t.accesses)
  {
    hide Fitting, Pieces, Tiles, Width, Move, WellFormed, InRange, ReadAll;
    ghost var buf := rwValues[..];
    var num := CreateMemSubreqs(devID, addr, idx, n, subreqs);
    ghost var ps := Pieces(devID, addr, idx, n);
    ChunkTiles(devID, addr, idx, n, false);
    InLarger(ps, addr + n, idx + n, |t.mem|, rwValues.Length);
    ReadTiles(buf, ps, t.mem, addr, idx, n);
    ExecuteGetDevMemOut(t, subreqs, num, rwValues);
    WellFormedAppend(old(t.accesses), AccessesOf(false, ps));
  }

  /** The dump loop. */
  method DumpLoop(t: Target, devID: nat, startAddr: u64, size: nat, subreqs: array<SubReq>,
          rwValues: array<byte>) returns (read: nat)
    requires subreqs.Length == MAX_NUM_SUBREQ && Fitting(devID, startAddr, size) && WellFormed(t.accesses)
    requires startAddr + size <= |t.mem| <= TWO64 && size <= rwValues.Length <= TWO64
    modifies t`accesses, rwValues, subreqs
    ensures read == size && rwValues[..] == Move(old(rwValues[..]), 0, t.mem, startAddr, size)
    ensures WellFormed(t.accesses)
  {
    hide Fitting, WellFormed, Move, Progress, ChunkSize, Advance;
    ProgressStart(devID, startAddr, size);
    ghost var buf, mem := rwValues[..], t.mem;
    var addr: u64, left: nat := startAddr, size;
    read := 0;
    MoveNone(buf, 0, mem, startAddr);
    while left > 0
      invariant Progress(devID, startAddr, size, read, left, addr) && read + left == size
      invariant rwValues[..] == Move(buf, 0, mem, startAddr, read) && WellFormed(t.accesses)
      decreases left
    {
      var n := ChunkSize(left);
      NextChunk(devID, startAddr, size, read, left, addr);
      MoveMove(buf, 0, mem, startAddr, read, n);
      DumpChunk(t, devID, addr, read, n, subreqs, rwValues);
      addr, read, left := Advance(addr, n), read + n, left - n;
    }
  }

  /** `dump_dev_mem` on a validated request: the buffer starts with exactly the memory of the
      range, read with well-formed accesses only. */
  method DumpDevMem(t: Target, devID: nat, startAddr: u64, total: u64, rwValues: array<byte>) returns (read: nat)
    requires ReadOk(devID, startAddr, total) && rwValues.Length == DEV1_MEM_MAX_BIN_SZ
    requires startAddr + ReadSize(devID, total) <= |t.mem| <= TWO64 && WellFormed(t.accesses)
    modifies t`accesses, rwValues
    ensures read == ReadSize(devID, total) && rwValues[..read] == t.mem[startAddr..startAddr + read]
    ensures rwValues[read..] == old(rwValues[read..])
    ensures WellFormed(t.accesses)
  {
    ReadFits(devID, startAddr, total);
    hide ReadOk, Fitting, WellFormed, ReadSize, Move;
    var subreqs := new SubReq[MAX_NUM_SUBREQ](_ => SubReq(0, 0, 0, 0));
    ghost var buf := rwValues[..];
    read := DumpLoop(t, devID, startAddr, ReadSize(devID, total), subreqs, rwValues);
    MovedParts(buf, t.mem, startAddr, read, rwValues[..]);
  }

  lemma {:induction false} ReadFits(dev: nat, addr: u64, total: u64)
    requires ReadOk(dev, addr, total)
    ensures Fitting(dev, addr, ReadSize(dev, total)) && ReadSize(dev, total) <= DEV1_MEM_MAX_BIN_SZ
  {
    ValidatedFits(dev, addr, total);
  }

  lemma {:induction false} MovedParts(buf: seq<byte>, mem: seq<byte>, addr: nat, n: nat, after: seq<byte>)
    requires n <= |buf| && addr + n <= |mem| && after == Move(buf, 0, mem, addr, n)
    ensures after[..n] == mem[addr..addr + n] && after[n..] == buf[n..]
  {
  }

  /** One turn of the fill loop. */
  method FillChunk(t: Target, devID: nat, addr: u64, idx: u64, n: u64, subreqs: array<SubReq>, rwValues: array<byte>)
    returns (res: int)
    requires subreqs.Length == MAX_NUM_SUBREQ && Fitting(devID, addr, n) && WellFormed(t.accesses)
    requires addr + n <= |t.mem| <= TWO64 && idx + n <= rwValues.Length <= TWO64
    modifies t, subreqs
    ensures WellFormed(t.accesses)
    ensures if WriteFits(Pieces(devID, addr, idx, n)) then
              res == CSWP_SUCCESS && t.mem == Move(old(t.mem), addr, rwValues[..], idx, n)
            else res == CSWP_BUFFER_FULL && t.mem == old(t.mem)
  {
    hide Fitting, Pieces, Tiles, Width, Move, WellFormed, InRange, WriteAll, WriteFits;
    var num := CreateMemSubreqs(devID, addr, idx, n, subreqs);
    ghost var ps := Pieces(devID, addr, idx, n);
    ChunkTiles(devID, addr, idx, n, true);
    InLarger(ps, addr + n, idx + n, |t.mem|, rwValues.Length);
    WriteTiles(t.mem, ps, rwValues[..], addr, idx, n);
    res := ExecuteSetDevMemOut(t, subreqs, num, rwValues);
    WellFormedAppend(old(t.accesses), AccessesOf(true, ps));
  }

  /** Whether the fill can go on, and how far it gets when it cannot, from where it stands. */
  lemma {:induction false} NextSends(dev: nat, addr: u64, idx: u64, left: u64)
    requires left > 0
    ensures var n := ChunkSize(left);
            var fits := WriteFits(Pieces(dev, addr, idx, n));
            && (FillSends(dev, addr, idx, left) <==>
                  fits && FillSends(dev, Advance(addr, n), Advance(idx, n), left - n))
            && (fits ==> n == left || LastChunk(left - n) == LastChunk(left))
            && (!fits ==> left == LastChunk(left))
  {
    hide WriteFits, Pieces, Advance, LastChunk;
    LastChunkStep(left);
    if left >= MEM_MAX_RW_SZ {
      FullFits(dev, addr, idx);
    }
  }

  lemma {:induction false} Unwrapped(idx: u64, n: nat)
    requires idx + n < TWO64
    ensures Advance(idx, n) == idx + n
  {
  }

  /** Between two turns of the fill loop: what is done is a plain write, and what is left can be sent
      exactly when all of it can. */
  predicate Filling(dev: nat, start: u64, size: u64, before: seq<byte>, data: seq<byte>, idx: u64, left: u64,
          addr: u64, mem: seq<byte>)
    requires start + size <= |before| && size <= |data|
  {
    && Progress(dev, start, size, idx, left, addr) && idx + left == size
    && |mem| == |before| && mem == Move(before, start, data, 0, idx)
    && FillSends(dev, addr, idx, left) == FillSends(dev, start, 0, size)
    && (left == 0 || LastChunk(left) == LastChunk(size))
  }

  lemma {:induction false} FillingStart(dev: nat, start: u64, size: u64, before: seq<byte>, data: seq<byte>)
    requires Fitting(dev, start, size) && start + size <= |before| && size <= |data|
    ensures Filling(dev, start, size, before, data, 0, size, start, before)
  {
    ProgressStart(dev, start, size);
    MoveNone(before, start, data, 0);
    hide Progress, FillSends, Move, LastChunk;
  }

  lemma {:induction false} FillingNext(dev: nat, start: u64, size: u64, before: seq<byte>, data: seq<byte>, idx: u64,
          left: u64, addr: u64, mem: seq<byte>)
    requires start + size <= |before| <= TWO64 && size <= |data| < TWO64 && left > 0
    requires Filling(dev, start, size, before, data, idx, left, addr, mem)
    ensures var n := ChunkSize(left);
            && 0 < n <= left && n <= MEM_MAX_RW_SZ && Fitting(dev, addr, n) && addr + n <= |mem| && idx + n <= |data|
            && if WriteFits(Pieces(dev, addr, idx, n)) then
                 Filling(dev, start, size, before, data, idx + n, left - n, Advance(addr, n),
                         Move(mem, addr, data, idx, n))
               else !FillSends(dev, start, 0, size) && idx == size - LastChunk(size)
  {
    hide Fitting, Move, Progress, ChunkSize, Advance, FillSends, LastChunk, WriteFits, Pieces;
    var n := ChunkSize(left);
    NextChunk(dev, start, size, idx, left, addr);
    NextSends(dev, addr, idx, left);
    Unwrapped(idx, n);
    MoveMove(before, start, data, 0, idx, n);
  }

  lemma {:induction false} FillingEnd(dev: nat, start: u64, size: u64, before: seq<byte>, data: seq<byte>, idx: u64,
          addr: u64, mem: seq<byte>)
    requires start + size <= |before| && size <= |data|
    requires Filling(dev, start, size, before, data, idx, 0, addr, mem)
    ensures FillSends(dev, start, 0, size) && idx == size && mem == Move(before, start, data, 0, size)
  {
    NothingLeft(dev, addr, idx);
    hide Progress, FillSends, Move, LastChunk;
  }

  lemma {:induction false} FillingSoFar(dev: nat, start: u64, size: u64, before: seq<byte>, data: seq<byte>, idx: u64,
          left: u64, addr: u64, mem: seq<byte>)
    requires start + size <= |before| && size <= |data|
    requires Filling(dev, start, size, before, data, idx, left, addr, mem)
    ensures idx + left == size && |mem| == |before| && mem == Move(before, start, data, 0, idx)
  {
  }

  /** The fill loop: a chunk that does not fit ends it. */
  method FillLoop(t: Target, devID: nat, startAddr: u64, size: u64, subreqs: array<SubReq>, rwValues: array<byte>)
    returns (res: int, ghost sent: nat)
    requires subreqs.Length == MAX_NUM_SUBREQ && Fitting(devID, startAddr, size) && WellFormed(t.accesses)
    requires startAddr + size <= |t.mem| <= TWO64 && size <= rwValues.Length < TWO64
    modifies t, subreqs
    ensures res == if FillSends(devID, startAddr, 0, size) then CSWP_SUCCESS else CSWP_BUFFER_FULL
    ensures sent == (if FillSends(devID, startAddr, 0, size) then size else size - LastChunk(size)) <= size
    ensures t.mem == Move(old(t.mem), startAddr, rwValues[..], 0, sent) && WellFormed(t.accesses)
  {
    hide Fitting, WellFormed, Move, ChunkSize, Advance, FillSends, LastChunk, WriteFits, Pieces, Filling;
    ghost var before, data := t.mem, rwValues[..];
    var addr: u64, idx: u64, left: u64 := startAddr, 0, size;
    res := CSWP_SUCCESS;
    FillingStart(devID, startAddr, size, before, data);
    while left > 0
      invariant Filling(devID, startAddr, size, before, data, idx, left, addr, t.mem) && idx + left == size
      invariant res == CSWP_SUCCESS && |t.mem| == |before| && rwValues[..] == data && WellFormed(t.accesses)
      decreases left
    {
      var n := ChunkSize(left);
      FillingNext(devID, startAddr, size, before, data, idx, left, addr, t.mem);
      FillingSoFar(devID, startAddr, size, before, data, idx, left, addr, t.mem);
      res := FillChunk(t, devID, addr, idx, n, subreqs, rwValues);
      if res != CSWP_SUCCESS {
        sent := idx;
        return;
      }
      addr, idx, left := Advance(addr, n), idx + n, left - n;
    }
    FillingEnd(devID, startAddr, size, before, data, idx, addr, t.mem);
    sent := idx;
  }

  lemma {:induction false} NothingLeft(dev: nat, addr: u64, idx: u64)
    ensures FillSends(dev, addr, idx, 0)
  {
  }

  /** `fill_dev_mem` on validated data.  When its last chunk passes the test, the range holds exactly the
      data; otherwise it reports a full buffer, and exactly the full chunks in front of the last were
      written.  Every other byte is as it was, and all accesses are well-formed. */
  method FillDevMem(t: Target, devID: nat, startAddr: u64, total: u64, rwValues: array<byte>) returns (res: int)
    requires FillOk(devID, startAddr, total) && rwValues.Length == DEV1_MEM_MAX_BIN_SZ
    requires startAddr + total <= |t.mem| <= TWO64 && WellFormed(t.accesses)
    modifies t
    ensures res == if LastFits(devID, total) then CSWP_SUCCESS else CSWP_BUFFER_FULL
    ensures var sent := Filled(devID, total);
            t.mem == old(t.mem[..startAddr]) + rwValues[..sent] + old(t.mem[startAddr + sent..])
    ensures WellFormed(t.accesses)
  {
    FillFits(devID, startAddr, total);
    FillSendsWhen(devID, startAddr, 0, total);
    hide FillOk, Fitting, WellFormed, Move, FillSends, LastFits, LastChunk;
    var subreqs := new SubReq[MAX_NUM_SUBREQ](_ => SubReq(0, 0, 0, 0));
    ghost var before := t.mem;
    ghost var sent;
    res, sent := FillLoop(t, devID, startAddr, total, subreqs, rwValues);
    assert rwValues[..][0..sent] == rwValues[..sent];
    MoveOf(before, startAddr, rwValues[..], 0, sent, rwValues[..sent]);
  }

  /** How many bytes a fill writes. */
  function Filled(dev: nat, total: nat): (sent: nat)
    ensures sent <= total
  {
    if LastFits(dev, total) then total else total - LastChunk(total)
  }

  lemma {:induction false} FillFits(dev: nat, addr: u64, total: u64)
    requires FillOk(dev, addr, total)
    ensures Fitting(dev, addr, total) && total <= DEV1_MEM_MAX_BIN_SZ && (dev == 0 ==> total % 4 == 0)
  {
    ValidatedFits(dev, addr, total);
  }

  /** The two commands in sequence: the dump returns what the fill wrote, and behind it the old
      contents. */
  method FillThenDump(t: Target, devID: nat, startAddr: u64, total: u64, rwValues: array<byte>, out: array<byte>)
    returns (res: int, read: nat)
    requires FillOk(devID, startAddr, total) && rwValues.Length == out.Length == DEV1_MEM_MAX_BIN_SZ && rwValues != out
    requires startAddr + total <= |t.mem| <= TWO64 && WellFormed(t.accesses)
    modifies t, out
    ensures read == total && (res == CSWP_SUCCESS <==> LastFits(devID, total))
    ensures var sent := Filled(devID, total);
            out[..read] == rwValues[..sent] + old(t.mem[startAddr + sent..startAddr + total])
  {
    FillIsReadable(devID, startAddr, total);
    hide FillOk, ReadOk, WellFormed, ReadSize, LastFits, Filled;
    ghost var sent, before := Filled(devID, total), t.mem;
    res := FillDevMem(t, devID, startAddr, total, rwValues);
    FilledRange(before, startAddr, rwValues[..sent], total);
    read := DumpDevMem(t, devID, startAddr, total, out);
  }

  lemma {:induction false} FilledRange(mem: seq<byte>, addr: nat, data: seq<byte>, total: nat)
    requires |data| <= total && addr + total <= |mem|
    ensures (mem[..addr] + data + mem[addr + |data|..])[addr..addr + total] == data + mem[addr + |data|..addr + total]
  {
  }

  lemma {:induction false} FillIsReadable(dev: nat, addr: u64, total: u64)
    requires FillOk(dev, addr, total)
    ensures ReadOk(dev, addr, total) && ReadSize(dev, total) == total
  {
  }
}
