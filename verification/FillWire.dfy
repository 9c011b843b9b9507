/** A whole fill on the wire: the frames its chunks go out in, what a server makes of all of them, and
    the loop that sends them through the client.
 */
module FillWire {
  import opened Bytes
  import opened CswpBuffer
  import opened Commands
  import opened DummyServer
  import opened CswpClient
  import opened MemorySplit
  import opened MemoryCost
  import opened MemoryChunks
  import opened Capacity
  import opened MemoryWire

  /** Device 0 takes whole words only. */
  predicate Whole(dev: nat, n: nat) {
    dev == 0 ==> n % 4 == 0
  }

  lemma {:induction false} WholeNext(dev: nat, n: nat)
    requires Whole(dev, n)
    ensures Whole(dev, ChunkSize(n)) && Whole(dev, n - ChunkSize(n))
  {
    assert MEM_MAX_RW_SZ == 4 * 4088;
  }

  /** The frame of one chunk. */
  function ChunkFrame(dev: nat, addr: u64, idx: u64, n: u64, data: seq<byte>): seq<byte>
    requires Within(dev, addr, idx, n, |data|)
  {
    var ps := Pieces(dev, addr, idx, n);
    ChunkInRange(dev, addr, idx, n, |data|);
    Frame(WireMode(|ps|), WriteCommands(dev, 0, ps, data))
  }

  /** The frames of a fill, up to the first chunk that does not fit. */
  function FillFrames(dev: nat, addr: u64, idx: u64, n: u64, data: seq<byte>): seq<seq<byte>>
    requires Within(dev, addr, idx, n, |data|)
    decreases n
  {
    if n == 0 then []
    else
      var k := ChunkSize(n);
      WithinNext(dev, addr, idx, n, |data|);
      if WriteFits(Pieces(dev, addr, idx, k)) then
        [ChunkFrame(dev, addr, idx, k, data)] + FillFrames(dev, Advance(addr, k), Advance(idx, k), n - k, data)
      else []
  }

  /** What a server that parses a frame does to its devices. */
  function PerformFrame(b: Board, frame: seq<byte>): Board {
    var req := Parse(frame);
    if req.Some? then PerformAll(b, req.value.infos) else b
  }

  function PerformFrames(b: Board, frames: seq<seq<byte>>): Board
    decreases |frames|
  {
    if frames == [] then b else PerformFrames(PerformFrame(b, frames[0]), frames[1..])
  }

  /** How much of a fill goes out: all of it, or the full chunks. */
  function Sent(dev: nat, addr: u64, idx: u64, n: u64): (sent: nat)
    ensures sent <= n
  {
    if FillSends(dev, addr, idx, n) then n else n - LastChunk(n)
  }

  lemma {:induction false} SentNext(dev: nat, addr: u64, idx: u64, n: u64)
    requires n > 0
    ensures var k := ChunkSize(n);
            Sent(dev, addr, idx, n) == if WriteFits(Pieces(dev, addr, idx, k)) then
                                         k + Sent(dev, Advance(addr, k), Advance(idx, k), n - k)
                                       else 0
  {
    NextSends(dev, addr, idx, n);
    if n <= ChunkSize(n) {
      NothingLeft(dev, Advance(addr, n), Advance(idx, n));
    }
    hide FillSends, LastChunk, WriteFits, Pieces, Advance;
  }

  /** The writes from position `from` on are the device's, and whole ones at multiples of their width. */
  predicate Sound(ws: seq<Touch>, from: nat, dev: int, aligned: bool) {
    && from <= |ws|
    && forall i :: from <= i < |ws| ==>
         && ws[i].dev == dev && ws[i].access.write
         && (aligned ==> ws[i].access.addr % Width(ws[i].access.acc) == 0
                         && ws[i].access.size % Width(ws[i].access.acc) == 0)
  }

  lemma {:induction false} TouchesSound(b: seq<Touch>, dev: nat, addr: u64, idx: u64, n: u64, aligned: bool)
    requires addr + n <= TWO64 && idx + n <= TWO64 && (aligned ==> Fitting(dev, addr, n))
    ensures Sound(b + Touches(dev, Pieces(dev, addr, idx, n)), |b|, dev, aligned)
  {
    hide Pieces, Fitting, Tiles, InRange, Width;
    var ps := Pieces(dev, addr, idx, n);
    var ws := b + Touches(dev, ps);
    if aligned {
      ChunkTiles(dev, addr, idx, n, true);
      var log := AccessesOf(true, ps);
      forall i | |b| <= i < |ws| ensures ws[i].access == log[i - |b|] {
      }
    }
  }

  /** From chunk to chunk the range stays as aligned as it was. */
  lemma {:induction false} FittingNext(dev: nat, addr: u64, n: u64)
    requires Fitting(dev, addr, n) && n > 0 && addr + n <= TWO64
    ensures var k := ChunkSize(n); Fitting(dev, addr, k) && Fitting(dev, Advance(addr, k), n - k)
  {
    if n >= MEM_MAX_RW_SZ {
      ChunkFits(dev, addr, n);
      hide Fitting;
      Landed(dev, addr, MEM_MAX_RW_SZ, n);
    } else {
      FittingEnd(dev, addr, n);
      hide Fitting;
      Landed(dev, addr, n, n);
    }
  }

  lemma {:induction false} FittingEnd(dev: nat, addr: nat, n: nat)
    requires Fitting(dev, addr, n)
    ensures Fitting(dev, addr + n, 0)
  {
    hide Fitting;
    if dev == 0 {
      WordsOnly(addr, n);
    }
    AtAnyWord(dev, addr + n);
  }

  lemma {:induction false} WordsOnly(addr: nat, n: nat)
    requires Fitting(0, addr, n)
    ensures (addr + n) % 4 == 0
  {
    assert addr % 4 == 0 && n % 4 == 0;
    hide Fitting;
  }

  lemma {:induction false} AtAnyWord(dev: nat, addr: nat)
    requires dev == 0 ==> addr % 4 == 0
    ensures Fitting(dev, addr, 0)
  {
  }

  lemma {:induction false} Landed(dev: nat, addr: u64, k: nat, n: nat)
    requires k <= n && addr + n <= TWO64 && Fitting(dev, addr + k, n - k)
    ensures Fitting(dev, Advance(addr, k), n - k)
  {
    if addr + k == TWO64 {
      assert Advance(addr, k) == 0;
    } else {
      assert Advance(addr, k) == addr + k;
    }
  }

  lemma {:induction false} ChunkPerformed(dev: nat, addr: u64, idx: u64, n: u64, data: seq<byte>, b: Board)
    requires Within(dev, addr, idx, n, |data|) && n <= MEM_MAX_RW_SZ && WriteFits(Pieces(dev, addr, idx, n))
    requires dev in b.mems && addr + n <= |b.mems[dev]| <= TWO64
    ensures var r := PerformFrame(b, ChunkFrame(dev, addr, idx, n, data));
            && r.mems == b.mems[dev := Move(b.mems[dev], addr, data, idx, n)] && b.writes <= r.writes
            && Sound(r.writes, |b.writes|, dev, Fitting(dev, addr, n))
  {
    hide Pieces, WriteFits, Parse, Frame, PerformAll, Move, Sound, Fitting, WritesPiece;
    ChunkInRange(dev, addr, idx, n, |data|);
    WriteChunkOverWire(WireMode(|Pieces(dev, addr, idx, n)|), dev, addr, idx, n, data, b);
    TouchesSound(b.writes, dev, addr, idx, n, Fitting(dev, addr, n));
  }

  /** All frames of a fill, performed in order, are one plain write to the device it is for: of the whole
      range when every chunk fits, and otherwise of exactly the full chunks in front of the last.  No other
      device changes, and if the range is aligned as validation demands, every access is whole and aligned. */
  lemma {:induction false} FillOverWire(dev: nat, addr: u64, idx: u64, n: u64, data: seq<byte>, b: Board)
    requires Within(dev, addr, idx, n, |data|) && dev in b.mems && addr + n <= |b.mems[dev]| <= TWO64
    ensures var r := PerformFrames(b, FillFrames(dev, addr, idx, n, data));
            && r.mems == b.mems[dev := Move(b.mems[dev], addr, data, idx, Sent(dev, addr, idx, n))]
            && b.writes <= r.writes && Sound(r.writes, |b.writes|, dev, Fitting(dev, addr, n))
    decreases n
  {
    hide WriteFits, Pieces, Move, ChunkFrame, PerformFrame, Within, Advance, ChunkSize, Sent, Fitting;
    WithinIs(dev, addr, idx, n, |data|);
    var mem := b.mems[dev];
    if n == 0 {
      NothingSent(b, dev, addr, data, idx);
    } else {
      var k := ChunkSize(n);
      var addr2, idx2 := Advance(addr, k), Advance(idx, k);
      WithinNext(dev, addr, idx, n, |data|);
      SentNext(dev, addr, idx, n);
      if WriteFits(Pieces(dev, addr, idx, k)) {
        hide Sound;
        ChunkPerformed(dev, addr, idx, k, data, b);
        var rest := FillFrames(dev, addr2, idx2, n - k, data);
        var next := PerformFrame(b, ChunkFrame(dev, addr, idx, k, data));
        FirstFrame(b, ChunkFrame(dev, addr, idx, k, data), rest);
        WithinIs(dev, addr2, idx2, n - k, |data|);
        assert addr2 + (n - k) <= |mem| by { InMemory(addr, k, n); }
        FillOverWire(dev, addr2, idx2, n - k, data, next);
        Composed(mem, addr, data, idx, k, addr2, Sent(dev, addr2, idx2, n - k), n);
        SentOn(dev, addr, n, b.writes, next.writes, PerformFrames(next, rest).writes);
      } else {
        NothingSent(b, dev, addr, data, idx);
      }
    }
  }

  lemma {:induction false} NothingSent(b: Board, dev: int, addr: nat, data: seq<byte>, idx: nat)
    requires dev in b.mems && addr <= |b.mems[dev]| && idx <= |data|
    ensures b.mems == b.mems[dev := Move(b.mems[dev], addr, data, idx, 0)] && PerformFrames(b, []) == b
    ensures forall aligned: bool :: Sound(b.writes, |b.writes|, dev, aligned)
  {
    MoveNone(b.mems[dev], addr, data, idx);
  }

  lemma {:induction false} SentOn(dev: nat, addr: u64, n: u64, a: seq<Touch>, b: seq<Touch>, c: seq<Touch>)
    requires n > 0 && addr + n <= TWO64 && a <= b && b <= c && ChunkSize(n) <= n
    requires Sound(b, |a|, dev, Fitting(dev, addr, ChunkSize(n)))
    requires Sound(c, |b|, dev, Fitting(dev, Advance(addr, ChunkSize(n)), n - ChunkSize(n)))
    ensures Sound(c, |a|, dev, Fitting(dev, addr, n))
  {
    hide Fitting, Width, Advance, ChunkSize;
    if Fitting(dev, addr, n) {
      FittingNext(dev, addr, n);
    }
    assert forall i :: |a| <= i < |b| ==> c[i] == b[i];
  }

  lemma {:induction false} FirstFrame(b: Board, frame: seq<byte>, rest: seq<seq<byte>>)
    ensures PerformFrames(b, [frame] + rest) == PerformFrames(PerformFrame(b, frame), rest)
  {
    hide PerformFrame;
    assert ([frame] + rest)[1..] == rest;
  }

  /** A chunk that does not fit is several pieces, so that it is a batch that stays open. */
  lemma {:induction false} UnfitMany(dev: nat, addr: u64, idx: u64, n: u64)
    requires n <= MEM_MAX_RW_SZ && Whole(dev, n) && !WriteFits(Pieces(dev, addr, idx, n))
    ensures |Pieces(dev, addr, idx, n)| > 1
  {
    WriteChunkFits(dev, addr, idx, n);
    assert n > 8;
    PiecesNext(dev, addr, idx, n);
    var p := FirstPiece(dev, addr, idx, n);
    assert p.size < n;
    PiecesNext(dev, (addr + p.size) % TWO64, (idx + p.size) % TWO64, n - p.size);
    hide Pieces, WriteFits;
  }

  /** The transport's results for the chunks: every exchange is defined and a success. */
  ghost predicate Acknowledged(dev: nat, addr: u64, idx: u64, n: u64, chs: seq<Channel>)
    decreases n
  {
    n == 0
    || (var k := ChunkSize(n);
        var num := |Pieces(dev, addr, idx, k)|;
        && chs != [] && ChannelOk(chs[0], Waiting(CSWP_MEM_WRITE, num), num)
        && Returns(Transacted(chs[0], Waiting(CSWP_MEM_WRITE, num), num, 0), CSWP_SUCCESS)
        && Acknowledged(dev, Advance(addr, k), Advance(idx, k), n - k, chs[1..]))
  }

  lemma {:induction false} FramesNext(dev: nat, addr: u64, idx: u64, n: u64, data: seq<byte>)
    requires Within(dev, addr, idx, n, |data|) && n > 0
    ensures var k := ChunkSize(n);
            && k <= n && Within(dev, addr, idx, k, |data|)
            && Within(dev, Advance(addr, k), Advance(idx, k), n - k, |data|)
            && FillFrames(dev, addr, idx, n, data)
            == if WriteFits(Pieces(dev, addr, idx, k)) then
                 [ChunkFrame(dev, addr, idx, k, data)] + FillFrames(dev, Advance(addr, k), Advance(idx, k), n - k, data)
               else []
  {
    WithinNext(dev, addr, idx, n, |data|);
    hide Within, WriteFits, Pieces, ChunkFrame;
  }

  /** One turn of the loop, with the transport's result for its chunk. */
  method SendChunk(client: Client, dev: nat, addr: u64, idx: u64, n: u64, subreqs: array<SubReq>, rwValues: array<byte>,
          ch: Channel)
    returns (res: int)
    requires client.Valid() && client.batchMode.BatchNone? && subreqs.Length == MAX_NUM_SUBREQ
    requires subreqs !in client.Repr() && rwValues !in client.Repr()
    requires 0 < n <= MEM_MAX_RW_SZ && Within(dev, addr, idx, n, rwValues.Length) && Whole(dev, n)
    requires var num := |Pieces(dev, addr, idx, n)|;
             && ChannelOk(ch, Waiting(CSWP_MEM_WRITE, num), num)
             && Returns(Transacted(ch, Waiting(CSWP_MEM_WRITE, num), num, 0), CSWP_SUCCESS)
    modifies client.Repr(), subreqs
    ensures client.Valid()
    ensures if WriteFits(Pieces(dev, addr, idx, n)) then
              && res == CSWP_SUCCESS && client.batchMode.BatchNone?
              && client.sent == old(client.sent) + [ChunkFrame(dev, addr, idx, n, rwValues[..])]
            else res == CSWP_BUFFER_FULL && client.batchMode.BatchAbort? && client.sent == old(client.sent)
  {
    hide ChannelOk, Transacted, WriteFits, Pieces, OneByte, Frame;
    ChunkInRange(dev, addr, idx, n, rwValues.Length);
    var num := CreateMemSubreqs(dev, addr, idx, n, subreqs);
    assert num == |Pieces(dev, addr, idx, n)| > 0;
    if !WriteFits(Pieces(dev, addr, idx, n)) {
      UnfitMany(dev, addr, idx, n);
    }
    res := ExecuteSetOverClient(client, dev, subreqs, num, rwValues, ch);
    if WriteFits(Pieces(dev, addr, idx, n)) {
      assert client.sent == client.sent[..|client.sent| - 1] + [client.sent[|client.sent| - 1]];
    }
  }

  /** The loop of `fill_dev_mem` through the client, every exchange with the server a success: the frames of
      the fill go out, and the chunk that does not fit, if there is one, is reported and leaves its batch
      open. */
  method FillOverClient(client: Client, dev: nat, startAddr: u64, size: u64, rwValues: array<byte>, chs: seq<Channel>)
    returns (res: int)
    requires client.Valid() && client.batchMode.BatchNone? && rwValues !in client.Repr()
    requires Within(dev, startAddr, 0, size, rwValues.Length) && Whole(dev, size)
    requires Acknowledged(dev, startAddr, 0, size, chs)
    modifies client.Repr()
    ensures client.Valid() && client.sent == old(client.sent) + FillFrames(dev, startAddr, 0, size, rwValues[..])
    ensures res == if FillSends(dev, startAddr, 0, size) then CSWP_SUCCESS else CSWP_BUFFER_FULL
    ensures client.batchMode == if FillSends(dev, startAddr, 0, size) then BatchNone else BatchAbort
  {
    hide Within, Whole, WriteFits, Pieces, ChunkFrame, Advance, FillSends, FillFrames, Acknowledged, ChannelOk,
            Transacted, ChunkSize, Returns, Waiting;
    var subreqs := new SubReq[MAX_NUM_SUBREQ](_ => SubReq(0, 0, 0, 0));
    ghost var data, goal := rwValues[..], client.sent + FillFrames(dev, startAddr, 0, size, rwValues[..]);
    var addr: u64, idx: u64, left: u64, i := startAddr, 0, size, 0;
    assert chs[0..] == chs;
    while left > 0
      invariant client.Valid() && client.batchMode.BatchNone? && client.Repr() == old(client.Repr())
      invariant rwValues[..] == data && Whole(dev, left)
      invariant i <= |chs| && Within(dev, addr, idx, left, |data|) && Acknowledged(dev, addr, idx, left, chs[i..])
      invariant client.sent + FillFrames(dev, addr, idx, left, data) == goal
      invariant FillSends(dev, addr, idx, left) == FillSends(dev, startAddr, 0, size)
      decreases left
    {
      var n := ChunkSize(left);
      WithinNext(dev, addr, idx, left, |data|);
      WholeNext(dev, left);
      FramesNext(dev, addr, idx, left, data);
      NextSends(dev, addr, idx, left);
      NextAcknowledged(dev, addr, idx, left, chs, i);
      res := SendChunk(client, dev, addr, idx, n, subreqs, rwValues, chs[i]);
      if res != CSWP_SUCCESS {
        return;
      }
      addr, idx, left, i := Advance(addr, n), Advance(idx, n), left - n, i + 1;
    }
    NothingLeft(dev, addr, idx);
    NoFrames(dev, addr, idx, data);
    res := CSWP_SUCCESS;
  }

  lemma {:induction false} NoFrames(dev: nat, addr: u64, idx: u64, data: seq<byte>)
    requires Within(dev, addr, idx, 0, |data|)
    ensures FillFrames(dev, addr, idx, 0, data) == []
  {
  }

  lemma {:induction false} NextAcknowledged(dev: nat, addr: u64, idx: u64, n: u64, chs: seq<Channel>, i: nat)
    requires n > 0 && i <= |chs| && Acknowledged(dev, addr, idx, n, chs[i..])
    ensures var k := ChunkSize(n);
            var num := |Pieces(dev, addr, idx, k)|;
            && i < |chs| && ChannelOk(chs[i], Waiting(CSWP_MEM_WRITE, num), num)
            && Returns(Transacted(chs[i], Waiting(CSWP_MEM_WRITE, num), num, 0), CSWP_SUCCESS)
            && Acknowledged(dev, Advance(addr, k), Advance(idx, k), n - k, chs[i + 1..])
  {
    hide ChannelOk, Transacted, Pieces, Advance;
    assert chs[i..][0] == chs[i] && chs[i..][1..] == chs[i + 1..];
  }
}
