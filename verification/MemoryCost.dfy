/** What a memory request costs in the client's 16384-byte request buffer. */
module MemoryCost {
  import opened Bytes
  import Varint
  import opened CswpClient
  import opened MemorySplit

  /** Bytes of a varint. */
  function VarLen(v: nat): nat {
    |Varint.Encode(v)|
  }

  lemma {:induction false} VarLens(v: nat)
    ensures v < 0x80 ==> VarLen(v) == 1
    ensures 0x80 <= v < 0x4000 ==> VarLen(v) == 2
  {
    Varint.EncodeLength(v, 1);
    Varint.EncodeLength(v, 2);
    Varint.Pow128Values();
  }

  /** A piece costs its header and its bytes. */
  function WriteCost(ps: seq<SubReq>): nat {
    if ps == [] then 0 else 13 + VarLen(ps[0].size) + ps[0].size + WriteCost(ps[1..])
  }

  lemma {:induction false} LenIs(v: nat)
    ensures VarLen(v) == |Varint.Encode(v)|
  {
  }

  lemma {:induction false} NoCost(ps: seq<SubReq>)
    ensures WriteCost(ps[..0]) == 0
  {
  }

  lemma {:induction false} CostSnoc(ps: seq<SubReq>, i: nat)
    requires i < |ps|
    ensures WriteCost(ps[..i + 1]) == WriteCost(ps[..i]) + 13 + VarLen(ps[i].size) + ps[i].size
  {
    hide VarLen;
    if i > 0 {
      CostSnoc(ps[1..], i - 1);
      assert ps[..i + 1][1..] == ps[1..][..i] && ps[..i][1..] == ps[1..][..i - 1];
    } else {
      assert ps[..1][1..] == [];
    }
  }

  lemma {:induction false} CostPrefix(ps: seq<SubReq>, i: nat)
    requires i <= |ps|
    ensures WriteCost(ps[..i]) <= WriteCost(ps)
  {
    hide VarLen;
    if i > 0 {
      CostPrefix(ps[1..], i - 1);
      assert ps[..i][1..] == ps[1..][..i - 1];
    }
  }

  /** The sum of an address and a size, in 64 bits. */
  function Advance(addr: u64, n: nat): u64 {
    (addr + n) % TWO64
  }

  function ChunkSize(left: nat): nat {
    if left >= MEM_MAX_RW_SZ then MEM_MAX_RW_SZ else left
  }

  // ---------------------------------------------------------------------------------------------
  // The cost of a chunk

  function Bits(r: nat): nat {
    r / 4 % 2 + r / 2 % 2 + r % 2
  }

  lemma {:induction false} CostNext(dev: nat, addr: u64, idx: u64, n: u64) returns (addr2: u64, idx2: u64)
    requires n > 0
    ensures var p := FirstPiece(dev, addr, idx, n);
            WriteCost(Pieces(dev, addr, idx, n)) == 13 + VarLen(p.size) + p.size + WriteCost(Pieces(dev, addr2, idx2,
                    n - p.size))
  {
    PiecesNext(dev, addr, idx, n);
    var p := FirstPiece(dev, addr, idx, n);
    addr2, idx2 := (addr + p.size) % TWO64, (idx + p.size) % TWO64;
    var rest := Pieces(dev, addr2, idx2, n - p.size);
    hide Pieces, FirstPiece, VarLen;
    assert ([p] + rest)[1..] == rest;
  }

  lemma {:induction false} SmallFirst(dev: nat, addr: u64, idx: u64, n: u64)
    requires 0 < n < 8
    ensures var p := FirstPiece(dev, addr, idx, n); VarLen(p.size) == 1 && Bits(n) == 1 + Bits(n - p.size)
  {
    VarLens(FirstPiece(dev, addr, idx, n).size);
    hide VarLen;
  }

  /** Below eight bytes: a piece for every bit of the size. */
  lemma {:induction false} SmallCost(dev: nat, addr: u64, idx: u64, n: u64)
    requires n < 8
    ensures WriteCost(Pieces(dev, addr, idx, n)) == n + 14 * Bits(n)
    decreases n
  {
    if n == 0 {
      PiecesDone(dev, addr, idx);
    } else {
      hide Pieces, VarLen, WriteCost, FirstPiece, Bits;
      var addr2, idx2 := CostNext(dev, addr, idx, n);
      SmallFirst(dev, addr, idx, n);
      var p := FirstPiece(dev, addr, idx, n);
      SmallCost(dev, addr2, idx2, n - p.size);
    }
  }

  lemma {:induction false} LargeCost(dev: nat, addr: u64, idx: u64, n: u64)
    requires n >= 8
    ensures var k := if dev == 0 then n / 4 * 4 else n / 8 * 8;
            WriteCost(Pieces(dev, addr, idx, n)) == 13 + VarLen(k) + n + 14 * Bits(n - k)
  {
    var addr2, idx2 := CostNext(dev, addr, idx, n);
    var p := FirstPiece(dev, addr, idx, n);
    hide Pieces, VarLen, WriteCost, Bits;
    SmallCost(dev, addr2, idx2, n - p.size);
  }

  predicate WriteFits(ps: seq<SubReq>) {
    REQ_HEADER_SIZE + WriteCost(ps) <= REQ_RSP_BUFFER_SIZE
  }

  /** A write chunk fits the request buffer exactly when, on the device that takes any size, its
      bytes and fourteen more for each odd piece behind the 64-bit accesses stay within 16354. */
  lemma {:induction false} WriteChunkFits(dev: nat, addr: u64, idx: u64, n: u64)
    requires n <= MEM_MAX_RW_SZ && (dev == 0 ==> n % 4 == 0)
    ensures WriteFits(Pieces(dev, addr, idx, n)) <==> dev == 0 || n + 14 * Bits(n % 8) <= 16354
  {
    if n < 8 {
      SmallCost(dev, addr, idx, n);
    } else {
      LargeCost(dev, addr, idx, n);
      var k := if dev == 0 then n / 4 * 4 else n / 8 * 8;
      VarLens(k);
      assert n - k == if dev == 0 then 0 else n % 8;
      hide Pieces, VarLen, WriteCost;
    }
  }

  /** A full chunk leaves exactly two bytes of the request buffer. */
  lemma {:induction false} FullChunkSpare(dev: nat, addr: u64, idx: u64)
    ensures |Pieces(dev, addr, idx, MEM_MAX_RW_SZ)| == 1
    ensures REQ_HEADER_SIZE + WriteCost(Pieces(dev, addr, idx, MEM_MAX_RW_SZ)) == REQ_RSP_BUFFER_SIZE - 2
  {
    LargeCost(dev, addr, idx, MEM_MAX_RW_SZ);
    VarLens(MEM_MAX_RW_SZ);
    PiecesNext(dev, addr, idx, MEM_MAX_RW_SZ);
    var p := FirstPiece(dev, addr, idx, MEM_MAX_RW_SZ);
    assert p.size == MEM_MAX_RW_SZ;
    PiecesDone(dev, (addr + p.size) % TWO64, (idx + p.size) % TWO64);
  }

  // ---------------------------------------------------------------------------------------------
  // A whole fill

  /** Whether every chunk of a fill of `n` bytes fits the request buffer. */
  predicate FillSends(dev: nat, addr: u64, idx: u64, n: u64)
    decreases n
  {
    if n == 0 then true
    else
      var k := ChunkSize(n);
      WriteFits(Pieces(dev, addr, idx, k)) && FillSends(dev, Advance(addr, k), Advance(idx, k), n - k)
  }

  /** What is left after the full chunks. */
  function LastChunk(n: nat): (r: nat)
    ensures r <= n && r < MEM_MAX_RW_SZ
  {
    n % MEM_MAX_RW_SZ
  }

  lemma {:induction false} LastChunkStep(n: nat)
    ensures if n >= MEM_MAX_RW_SZ then LastChunk(n) == LastChunk(n - MEM_MAX_RW_SZ) else LastChunk(n) == n
  {
  }

  /** The test of one number: the size of the last chunk and fourteen for each odd piece of it. */
  predicate LastFits(dev: nat, n: nat) {
    dev == 0 || var r := LastChunk(n); r + 14 * Bits(r % 8) <= 16354
  }

  /** All chunks of a fill fit exactly when its last, partial chunk passes the test. */
  lemma {:induction false} FillSendsWhen(dev: nat, addr: u64, idx: u64, n: u64)
    requires dev == 0 ==> n % 4 == 0
    ensures FillSends(dev, addr, idx, n) <==> LastFits(dev, n)
    decreases n
  {
    hide FillSends, LastFits;
    if n < MEM_MAX_RW_SZ {
      OneChunkSends(dev, addr, idx, n);
    } else {
      var k := MEM_MAX_RW_SZ;
      FullChunkSends(dev, addr, idx, n);
      hide Advance;
      assert dev == 0 ==> (n - k) % 4 == 0;
      FillSendsWhen(dev, Advance(addr, k), Advance(idx, k), n - k);
    }
  }

  lemma {:induction false} OneChunkSends(dev: nat, addr: u64, idx: u64, n: u64)
    requires n < MEM_MAX_RW_SZ && (dev == 0 ==> n % 4 == 0)
    ensures FillSends(dev, addr, idx, n) <==> LastFits(dev, n)
  {
    hide WriteFits, Pieces, LastChunk, Advance;
    LastChunkStep(n);
    if n > 0 {
      WriteChunkFits(dev, addr, idx, n);
      assert n - ChunkSize(n) == 0;
    }
  }

  lemma {:induction false} FullChunkSends(dev: nat, addr: u64, idx: u64, n: u64)
    requires n >= MEM_MAX_RW_SZ
    ensures var k := MEM_MAX_RW_SZ;
            FillSends(dev, addr, idx, n) == FillSends(dev, Advance(addr, k), Advance(idx, k), n - k)
    ensures LastFits(dev, n) == LastFits(dev, n - MEM_MAX_RW_SZ)
  {
    hide WriteFits, Pieces, LastChunk, Advance, Bits;
    LastChunkStep(n);
    FullFits(dev, addr, idx);
  }

  /** A full chunk always fits. */
  lemma {:induction false} FullFits(dev: nat, addr: u64, idx: u64)
    ensures WriteFits(Pieces(dev, addr, idx, MEM_MAX_RW_SZ))
  {
    hide Pieces, WriteCost;
    FullChunkSpare(dev, addr, idx);
  }

  /** A file the command line accepts for device 1 whose only chunk does not fit. */
  lemma {:induction false} FillTooLong(addr: u64)
    requires addr % 8 == 0
    ensures FillOk(1, addr, 16351) && !WriteFits(Pieces(1, addr, 0, 16351)) && !FillSends(1, addr, 0, 16351)
  {
    hide Pieces, WriteFits;
    WriteChunkFits(1, addr, 0, 16351);
  }
}
