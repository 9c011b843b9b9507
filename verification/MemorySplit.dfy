/** Splitting a byte range into requests whose sizes are multiples of their access width. */
module MemorySplit {
  import opened Bytes

  const MEM_MAX_RW_SZ := 16352
  const MAX_NUM_SUBREQ := 4
  const DEV0_MEM_MAX_BIN_SZ := 4096
  const DEV1_MEM_MAX_BIN_SZ := 262144

  /** `cswp_access_size_t` of an access of 1, 2, 4 or 8 bytes. */
  const ACCESS_SIZE_8: u64 := 1
  const ACCESS_SIZE_16: u64 := 2
  const ACCESS_SIZE_32: u64 := 3
  const ACCESS_SIZE_64: u64 := 4

  function Width(acc: u64): (w: nat)
    ensures w >= 1
  {
    if acc == ACCESS_SIZE_64 then 8 else if acc == ACCESS_SIZE_32 then 4 else if acc == ACCESS_SIZE_16 then 2 else 1
  }

  datatype SubReq = SubReq(saddr: u64, acc: u64, size: u64, bufIdx: u64)

  lemma {:induction false} WholeWords(n: nat)
    ensures n / 4 * 4 % 4 == 0 && n / 4 * 4 <= n && (n >= 4 ==> n / 4 * 4 > 0)
    ensures n / 8 * 8 % 8 == 0 && n / 8 * 8 <= n && (n >= 8 ==> n / 8 * 8 > 0)
  {
  }

  /** The first piece of a range. */
  function FirstPiece(dev: nat, saddr: u64, bufIdx: u64, n: u64): (p: SubReq)
    requires n > 0
    ensures 0 < p.size <= n && p.size % Width(p.acc) == 0
  {
    WholeWords(n);
    if n >= 8 then
      if dev == 0 then SubReq(saddr, ACCESS_SIZE_32, n / 4 * 4, bufIdx)
      else SubReq(saddr, ACCESS_SIZE_64, n / 8 * 8, bufIdx)
    else if n >= 4 then SubReq(saddr, ACCESS_SIZE_32, 4, bufIdx)
    else if n >= 2 then SubReq(saddr, ACCESS_SIZE_16, 2, bufIdx)
    else SubReq(saddr, ACCESS_SIZE_8, 1, bufIdx)
  }

  /** All pieces; sums wrap at 64 bits. */
  function Pieces(dev: nat, saddr: u64, bufIdx: u64, n: u64): (ps: seq<SubReq>)
    decreases n
  {
    if n == 0 then []
    else
      var p := FirstPiece(dev, saddr, bufIdx, n);
      [p] + Pieces(dev, (saddr + p.size) % TWO64, (bufIdx + p.size) % TWO64, n - p.size)
  }

  /** `create_mem_subreqs`: four entries are enough whatever the request. */
  method CreateMemSubreqs(devID: nat, startAddr: u64, rwValuesIdx: u64, totalBytes: u64, subreqs: array<SubReq>)
    returns (i: nat)
    requires subreqs.Length == MAX_NUM_SUBREQ
    modifies subreqs
    ensures i <= MAX_NUM_SUBREQ && subreqs[..i] == Pieces(devID, startAddr, rwValuesIdx, totalBytes)
  {
    hide Pieces, FirstPiece, Left;
    ghost var all := Pieces(devID, startAddr, rwValuesIdx, totalBytes);
    var saddr: u64, bufIdx: u64, numBytes: u64 := startAddr, rwValuesIdx, totalBytes;
    i := 0;
    LeftSome(devID, numBytes);
    while numBytes > 0
      invariant i + Left(devID, numBytes) <= MAX_NUM_SUBREQ
      invariant numBytes > 0 ==> i < MAX_NUM_SUBREQ
      invariant subreqs[..i] + Pieces(devID, saddr, bufIdx, numBytes) == all
      decreases numBytes
    {
      ghost var done, piece := subreqs[..i], FirstPiece(devID, saddr, bufIdx, numBytes);
      var size: u64, acc: u64;
      if numBytes >= 8 {
        size := if devID == 0 then numBytes / 4 * 4 else numBytes / 8 * 8;
        acc := if devID == 0 then ACCESS_SIZE_32 else ACCESS_SIZE_64;
      } else if numBytes >= 4 {
        size, acc := numBytes / 4 * 4, ACCESS_SIZE_32;
      } else if numBytes >= 2 {
        size, acc := numBytes / 2 * 2, ACCESS_SIZE_16;
      } else {
        size, acc := 1, ACCESS_SIZE_8;
      }
      PieceIs(devID, saddr, bufIdx, numBytes, size, acc);
      OnePiece(done, devID, saddr, bufIdx, numBytes);
      subreqs[i] := SubReq(saddr, acc, size, bufIdx);
      assert subreqs[..i + 1] == done + [piece];
      saddr, bufIdx, numBytes := (saddr + size) % TWO64, (bufIdx + size) % TWO64, numBytes - size;
      i := i + 1;
      LeftSome(devID, numBytes);
    }
    PiecesDone(devID, saddr, bufIdx);
    assert subreqs[..i] + [] == subreqs[..i];
  }

  /** What the loop computes is the first piece. */
  lemma {:induction false} PieceIs(dev: nat, saddr: u64, bufIdx: u64, n: u64, size: u64, acc: u64)
    requires n > 0
    requires size == if n >= 8 then (if dev == 0 then n / 4 * 4 else n / 8 * 8)
                     else if n >= 4 then n / 4 * 4 else if n >= 2 then n / 2 * 2 else 1
    requires acc == if n >= 8 then (if dev == 0 then ACCESS_SIZE_32 else ACCESS_SIZE_64)
                    else if n >= 4 then ACCESS_SIZE_32 else if n >= 2 then ACCESS_SIZE_16 else ACCESS_SIZE_8
    ensures FirstPiece(dev, saddr, bufIdx, n) == SubReq(saddr, acc, size, bufIdx) && 0 < size <= n
  {
  }

  /** One turn of the loop. */
  lemma {:induction false} OnePiece(done: seq<SubReq>, dev: nat, saddr: u64, bufIdx: u64, n: u64)
    requires n > 0
    ensures var p := FirstPiece(dev, saddr, bufIdx, n);
            && done + Pieces(dev, saddr, bufIdx, n)
            == done + [p] + Pieces(dev, (saddr + p.size) % TWO64, (bufIdx + p.size) % TWO64, n - p.size)
            && Left(dev, n - p.size) + 1 <= Left(dev, n)
  {
    PiecesNext(dev, saddr, bufIdx, n);
    hide Pieces, FirstPiece, Left;
  }

  lemma {:induction false} LeftSome(dev: nat, n: u64)
    ensures Left(dev, n) <= MAX_NUM_SUBREQ && (n > 0 ==> Left(dev, n) > 0)
  {
  }

  /** How many more pieces a remainder can need. */
  function Left(dev: nat, n: u64): nat {
    if n == 0 then 0 else if n == 1 then 1 else if n < 4 then 2 else if n < 8 then 3 else 4
  }

  lemma {:induction false} PiecesNext(dev: nat, saddr: u64, bufIdx: u64, n: u64)
    requires n > 0
    ensures var p := FirstPiece(dev, saddr, bufIdx, n);
            && Pieces(dev, saddr, bufIdx, n) == [p] + Pieces(dev, (saddr + p.size) % TWO64,
                    (bufIdx + p.size) % TWO64, n - p.size)
            && Left(dev, n - p.size) + 1 <= Left(dev, n)
  {
  }

  lemma {:induction false} PiecesDone(dev: nat, saddr: u64, bufIdx: u64)
    ensures Pieces(dev, saddr, bufIdx, 0) == []
  {
  }

  // ---------------------------------------------------------------------------------------------
  // What the pieces are

  /** The pieces cover `n` bytes from `saddr`, in order and without gap or overlap, taking their
      data from `bufIdx` on at the same pace, each a whole number of accesses. */
  predicate Tiles(ps: seq<SubReq>, saddr: nat, bufIdx: nat, n: nat) {
    if ps == [] then n == 0
    else
      && ps[0].saddr == saddr && ps[0].bufIdx == bufIdx
      && 0 < ps[0].size <= n && ps[0].size % Width(ps[0].acc) == 0
      && Tiles(ps[1..], saddr + ps[0].size, bufIdx + ps[0].size, n - ps[0].size)
  }

  lemma {:induction false} NoWrap(n: u64)
    ensures n % TWO64 == n
  {
  }

  /** Without wrap-around the rest is the split of what is left. */
  lemma {:induction false} PiecesRest(dev: nat, saddr: u64, bufIdx: u64, n: u64) returns (rest: seq<SubReq>)
    requires n > 0 && saddr + n <= TWO64 && bufIdx + n <= TWO64
    ensures var p := FirstPiece(dev, saddr, bufIdx, n);
            && Pieces(dev, saddr, bufIdx, n) == [p] + rest
            && rest == if p.size < n then Pieces(dev, saddr + p.size, bufIdx + p.size, n - p.size) else []
  {
    hide FirstPiece, Width, Left, Pieces;
    var p := FirstPiece(dev, saddr, bufIdx, n);
    PiecesNext(dev, saddr, bufIdx, n);
    PiecesDone(dev, (saddr + p.size) % TWO64, (bufIdx + p.size) % TWO64);
    if p.size < n {
      NoWrap(saddr + p.size);
      NoWrap(bufIdx + p.size);
    }
    rest := Pieces(dev, (saddr + p.size) % TWO64, (bufIdx + p.size) % TWO64, n - p.size);
  }

  lemma {:induction false} FirstAt(dev: nat, saddr: u64, bufIdx: u64, n: u64)
    requires n > 0
    ensures var p := FirstPiece(dev, saddr, bufIdx, n); p.saddr == saddr && p.bufIdx == bufIdx
  {
  }

  lemma {:induction false} NoTiles(saddr: nat, bufIdx: nat)
    ensures Tiles([], saddr, bufIdx, 0)
  {
  }

  lemma {:induction false} TileFirst(p: SubReq, rest: seq<SubReq>, n: nat)
    requires 0 < p.size <= n && p.size % Width(p.acc) == 0
    requires Tiles(rest, p.saddr + p.size, p.bufIdx + p.size, n - p.size)
    ensures Tiles([p] + rest, p.saddr, p.bufIdx, n)
  {
    hide Width;
    assert ([p] + rest)[1..] == rest;
  }

  lemma {:induction false} PiecesTile(dev: nat, saddr: u64, bufIdx: u64, n: u64)
    requires saddr + n <= TWO64 && bufIdx + n <= TWO64
    ensures Tiles(Pieces(dev, saddr, bufIdx, n), saddr, bufIdx, n)
    decreases n
  {
    hide FirstPiece, Width, Left, Pieces, Tiles;
    if n == 0 {
      PiecesDone(dev, saddr, bufIdx);
      NoTiles(saddr, bufIdx);
    } else {
      var rest := PiecesRest(dev, saddr, bufIdx, n);
      var p := FirstPiece(dev, saddr, bufIdx, n);
      FirstAt(dev, saddr, bufIdx, n);
      if p.size < n {
        PiecesTile(dev, saddr + p.size, bufIdx + p.size, n - p.size);
      } else {
        NoTiles(saddr + p.size, bufIdx + p.size);
      }
      TileFirst(p, rest, n);
    }
  }

  /** Never more pieces than the array holds, for a wrapping range or a device of any number. */
  lemma {:induction false} PiecesFew(dev: nat, saddr: u64, bufIdx: u64, n: u64)
    ensures |Pieces(dev, saddr, bufIdx, n)| <= Left(dev, n) <= MAX_NUM_SUBREQ
    decreases n
  {
    if n == 0 {
      PiecesDone(dev, saddr, bufIdx);
    } else {
      PiecesNext(dev, saddr, bufIdx, n);
      hide Pieces;
      var p := FirstPiece(dev, saddr, bufIdx, n);
      PiecesFew(dev, (saddr + p.size) % TWO64, (bufIdx + p.size) % TWO64, n - p.size);
    }
  }

  /** `is_mem_start_addr_aligned`. */
  predicate StartAligned(dev: nat, addr: u64, total: u64, fill: bool) {
    && (dev == 0 ==> addr % 4 == 0)
    && (dev == 1 && fill ==> addr % 8 == 0)
    && (dev == 1 && !fill ==>
          && (total == 2 ==> addr % 2 == 0)
          && (total == 3 || total == 4 ==> addr % 4 == 0)
          && (total > 4 ==> addr % 8 == 0))
  }

  /** The size a read is carried out with: device 0 reads whole words. */
  function ReadSize(dev: nat, total: u64): (n: nat)
    ensures total <= n <= total + 3 && (dev == 0 ==> n % 4 == 0) && (dev != 0 ==> n == total)
  {
    if dev == 0 && total % 4 != 0 then total + (4 - total % 4) else total
  }

  /** What the command line lets through for the two devices. */
  predicate ReadOk(dev: nat, addr: u64, total: u64) {
    dev <= 1 && StartAligned(dev, addr, total, false)
    && total <= if dev == 0 then DEV0_MEM_MAX_BIN_SZ else DEV1_MEM_MAX_BIN_SZ
  }

  predicate FillOk(dev: nat, addr: u64, total: u64) {
    && dev <= 1 && StartAligned(dev, addr, total, true)
    && if dev == 0 then 4 < total <= DEV0_MEM_MAX_BIN_SZ && total % 4 == 0 else 8 < total <= DEV1_MEM_MAX_BIN_SZ
  }

  /** What the split needs of its start: an address as aligned as the widest access to come. */
  predicate Fitting(dev: nat, addr: nat, n: nat) {
    if dev == 0 then addr % 4 == 0 && n % 4 == 0
    else addr % (if n >= 5 then 8 else if n >= 3 then 4 else if n == 2 then 2 else 1) == 0
  }

  predicate AllAligned(ps: seq<SubReq>) {
    forall i :: 0 <= i < |ps| ==> ps[i].saddr % Width(ps[i].acc) == 0
  }

  /** Every validated request is fitting... */
  lemma {:induction false} ValidatedFits(dev: nat, addr: u64, total: u64)
    ensures ReadOk(dev, addr, total) ==> Fitting(dev, addr, ReadSize(dev, total))
    ensures FillOk(dev, addr, total) ==> Fitting(dev, addr, total)
  {
  }

  /** ...cutting off a full chunk leaves it fitting... */
  lemma {:induction false} ChunkFits(dev: nat, addr: nat, n: nat)
    requires Fitting(dev, addr, n) && n >= MEM_MAX_RW_SZ
    ensures Fitting(dev, addr, MEM_MAX_RW_SZ) && Fitting(dev, addr + MEM_MAX_RW_SZ, n - MEM_MAX_RW_SZ)
  {
    assert MEM_MAX_RW_SZ == 8 * 2044;
    if dev == 0 {
      assert (addr + MEM_MAX_RW_SZ) % 4 == 0 && (n - MEM_MAX_RW_SZ) % 4 == 0;
    } else {
      assert (addr + MEM_MAX_RW_SZ) % 8 == 0;
    }
  }

  lemma {:induction false} FirstFits(dev: nat, addr: u64, bufIdx: u64, n: u64)
    requires n > 0 && Fitting(dev, addr, n)
    ensures var p := FirstPiece(dev, addr, bufIdx, n);
            p.saddr % Width(p.acc) == 0 && Fitting(dev, addr + p.size, n - p.size)
  {
    Halves(addr);
    hide FirstPiece;
    if dev == 0 {
      WordsFit(addr, bufIdx, n);
    } else if n >= 8 {
      LargeFits(dev, addr, bufIdx, n);
    } else {
      SmallFits(dev, addr, bufIdx, n);
    }
  }

  lemma {:induction false} WordsFit(addr: u64, bufIdx: u64, n: u64)
    requires n > 0 && n % 4 == 0 && addr % 4 == 0
    ensures var p := FirstPiece(0, addr, bufIdx, n); p.saddr == addr && p.acc == ACCESS_SIZE_32 && p.size == n
  {
  }

  lemma {:induction false} Eights(addr: int, n: int)
    requires addr % 8 == 0
    ensures (addr + n / 8 * 8) % 8 == 0 && 0 <= n - n / 8 * 8 < 8
  {
    var a, q := addr / 8, n / 8;
    assert addr + q * 8 == 8 * (a + q);
  }

  lemma {:induction false} Fours(k: int)
    ensures 4 * k % 4 == 0
  {
  }

  lemma {:induction false} Twos(k: int)
    ensures 2 * k % 2 == 0
  {
  }

  /** What is aligned is aligned for half the width, and four bytes further on. */
  lemma {:induction false} Halves(addr: int)
    ensures addr % 8 == 0 ==> addr % 4 == 0
    ensures addr % 4 == 0 ==> addr % 2 == 0 && (addr + 4) % 4 == 0
    ensures addr % 2 == 0 ==> (addr + 4) % 2 == 0
  {
    Fours(2 * (addr / 8));
    Fours(addr / 4 + 1);
    Twos(2 * (addr / 4));
    Twos(addr / 2 + 2);
  }

  lemma {:induction false} LargeFits(dev: nat, addr: u64, bufIdx: u64, n: u64)
    requires dev != 0 && n >= 8 && addr % 8 == 0
    ensures var p := FirstPiece(dev, addr, bufIdx, n);
            p.saddr == addr && p.acc == ACCESS_SIZE_64 && (addr + p.size) % 8 == 0 && n - p.size < 8
  {
    Eights(addr, n);
  }

  lemma {:induction false} SmallFits(dev: nat, addr: u64, bufIdx: u64, n: u64)
    requires dev != 0 && 0 < n < 8 && Fitting(dev, addr, n)
    ensures var p := FirstPiece(dev, addr, bufIdx, n);
            p.saddr % Width(p.acc) == 0 && Fitting(dev, addr + p.size, n - p.size)
  {
    var k := if n >= 4 then 4 else if n >= 2 then 2 else 1;
    SmallFirstPiece(dev, addr, bufIdx, n);
    Halves(addr);
    hide FirstPiece;
    assert n - k < 4;
  }

  lemma {:induction false} SmallFirstPiece(dev: nat, addr: u64, bufIdx: u64, n: u64)
    requires 0 < n < 8
    ensures FirstPiece(dev, addr, bufIdx, n) ==
              if n >= 4 then SubReq(addr, ACCESS_SIZE_32, 4, bufIdx)
              else if n >= 2 then SubReq(addr, ACCESS_SIZE_16, 2, bufIdx) else SubReq(addr, ACCESS_SIZE_8, 1, bufIdx)
  {
  }

  /** ...and then every piece starts at a multiple of its access width. */
  lemma {:induction false} PiecesAligned(dev: nat, addr: u64, bufIdx: u64, n: u64)
    requires Fitting(dev, addr, n) && addr + n <= TWO64 && bufIdx + n <= TWO64
    ensures AllAligned(Pieces(dev, addr, bufIdx, n))
    decreases n
  {
    if n > 0 {
      FirstFits(dev, addr, bufIdx, n);
      var rest := PiecesRest(dev, addr, bufIdx, n);
      var p := FirstPiece(dev, addr, bufIdx, n);
      hide FirstPiece, Width, Left, Fitting, Pieces;
      if p.size < n {
        PiecesAligned(dev, addr + p.size, bufIdx + p.size, n - p.size);
      }
    }
  }

  /** A piece is made of the widest accesses there is room for in the `left` bytes it starts, eight bytes only
      where the device has them, and of as many as there is room for. */
  predicate Widest(dev: nat, p: SubReq, left: nat) {
    var w := if left >= 8 && dev != 0 then 8 else if left >= 4 then 4 else if left >= 2 then 2 else 1;
    && Width(p.acc) == w && p.size % w == 0 && p.size <= left < p.size + w
  }

  lemma {:induction false} FirstWidest(dev: nat, saddr: u64, bufIdx: u64, n: u64)
    requires n > 0
    ensures Widest(dev, FirstPiece(dev, saddr, bufIdx, n), n)
  {
  }

  predicate AllWidest(dev: nat, ps: seq<SubReq>, end: nat) {
    forall i :: 0 <= i < |ps| ==> ps[i].saddr <= end && Widest(dev, ps[i], end - ps[i].saddr)
  }

  lemma {:induction false} WidestCons(dev: nat, p: SubReq, ps: seq<SubReq>, end: nat)
    requires p.saddr <= end && Widest(dev, p, end - p.saddr) && AllWidest(dev, ps, end)
    ensures AllWidest(dev, [p] + ps, end)
  {
    hide Widest;
  }

  /** So is every piece, counted from where it starts to the end of the range. */
  lemma {:induction false} PiecesWidest(dev: nat, addr: u64, bufIdx: u64, n: u64)
    requires addr + n <= TWO64 && bufIdx + n <= TWO64
    ensures AllWidest(dev, Pieces(dev, addr, bufIdx, n), addr + n)
    decreases n
  {
    hide FirstPiece, Width, Left, Pieces, Widest;
    if n == 0 {
      PiecesDone(dev, addr, bufIdx);
    } else {
      FirstWidest(dev, addr, bufIdx, n);
      FirstAt(dev, addr, bufIdx, n);
      var rest := PiecesRest(dev, addr, bufIdx, n);
      var p := FirstPiece(dev, addr, bufIdx, n);
      if p.size < n {
        PiecesWidest(dev, addr + p.size, bufIdx + p.size, n - p.size);
      }
      WidestCons(dev, p, rest, addr + n);
    }
  }

  /** The access sizes' widths in bytes. */
  lemma {:induction false} WidthsAre()
    ensures Width(1) == 1 && Width(2) == 2 && Width(3) == 4 && Width(4) == 8
  {
  }
}
