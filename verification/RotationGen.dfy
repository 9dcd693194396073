// The descriptor generators of edma_core.cpp, writing into a word list.
module RotationGen {
  import opened Words
  import opened Machine
  import opened Descriptor
  import opened RotationSpec
  import opened Rotation

  // The computed words of a tile's descriptor pair.
  datatype Pair = Pair(offset: Word, col: Word, row: Word, xSizes: Word, ySizes: Word, zSizes: Word,
                       receiver: Word, sender: Word,
                       base: Word, line: Word, xSizesOut: Word, ySizesOut: Word)

  function BufferOffset(angle: Angle, c: Word, w: Word, h: Word): Word {
    [0, Wrap(c * (h - 1)), Wrap(c * (w * h - 1)), Wrap(c * h * (w - 1))][angle]
  }

  function BufferXStride(angle: Angle, c: Word, w: Word, h: Word): Word {
    [c, Wrap(c * h), Wrap(Neg(c)), Wrap(Neg(c * h))][angle]
  }

  function BufferYStride(angle: Angle, c: Word, w: Word, h: Word): Word {
    [Wrap(c * w), Wrap(Neg(c)), Wrap(Neg(c * w)), c][angle]
  }

  function PairOf(angle: Angle, buf: Buffer, c: Word, w: Word, h: Word): Pair {
    var dstTileW, dstTileH := [w, h, w, h][angle], [h, w, h, w][angle];
    var offset := BufferOffset(angle, c, w, h);
    var line := Wrap(c * dstTileW);
    Pair(if buf.tcm then Wrap(buf.addr + offset) else offset,
         BufferXStride(angle, c, w, h), BufferYStride(angle, c, w, h),
         Pack(c, Wrap(c * w)), Pack(w, h), Pack(h, 1), Pack(Wrap(c - 1), 1), Pack(Wrap(c - 1), 2),
         if buf.tcm then buf.addr else 0, line, Pack(line, line), Pack(dstTileH, dstTileH))
  }

  // The words of a tile that the machine reads.
  datatype Image = Image(type15: bool, flags: Word, src: Word, offset: Word, sp: Word, col: Word, slabIn: Word, row: Word,
                         xSizes: Word, ySizes: Word, zSizes: Word, swapper: Word, lanes: (Word, Word, Word),
                         type0: bool, flagsOut: Word, base: Word, dst: Word, line: Word, dp: Word,
                         slabs: (Word, Word), xSizesOut: Word, ySizesOut: Word, zSizesOut: Word)

  function Read(ws: seq<Word>): Image
    requires |ws| == 80
  {
    Image(ws[0] % 16 == 15, ws[1], ws[7], ws[8], ws[9], ws[10], ws[11], ws[12], ws[13], ws[14], ws[15], ws[34],
          (ws[36], ws[37], ws[38]),
          ws[64] % 16 == 0, ws[65], ws[71], ws[72], ws[73], ws[74], (ws[75], ws[76]), ws[77], ws[78], ws[79])
  }

  function ImageOf(tcm: bool, p: Pair, src: Word, sp: Word, dst: Word, dp: Word): Image {
    Image(true, if tcm then 0x300 else 0xb00, src, p.offset, sp, p.col, 0, p.row, p.xSizes, p.ySizes, p.zSizes, 0,
          (p.receiver, p.sender, 0x1100_0011),
          true, if tcm then 0x300 else 0x700, p.base, dst, p.line, dp, (0, 0), p.xSizesOut, p.ySizesOut, 0x0001_0001)
  }

  function FieldsIn(tcm: bool, p: Pair, src: Word, sp: Word): Desc {
    Copy(Side(false, src, sp, 0, p.xSizes % 0x1_0000, p.ySizes % 0x1_0000, p.zSizes % 0x1_0000),
         Side(!tcm, p.offset, p.col, p.row, p.xSizes / 0x1_0000, p.ySizes / 0x1_0000, p.zSizes / 0x1_0000), false)
  }

  function FieldsOut(tcm: bool, p: Pair, dst: Word, dp: Word): Desc {
    Copy(Side(!tcm, p.base, p.line, 0, p.xSizesOut % 0x1_0000, p.ySizesOut % 0x1_0000, 1),
         Side(false, dst, dp, 0, p.xSizesOut / 0x1_0000, p.ySizesOut / 0x1_0000, 1), false)
  }

  lemma ImageDecodes(ws: seq<Word>, tcm: bool, p: Pair, src: Word, sp: Word, dst: Word, dp: Word)
    requires |ws| == 80 && Read(ws) == ImageOf(tcm, p, src, sp, dst, dp)
    ensures Reads(ws, [FieldsIn(tcm, p, src, sp), FieldsOut(tcm, p, dst, dp)])
  {
    var t := ws[64..];
    assert |t| == 16 && forall k :: 0 <= k < 16 ==> t[k] == ws[64 + k];
    assert t[16..] == [];
    var second := FieldsOut(tcm, p, dst, dp);
    assert [second][1..] == [];
    assert Decode(t) == second && Reads(t[16..], [second][1..]);
    assert Reads(t, [second]);
    assert [FieldsIn(tcm, p, src, sp), second][1..] == [second];
  }

  // The tables are the signed buffer layout in two's complement.
  lemma BufferWords(angle: Angle, buf: Buffer, c: Word, w: Word, h: Word)
    ensures var g := BufferGrid(angle, buf, c, w, h);
            && Wrap(buf.Base() + BufferOffset(angle, c, w, h)) == Wrap(g.base)
            && BufferXStride(angle, c, w, h) == Wrap(g.col)
            && BufferYStride(angle, c, w, h) == Wrap(g.row)
  {
    var g := BufferGrid(angle, buf, c, w, h);
    WrapSmall(c);
    WrapAdd(buf.Base(), g.base - buf.Base());
  }

  // A tile that fits the buffer fits the 16-bit size fields.
  lemma TileSizes(angle: Angle, c: nat, w: nat, h: nat)
    requires 0 < c && 0 < w && 0 < h && c * (w * h) <= TMP_BYTES
    ensures c < 0x1_0000 && w < 0x1_0000 && h < 0x1_0000
    ensures 0 <= c * w < 0x1_0000 && 0 <= c * OutW(angle, w, h) < 0x1_0000
  {
    RowLe(c, w, h);
    OutRowLe(angle, c, w, h);
    MulLe(1, w * h, c);
    MulLe(1, c, w * h);
    MulLe(1, w, h);
    MulLe(1, h, w);
  }

  // Read back through the 16-bit fields, the words are the tile's two copies.
  lemma PairFieldsIn(angle: Angle, buf: Buffer, src: Word, sp: Word, c: Word, w: Word, h: Word)
    requires c < 0x1_0000 && w < 0x1_0000 && h < 0x1_0000 && 0 <= c * w < 0x1_0000
    ensures FieldsIn(buf.tcm, PairOf(angle, buf, c, w, h), src, sp) == TileIn(angle, buf, src, sp, c, w, h)
  {
    var row := c * w;
    WrapSmall(row);
    BufferWords(angle, buf, c, w, h);
    PackFields(c, row);
    PackFields(w, h);
    PackFields(h, 1);
  }

  lemma SizesOut(tcm: bool, p: Pair, line: Word, H: Word, dst: Word, dp: Word)
    requires line < 0x1_0000 && H < 0x1_0000
    requires p.line == line && p.xSizesOut == Pack(line, line) && p.ySizesOut == Pack(H, H)
    ensures FieldsOut(tcm, p, dst, dp) == Copy(Side(!tcm, p.base, line, 0, line, H, 1), Side(false, dst, dp, 0, line, H, 1), false)
  {
    PackFields(line, line);
    PackFields(H, H);
  }

  lemma PairFieldsOut(angle: Angle, buf: Buffer, dst: Word, dp: Word, c: Word, w: Word, h: Word)
    requires w < 0x1_0000 && h < 0x1_0000 && 0 <= c * OutW(angle, w, h) < 0x1_0000
    ensures FieldsOut(buf.tcm, PairOf(angle, buf, c, w, h), dst, dp)
         == TileOut(buf, dst, dp, c, OutW(angle, w, h), OutH(angle, w, h))
  {
    var W: Word, H: Word := OutW(angle, w, h), OutH(angle, w, h);
    assert [w, h, w, h][angle] == W && [h, w, h, w][angle] == H;
    WrapSmall(c * W);
    WrapSmall(buf.Base());
    SizesOut(buf.tcm, PairOf(angle, buf, c, w, h), c * W, H, dst, dp);
  }

  lemma PairIsTile(ws: seq<Word>, angle: Angle, buf: Buffer, src: Word, sp: Word, dst: Word, dp: Word,
                   c: Word, w: Word, h: Word)
    requires 0 < c && 0 < w && 0 < h && c * (w * h) <= TMP_BYTES
    requires |ws| == 80 && Read(ws) == ImageOf(buf.tcm, PairOf(angle, buf, c, w, h), src, sp, dst, dp)
    ensures Reads(ws, [TileIn(angle, buf, src, sp, c, w, h),
                       TileOut(buf, dst, dp, c, OutW(angle, w, h), OutH(angle, w, h))])
  {
    ImageDecodes(ws, buf.tcm, PairOf(angle, buf, c, w, h), src, sp, dst, dp);
    TileSizes(angle, c, w, h);
    PairFieldsIn(angle, buf, src, sp, c, w, h);
    PairFieldsOut(angle, buf, dst, dp, c, w, h);
  }

  // Clearing the 80 words of a tile.
  method Clear80(desList: array<Word>, at: nat)
    requires at + 80 <= desList.Length
    modifies desList
    ensures forall k :: at <= k < at + 80 ==> desList[k] == 0
    ensures forall k :: 0 <= k < at || at + 80 <= k < desList.Length ==> desList[k] == old(desList[k])
  {
    var i := 0;
    while i < 80
      invariant 0 <= i <= 80
      invariant forall k :: at <= k < at + i ==> desList[k] == 0
      invariant forall k :: 0 <= k < at || at + 80 <= k < desList.Length ==> desList[k] == old(desList[k])
    {
      desList[at + i] := 0;
      i := i + 1;
    }
  }

  // Words 0 to 63: the type 15 descriptor that fills the buffer.
  method StoreIn(iommu: bool, tcm: bool, p: Pair, src: Word, sp: Word, desList: array<Word>, at: nat)
    requires at + 80 <= desList.Length
    modifies desList
    ensures desList[at] == (if iommu then 0xaf else 0x0f) && desList[at + 1] == (if tcm then 0x300 else 0xb00)
    ensures desList[at + 7] == src && desList[at + 8] == p.offset && desList[at + 9] == sp
    ensures desList[at + 10] == p.col && desList[at + 12] == p.row
    ensures desList[at + 13] == p.xSizes && desList[at + 14] == p.ySizes && desList[at + 15] == p.zSizes
    ensures desList[at + 11] == old(desList[at + 11])
    ensures forall k :: 0 <= k < at || at + 16 <= k < desList.Length ==> desList[k] == old(desList[k])
  {
    desList[at], desList[at + 1] := if iommu then 0xaf else 0x0f, if tcm then 0x300 else 0xb00;
    desList[at + 7], desList[at + 8], desList[at + 9] := src, p.offset, sp;
    desList[at + 10], desList[at + 12] := p.col, p.row;
    desList[at + 13], desList[at + 14], desList[at + 15] := p.xSizes, p.ySizes, p.zSizes;
  }

  // Words 36 to 38: one lane, c bytes at a time.
  method StorePipe(p: Pair, desList: array<Word>, at: nat)
    requires at + 80 <= desList.Length
    modifies desList
    ensures desList[at + 36] == p.receiver && desList[at + 37] == p.sender && desList[at + 38] == 0x1100_0011
    ensures forall k :: 0 <= k < at + 36 || at + 39 <= k < desList.Length ==> desList[k] == old(desList[k])
  {
    desList[at + 36], desList[at + 37], desList[at + 38] := p.receiver, p.sender, 0x1100_0011;
  }

  // Words 64 to 79: the type 0 descriptor that empties the buffer.
  method StoreOut(iommu: bool, tcm: bool, p: Pair, dst: Word, dp: Word, desList: array<Word>, at: nat)
    requires at + 80 <= desList.Length && desList[at + 64] == 0
    modifies desList
    ensures desList[at + 64] == (if iommu then 0xa0 else 0) && desList[at + 65] == (if tcm then 0x300 else 0x700)
    ensures desList[at + 71] == p.base && desList[at + 72] == dst && desList[at + 73] == p.line && desList[at + 74] == dp
    ensures desList[at + 77] == p.xSizesOut && desList[at + 78] == p.ySizesOut && desList[at + 79] == 0x0001_0001
    ensures desList[at + 75] == old(desList[at + 75]) && desList[at + 76] == old(desList[at + 76])
    ensures forall k :: 0 <= k < at + 64 || at + 80 <= k < desList.Length ==> desList[k] == old(desList[k])
  {
    if iommu {
      desList[at + 64] := 0xa0;
    }
    desList[at + 65] := if tcm then 0x300 else 0x700;
    desList[at + 71], desList[at + 72], desList[at + 73], desList[at + 74] := p.base, dst, p.line, dp;
    desList[at + 77], desList[at + 78], desList[at + 79] := p.xSizesOut, p.ySizesOut, 0x0001_0001;
  }

  method StoreTile(iommu: bool, tcm: bool, p: Pair, src: Word, sp: Word, dst: Word, dp: Word,
                   desList: array<Word>, at: nat)
    requires at + 80 <= desList.Length
    modifies desList
    ensures forall k :: 0 <= k < at || at + 80 <= k < desList.Length ==> desList[k] == old(desList[k])
    ensures Read(desList[at..at + 80]) == ImageOf(tcm, p, src, sp, dst, dp)
    ensures desList[at] == (if iommu then 0xaf else 0x0f) && desList[at + 64] == (if iommu then 0xa0 else 0)
    ensures desList[at + 36] == p.receiver && desList[at + 37] == p.sender
  {
    Clear80(desList, at);
    StoreIn(iommu, tcm, p, src, sp, desList, at);
    StorePipe(p, desList, at);
    StoreOut(iommu, tcm, p, dst, dp, desList, at);
  }

  // The type and user fields of both descriptors, and the sizes of the pipe.
  predicate Tagged(iommu: bool, c: Word, ws: seq<Word>)
    requires |ws| == 80
  {
    && ws[0] == (if iommu then 0xaf else 0x0f) && ws[64] == (if iommu then 0xa0 else 0)
    && (0 < c <= 0x1_0000 ==> ws[36] == (c - 1) * 0x1_0000 + 1 && ws[37] == (c - 1) * 0x1_0000 + 2)
  }

  lemma PipeSizes(c: Word)
    requires 0 < c <= 0x1_0000
    ensures Pack(Wrap(c - 1), 1) == (c - 1) * 0x1_0000 + 1 && Pack(Wrap(c - 1), 2) == (c - 1) * 0x1_0000 + 2
  {
    WrapSmall(c - 1);
    PackFields(c - 1, 1);
    PackFields(c - 1, 2);
  }

  // gen_tile_rotation: the 80 words at des_list + at become the tile's two descriptors.
  method GenTileRotation(iommu: bool, angle: Angle, buf: Buffer, src: Word, dst: Word, sp: Word, dp: Word,
                         c: Word, w: Word, h: Word, desList: array<Word>, at: nat)
    requires at + 80 <= desList.Length
    modifies desList
    ensures forall k :: 0 <= k < at || at + 80 <= k < desList.Length ==> desList[k] == old(desList[k])
    ensures Read(desList[at..at + 80]) == ImageOf(buf.tcm, PairOf(angle, buf, c, w, h), src, sp, dst, dp)
    ensures Tagged(iommu, c, desList[at..at + 80])
  {
    if 0 < c <= 0x1_0000 {
      PipeSizes(c);
    }
    StoreTile(iommu, buf.tcm, PairOf(angle, buf, c, w, h), src, sp, dst, dp, desList, at);
  }

  lemma TileIndex(xn: nat, yn: nat, i: nat, j: nat)
    requires i < yn && j < xn
    ensures 0 <= xn * i + j < yn * xn && xn * i + j + 1 <= xn * (i + 1) <= yn * xn
    ensures Quot(xn * i + j, xn) == i && Rem(xn * i + j, xn) == j
  {
    DivModUnique(xn, i, j);
    MulLe(i + 1, yn, xn);
  }

  // Sizes of the pieces of a row of n pixels cut every t: all t but the last.
  method PieceSizes(n: Word, t: Word) returns (sizes: array<Word>)
    requires 0 < n && 0 < t
    ensures fresh(sizes) && sizes.Length == Quot(n - 1, t) + 1
    ensures forall k :: 0 <= k < sizes.Length ==> sizes[k] == Piece(n, t, k)
  {
    var count := Quot(n - 1, t) + 1;
    sizes := new Word[count];
    PieceFits(n, t);
    for i := 0 to count
      invariant forall k :: 0 <= k < i ==> sizes[k] == Piece(n, t, k)
    {
      if i == count - 1 {
        sizes[i] := Rem(n - 1, t) + 1;
      } else {
        sizes[i] := t;
      }
    }
  }

  lemma PieceFits(n: Word, t: Word)
    requires 0 < n && 0 < t
    ensures Rem(n - 1, t) + 1 <= n
  {
    Pieces(n, t, 0);
  }

  // The 80 words of tile t.
  function Slot(words: seq<Word>, t: nat): (ws: seq<Word>)
    requires 80 * t + 80 <= |words|
    ensures |ws| == 80
  {
    words[80 * t..80 * t + 80]
  }

  function TileImage(job: Job, i: nat, j: nat): Image
    requires job.Sized() && i < job.YTiles() && j < job.XTiles()
  {
    TileFits(job, i, j);
    ImageOf(job.buf.tcm, PairOf(job.angle, job.buf, job.c, job.Tile(i, j).w, job.Tile(i, j).h),
            TileSrc(job, i, j), Wrap(job.c * job.w), TileDst(job, i, j), Wrap(job.c * job.W()))
  }

  // The image of tile t in row order.
  function ImageAt(job: Job, t: nat): Image
    requires job.Sized() && t < job.Tiles()
  {
    TileNumber(job, t);
    TileImage(job, Quot(t, job.XTiles()), Rem(t, job.XTiles()))
  }

  // The first n slots hold the first n tiles in row order.
  predicate TilesHold(job: Job, words: seq<Word>, n: nat)
    requires job.Sized() && n <= job.Tiles() && 80 * n <= |words|
  {
    forall t: nat :: t < n ==> Read(Slot(words, t)) == ImageAt(job, t)
  }

  lemma TileFits(job: Job, i: nat, j: nat)
    requires job.Sized() && i < job.YTiles() && j < job.XTiles()
    ensures job.Tile(i, j).w < 0x1_0000_0000 && job.Tile(i, j).h < 0x1_0000_0000
  {
    PieceFits(job.w, job.tw);
    PieceFits(job.h, job.th);
  }

  // Entry t of the two address lists.
  function Addresses(job: Job, t: nat): (Word, Word)
    requires job.Sized()
  {
    (TileSrc(job, Quot(t, job.XTiles()), Rem(t, job.XTiles())),
     TileDst(job, Quot(t, job.XTiles()), Rem(t, job.XTiles())))
  }

  // One row of tiles of the two address lists.
  method AddressRow(job: Job, i: nat, srcAddrList: array<Word>, dstAddrList: array<Word>)
    requires job.Sized() && i < job.YTiles() && srcAddrList != dstAddrList
    requires srcAddrList.Length == dstAddrList.Length == job.Tiles()
    modifies srcAddrList, dstAddrList
    ensures 0 <= job.XTiles() * i <= job.XTiles() * (i + 1) <= srcAddrList.Length
    ensures forall t :: 0 <= t < job.XTiles() * i ==>
              srcAddrList[t] == old(srcAddrList[t]) && dstAddrList[t] == old(dstAddrList[t])
    ensures forall t: nat :: job.XTiles() * i <= t < job.XTiles() * (i + 1) ==>
              (srcAddrList[t], dstAddrList[t]) == Addresses(job, t)
  {
    var xTileNum := job.XTiles();
    TileIndex(xTileNum, job.YTiles(), i, 0);
    var first := xTileNum * i;
    for j := 0 to xTileNum
      invariant forall t :: 0 <= t < first ==>
                  srcAddrList[t] == old(srcAddrList[t]) && dstAddrList[t] == old(dstAddrList[t])
      invariant forall t: nat :: first <= t < first + j ==>
                  (srcAddrList[t], dstAddrList[t]) == Addresses(job, t)
    {
      AddressesAt(job, i, j);
      srcAddrList[first + j], dstAddrList[first + j] := TileSrc(job, i, j), TileDst(job, i, j);
    }
  }

  lemma AddressesAt(job: Job, i: nat, j: nat)
    requires job.Sized() && i < job.YTiles() && j < job.XTiles()
    ensures 0 <= job.XTiles() * i + j < job.Tiles()
    ensures job.XTiles() * i + job.XTiles() == job.XTiles() * (i + 1)
    ensures Addresses(job, job.XTiles() * i + j) == (TileSrc(job, i, j), TileDst(job, i, j))
  {
    TileIndex(job.XTiles(), job.YTiles(), i, j);
  }

  // src_addr_list and dst_addr_list.
  method AddressLists(job: Job) returns (srcAddrList: array<Word>, dstAddrList: array<Word>)
    requires job.Sized()
    ensures fresh(srcAddrList) && fresh(dstAddrList)
    ensures srcAddrList.Length == dstAddrList.Length == job.Tiles()
    ensures forall t: nat :: t < srcAddrList.Length ==> (srcAddrList[t], dstAddrList[t]) == Addresses(job, t)
  {
    var yTileNum := job.YTiles();
    srcAddrList, dstAddrList := new Word[job.Tiles()], new Word[job.Tiles()];
    for i := 0 to yTileNum
      invariant 0 <= job.XTiles() * i <= srcAddrList.Length
      invariant forall t: nat :: t < job.XTiles() * i ==> (srcAddrList[t], dstAddrList[t]) == Addresses(job, t)
    {
      AddressRow(job, i, srcAddrList, dstAddrList);
    }
  }

  lemma TileImageIs(job: Job, i: nat, j: nat, src: Word, dst: Word, w: Word, h: Word)
    requires job.Sized() && i < job.YTiles() && j < job.XTiles()
    requires 0 <= job.XTiles() * i + j && (src, dst) == Addresses(job, job.XTiles() * i + j)
    requires w == job.Tile(i, j).w && h == job.Tile(i, j).h
    ensures TileImage(job, i, j) == ImageOf(job.buf.tcm, PairOf(job.angle, job.buf, job.c, w, h),
                                            src, Wrap(job.c * job.w), dst, Wrap(job.c * job.W()))
  {
    TileIndex(job.XTiles(), job.YTiles(), i, j);
  }

  lemma TilesHoldStep(job: Job, before: seq<Word>, words: seq<Word>, i: nat, j: nat)
    requires job.Sized() && i < job.YTiles() && j < job.XTiles()
    requires 0 <= job.XTiles() * i + j < job.Tiles()
    requires |before| == |words| && 80 * job.Tiles() <= |words|
    requires TilesHold(job, before, job.XTiles() * i + j)
    requires words[..80 * (job.XTiles() * i + j)] == before[..80 * (job.XTiles() * i + j)]
    requires Read(Slot(words, job.XTiles() * i + j)) == TileImage(job, i, j)
    ensures job.XTiles() * i + j + 1 <= job.Tiles()
    ensures TilesHold(job, words, job.XTiles() * i + j + 1)
  {
    var n := job.XTiles() * i + j;
    TileIndex(job.XTiles(), job.YTiles(), i, j);
    forall t: nat | t < n + 1
      ensures Read(Slot(words, t)) == ImageAt(job, t)
    {
      if t < n {
        SlotKept(before, words, t, n);
      }
    }
  }

  // The first n slots carry the caller's type, user and pipe fields.
  predicate TagsHold(iommu: bool, c: Word, words: seq<Word>, n: nat)
    requires 80 * n <= |words|
  {
    forall t: nat :: t < n ==> Tagged(iommu, c, Slot(words, t))
  }

  lemma TagsHoldStep(iommu: bool, c: Word, before: seq<Word>, words: seq<Word>, n: nat)
    requires |before| == |words| && 80 * n + 80 <= |words|
    requires TagsHold(iommu, c, before, n) && words[..80 * n] == before[..80 * n]
    requires Tagged(iommu, c, Slot(words, n))
    ensures TagsHold(iommu, c, words, n + 1)
  {
    forall t: nat | t < n + 1
      ensures Tagged(iommu, c, Slot(words, t))
    {
      if t < n {
        SlotKept(before, words, t, n);
      }
    }
  }

  lemma HoldStep(iommu: bool, job: Job, before: seq<Word>, words: seq<Word>, i: nat, j: nat, n: nat)
    requires job.Sized() && i < job.YTiles() && j < job.XTiles() && n == job.XTiles() * i + j < job.Tiles()
    requires |before| == |words| && 80 * job.Tiles() <= |words| && words[..80 * n] == before[..80 * n]
    requires TilesHold(job, before, n) && TagsHold(iommu, job.c, before, n)
    requires Read(Slot(words, n)) == TileImage(job, i, j) && Tagged(iommu, job.c, Slot(words, n))
    ensures TilesHold(job, words, n + 1) && TagsHold(iommu, job.c, words, n + 1)
  {
    TilesHoldStep(job, before, words, i, j);
    TagsHoldStep(iommu, job.c, before, words, n);
  }

  lemma SlotKept(before: seq<Word>, words: seq<Word>, t: nat, n: nat)
    requires t < n && 80 * n <= |before| == |words| && words[..80 * n] == before[..80 * n]
    ensures Slot(words, t) == Slot(before, t)
  {
    assert Slot(words, t) == words[..80 * n][80 * t..80 * t + 80];
    assert Slot(before, t) == before[..80 * n][80 * t..80 * t + 80];
  }

  lemma {:induction false} TilesDecode(job: Job, words: seq<Word>, n: nat)
    requires job.Ok() && n <= job.Tiles() && 80 * n <= |words|
    requires TilesHold(job, words, n)
    ensures Reads(words[..80 * n], Program(job, n))
  {
    if n == 0 {
      assert words[..0] == [];
    } else {
      var m := n - 1;
      var last := Slot(words, m);
      TilesDecode(job, words, m);
      SlotDecode(job, m, last);
      SlotNext(job, words, m, n, last);
    }
  }

  lemma SlotNext(job: Job, words: seq<Word>, m: nat, n: nat, last: seq<Word>)
    requires job.Ok() && n == m + 1 <= job.Tiles() && 80 * n <= |words| && last == Slot(words, m)
    requires Reads(words[..80 * m], Program(job, m)) && Reads(last, PairAt(job, m))
    ensures Reads(words[..80 * n], Program(job, n))
  {
    SlotAppend(words, m, n, last, Program(job, m), PairAt(job, m));
  }

  lemma SlotAppend(words: seq<Word>, m: nat, n: nat, last: seq<Word>, p: seq<Desc>, q: seq<Desc>)
    requires n == m + 1 && 80 * n <= |words| && last == Slot(words, m)
    requires Reads(words[..80 * m], p) && Reads(last, q)
    ensures Reads(words[..80 * n], p + q)
  {
    assert words[..80 * n] == words[..80 * m] + last;
    ReadsConcat(words[..80 * m], p, last, q);
  }

  lemma SlotDecode(job: Job, t: nat, ws: seq<Word>)
    requires job.Ok() && t < job.Tiles() && |ws| == 80 && Read(ws) == ImageAt(job, t)
    ensures Reads(ws, PairAt(job, t))
  {
    TileNumber(job, t);
    var i, j := Quot(t, job.XTiles()), Rem(t, job.XTiles());
    TileInside(job, i, j);
    TileFits(job, i, j);
    PairIsTile(ws, job.angle, job.buf, TileSrc(job, i, j), Wrap(job.c * job.w), TileDst(job, i, j),
               Wrap(job.c * job.W()), job.c, job.Tile(i, j).w, job.Tile(i, j).h);
  }

  // Tile j of row i.
  method GenTile(iommu: bool, job: Job, i: nat, j: nat, src: Word, dst: Word, w: Word, h: Word, desList: array<Word>, n: nat)
    requires job.Sized() && i < job.YTiles() && j < job.XTiles() && n == job.XTiles() * i + j < job.Tiles()
    requires 80 * job.Tiles() <= desList.Length
    requires (src, dst) == Addresses(job, n) && w == Piece(job.w, job.tw, j) && h == Piece(job.h, job.th, i)
    requires TilesHold(job, desList[..], n) && TagsHold(iommu, job.c, desList[..], n)
    modifies desList
    ensures n + 1 <= job.Tiles() && TilesHold(job, desList[..], n + 1) && TagsHold(iommu, job.c, desList[..], n + 1)
    ensures forall k :: 80 * job.Tiles() <= k < desList.Length ==> desList[k] == old(desList[k])
  {
    ghost var before := desList[..];
    GenTileRotation(iommu, job.angle, job.buf, src, dst, Wrap(job.c * job.w), Wrap(job.c * job.W()), job.c, w, h,
                    desList, 80 * n);
    TileImageIs(job, i, j, src, dst, w, h);
    assert Slot(desList[..], n) == desList[80 * n..80 * n + 80];
    assert desList[..80 * n] == before[..80 * n];
    HoldStep(iommu, job, before, desList[..], i, j, n);
  }

  // One row of tiles.
  method GenTileRow(iommu: bool, job: Job, i: nat, srcAddrList: array<Word>, dstAddrList: array<Word>,
                    srcWList: array<Word>, tileH: Word, desList: array<Word>)
    requires job.Sized() && i < job.YTiles() && 80 * job.Tiles() <= desList.Length
    requires desList != srcAddrList && desList != dstAddrList && desList != srcWList
    requires srcAddrList.Length == dstAddrList.Length == job.Tiles() && srcWList.Length == job.XTiles()
    requires forall t: nat :: t < srcAddrList.Length ==> (srcAddrList[t], dstAddrList[t]) == Addresses(job, t)
    requires forall j :: 0 <= j < srcWList.Length ==> srcWList[j] == Piece(job.w, job.tw, j)
    requires tileH == Piece(job.h, job.th, i)
    requires 0 <= job.XTiles() * i <= job.Tiles() && TilesHold(job, desList[..], job.XTiles() * i)
    requires TagsHold(iommu, job.c, desList[..], job.XTiles() * i)
    modifies desList
    ensures 0 <= job.XTiles() * (i + 1) <= job.Tiles()
    ensures TilesHold(job, desList[..], job.XTiles() * (i + 1)) && TagsHold(iommu, job.c, desList[..], job.XTiles() * (i + 1))
    ensures forall k :: 80 * job.Tiles() <= k < desList.Length ==> desList[k] == old(desList[k])
  {
    var xTileNum := job.XTiles();
    ghost var n := job.Tiles();
    TileIndex(xTileNum, job.YTiles(), i, 0);
    for j := 0 to xTileNum
      modifies desList
      invariant xTileNum * i + j <= n
      invariant TilesHold(job, desList[..], xTileNum * i + j) && TagsHold(iommu, job.c, desList[..], xTileNum * i + j)
      invariant forall k :: 80 * n <= k < desList.Length ==> desList[k] == old(desList[k])
    {
      TileIndex(xTileNum, job.YTiles(), i, j);
      var desIndex := xTileNum * i + j;
      GenTile(iommu, job, i, j, srcAddrList[desIndex], dstAddrList[desIndex], srcWList[j], tileH, desList, desIndex);
    }
  }

  // The loops that emit tile after tile.
  method GenTiles(iommu: bool, job: Job, desList: array<Word>)
    requires job.Sized() && 80 * job.Tiles() <= desList.Length
    modifies desList
    ensures forall k :: 80 * job.Tiles() <= k < desList.Length ==> desList[k] == old(desList[k])
    ensures TilesHold(job, desList[..], job.Tiles()) && TagsHold(iommu, job.c, desList[..], job.Tiles())
  {
    var xTileNum, yTileNum := job.XTiles(), job.YTiles();
    var srcAddrList, dstAddrList := AddressLists(job);
    var srcWList := PieceSizes(job.w, job.tw);
    var srcHList := PieceSizes(job.h, job.th);
    assert TilesHold(job, desList[..], 0) && TagsHold(iommu, job.c, desList[..], 0);
    for i := 0 to yTileNum
      modifies desList
      invariant 0 <= xTileNum * i <= job.Tiles()
      invariant TilesHold(job, desList[..], xTileNum * i) && TagsHold(iommu, job.c, desList[..], xTileNum * i)
      invariant forall k :: 80 * job.Tiles() <= k < desList.Length ==> desList[k] == old(desList[k])
    {
      GenTileRow(iommu, job, i, srcAddrList, dstAddrList, srcWList, srcHList[i], desList);
    }
    assert xTileNum * yTileNum == job.Tiles();
  }

  // Whatever memory holds, running p rotates the image.
  ghost predicate Rotates(job: Job, p: seq<Desc>) {
    forall s: Store :: Rotated(job, s, ExecAll(p, s))
  }

  lemma RotationRotates(job: Job)
    requires job.Ok()
    ensures Rotates(job, Program(job, job.Tiles()))
  {
    forall s: Store
      ensures Rotated(job, s, ExecAll(Program(job, job.Tiles()), s))
    {
      RotationCorrect(job, s);
    }
  }

  lemma FirstWord(iommu: bool, job: Job, words: seq<Word>)
    requires job.Sized() && 80 * job.Tiles() <= |words| && TagsHold(iommu, job.c, words, job.Tiles())
    ensures 0 < job.Tiles() && words[0] == if iommu then 0xaf else 0x0f
  {
    TileIndex(job.XTiles(), job.YTiles(), 0, 0);
    assert Tagged(iommu, job.c, Slot(words, 0));
    assert Slot(words, 0)[0] == words[0];
  }

  // edma_gen_rotation: the words after the call are the tiles' descriptors and
  // nothing else, running them rotates the image whatever memory holds, and the
  // list past them is not written.
  method EdmaGenRotation(iommu: bool, job: Job, desList: array<Word>)
    requires job.Sized() && 80 * job.Tiles() <= desList.Length
    modifies desList
    ensures forall k :: 80 * job.Tiles() <= k < desList.Length ==> desList[k] == old(desList[k])
    ensures job.Ok() ==>
              var p := DecodeAll(desList[..80 * job.Tiles()]);
              && Reads(desList[..80 * job.Tiles()], p)
              && |p| == 2 * job.Tiles() && Rotates(job, p)
    ensures desList[0] == (if iommu then 0xaf else 0x0f) && TagsHold(iommu, job.c, desList[..], job.Tiles())
  {
    GenTiles(iommu, job, desList);
    FirstWord(iommu, job, desList[..]);
    if job.Ok() {
      var n := job.Tiles();
      TilesDecode(job, desList[..], n);
      assert desList[..][..80 * n] == desList[..80 * n];
      ReadsDecodes(desList[..80 * n], Program(job, n));
      RotationRotates(job);
    }
  }
}
