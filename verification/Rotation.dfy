// The whole image: the tile grid with its ragged last row and column, the
// addresses the generator computes for each tile, and the main theorem.
module Rotation {
  import opened Words
  import opened Machine
  import opened RotationSpec

  // Size of piece k when n pixels are cut every t: all t but the last.
  function Piece(n: nat, t: nat, k: nat): nat
    requires 0 < n && 0 < t
  {
    if k == Quot(n - 1, t) then Rem(n - 1, t) + 1 else t
  }

  datatype Job = Job(angle: Angle, buf: Buffer, tw: Word, th: Word, src: Word, dst: Word, c: Word, w: Word, h: Word) {

    function XTiles(): nat
      requires Sized()
    {
      Quot(w - 1, tw) + 1
    }

    function YTiles(): nat
      requires Sized()
    {
      Quot(h - 1, th) + 1
    }

    function Bytes(): nat {
      c * (w * h)
    }

    function Tiles(): nat
      requires Sized()
    {
      YTiles() * XTiles()
    }

    // Bytes of the largest tile: what the buffer must hold.
    function TileBytes(): nat {
      c * ((if tw < w then tw else w) * (if th < h then th else h))
    }

    predicate Disjoint(a: int, m: int, b: int, n: int) {
      a + m <= b || b + n <= a
    }

    predicate Sized() {
      0 < tw && 0 < th && 0 < c && 0 < w && 0 < h
    }

    // What the hardware and the caller must respect: non-empty sizes, tiles that
    // fit the 16 KiB buffer, images inside 32-bit memory that do not overlap
    // each other or a buffer placed in memory.
    predicate Ok() {
      && Sized()
      && TileBytes() <= TMP_BYTES
      && src + Bytes() <= MEMORY && dst + Bytes() <= MEMORY
      && Disjoint(src, Bytes(), dst, Bytes())
      && (buf.tcm ==>
            && buf.addr + TileBytes() <= MEMORY
            && Disjoint(buf.addr, TileBytes(), src, Bytes())
            && Disjoint(buf.addr, TileBytes(), dst, Bytes()))
    }

    function W(): nat {
      OutW(angle, w, h)
    }

    function H(): nat {
      OutH(angle, w, h)
    }

    function SrcCell(y: nat, x: nat, b: nat): nat {
      src + Lin(w, c, y, x, b)
    }

    // Where byte b of source pixel (y, x) belongs in the destination image.
    function DstCell(y: nat, x: nat, b: nat): nat
      requires y < h && x < w
    {
      dst + Lin(W(), c, RotY(angle, w, h, y, x), RotX(angle, w, h, y, x), b)
    }

    // Source rectangle of tile (i, j).
    function Tile(i: nat, j: nat): (r: Rect)
      requires Sized() && i < YTiles() && j < XTiles()
    {
      Rect(i * th, j * tw,
           Piece(h, th, i), Piece(w, tw, j))
    }
  }

  // A row of n pixels cut into pieces of t: piece k starts at k * t and the
  // pieces end exactly at n.
  lemma Pieces(n: nat, t: nat, k: nat)
    requires 0 < t && 0 < n && k <= Quot(n - 1, t)
    ensures Quot(n - 1, t) * t + (Rem(n - 1, t) + 1) == n
    ensures k < Quot(n - 1, t) ==> (k + 1) * t < n
    ensures 0 <= k * t && k * t + Piece(n, t, k) <= n
    ensures Rem(n - 1, t) + 1 <= n && 0 < Piece(n, t, k) <= t
  {
    QuotRem(n - 1, t);
    MulLe(k, Quot(n - 1, t), t);
    if k < Quot(n - 1, t) {
      MulLe(k + 1, Quot(n - 1, t), t);
    }
    MulLe(0, Quot(n - 1, t), t);
  }

  // Position p lies in piece p / t and in no other.
  lemma PieceOf(n: nat, t: nat, k: nat, p: nat)
    requires 0 < t && p < n && k <= Quot(n - 1, t)
    ensures Quot(p, t) <= Quot(n - 1, t)
    ensures (k == Quot(p, t)) <==> k * t <= p < k * t + Piece(n, t, k)
  {
    var q, last := Quot(p, t), Quot(n - 1, t);
    QuotRem(p, t);
    QuotRem(n - 1, t);
    if last < q {
      MulLe(last + 1, q, t);
    }
    if k < q {
      MulLe(k + 1, q, t);
    } else if q < k {
      MulLe(q + 1, k, t);
    }
  }

  lemma TileInside(job: Job, i: nat, j: nat)
    requires job.Sized() && i < job.YTiles() && j < job.XTiles()
    ensures job.Tile(i, j).Inside(job.w, job.h)
    ensures job.c * (job.Tile(i, j).w * job.Tile(i, j).h) <= job.TileBytes()
  {
    Pieces(job.h, job.th, i);
    Pieces(job.w, job.tw, j);
    QuotRem(job.h - 1, job.th);
    QuotRem(job.w - 1, job.tw);
    AreaLe(Piece(job.w, job.tw, j), Piece(job.h, job.th, i),
           if job.tw < job.w then job.tw else job.w, if job.th < job.h then job.th else job.h, job.c);
  }

  // The tiles partition the source image.
  lemma TilePartition(job: Job, i: nat, j: nat, y: nat, x: nat)
    requires job.Sized() && i < job.YTiles() && j < job.XTiles() && y < job.h && x < job.w
    ensures Quot(y, job.th) < job.YTiles() && Quot(x, job.tw) < job.XTiles()
    ensures job.Tile(i, j).Has(y, x) <==> i == Quot(y, job.th) && j == Quot(x, job.tw)
  {
    PieceOf(job.h, job.th, i, y);
    PieceOf(job.w, job.tw, j, x);
  }

  // ----- tile addresses -----

  function Flag(p: bool): nat {
    if p then 1 else 0
  }

  // src_addr_list
  function TileSrc(job: Job, i: nat, j: nat): Word {
    Wrap(job.src + job.c * job.tw * j + job.c * job.w * job.th * i)
  }

  // dst_addr_list, relative to dst_addr: rows and columns that are counted from
  // the far edge (m tiles from the right, k from the bottom) are pulled back by
  // the part the ragged last tile, wl by hl, is missing.
  function TileOffset(angle: Angle, c: int, w: int, h: int, tw: int, th: int, wl: int, hl: int,
                      i: int, j: int, k: int, m: int): int
  {
    if angle == 0 then
      c * tw * j + c * w * th * i
    else if angle == 1 then
      c * h * tw * j + c * th * k - c * (th - hl) * Flag(k != 0)
    else if angle == 2 then
      c * tw * m + c * w * th * k - c * (tw - wl) * Flag(m != 0) - c * w * (th - hl) * Flag(k != 0)
    else
      c * h * tw * m + c * th * i - c * h * (tw - wl) * Flag(m != 0)
  }

  function TileDst(job: Job, i: nat, j: nat): Word
    requires job.Sized()
  {
    Wrap(job.dst + TileOffset(job.angle, job.c, job.w, job.h, job.tw, job.th,
                              Rem(job.w - 1, job.tw) + 1, Rem(job.h - 1, job.th) + 1,
                              i, j, job.YTiles() - 1 - i, job.XTiles() - 1 - j))
  }

  // The offset is that of the tile's rotated origin.
  lemma OffsetIsOrigin(angle: Angle, c: nat, w: nat, h: nat, tw: nat, th: nat, wl: int, hl: int,
                       i: nat, j: nat, k: int, m: int, r: Rect)
    requires r.Inside(w, h) && r.y0 == i * th && r.x0 == j * tw
    requires th * k - (th - hl) * Flag(k != 0) == h - r.y0 - r.h
    requires tw * m - (tw - wl) * Flag(m != 0) == w - r.x0 - r.w
    ensures var q := RotRect(angle, w, h, r);
            TileOffset(angle, c, w, h, tw, th, wl, hl, i, j, k, m) == Lin(OutW(angle, w, h), c, q.y0, q.x0, 0)
  {
    if angle == 0 {
      Linear0(c, w, tw, th, i, j);
    } else if angle == 1 {
      Linear1(c, h, tw, j, th, k, th - hl, Flag(k != 0));
    } else if angle == 2 {
      Linear2(c, w, tw, m, th, k, tw - wl, Flag(m != 0), th - hl, Flag(k != 0));
    } else {
      Linear3(c, h, tw, m, th, i, tw - wl, Flag(m != 0));
    }
  }

  // Distance of piece k from the far edge of n pixels.
  lemma Mirror(n: nat, t: nat, k: nat)
    requires 0 < t && 0 < n && k <= Quot(n - 1, t)
    ensures var last, m := Rem(n - 1, t) + 1, Quot(n - 1, t) - k;
            t * m - (t - last) * Flag(m != 0) == n - k * t - (if k == Quot(n - 1, t) then last else t)
  {
    Pieces(n, t, k);
    var q := Quot(n - 1, t);
    assert t * (q - k) == q * t - k * t;
  }

  // The address of pixel (y0 + y, x0 + x) from that of (y0, x0).
  lemma Shift(W: nat, c: nat, y0: nat, x0: nat, y: nat, x: nat, b: nat)
    ensures Lin(W, c, y0, x0, 0) + y * (c * W) + x * c + b == Lin(W, c, y0 + y, x0 + x, b)
  {
    assert ((y0 + y) * W + (x0 + x)) * c == (y0 * W + x0) * c + (y * W) * c + x * c by {
      assert (y0 + y) * W == y0 * W + y * W;
    }
    assert (y * W) * c == y * (c * W);
  }

  // A rectangle of an image stays inside the image's bytes.
  lemma SubImage(W: nat, H: nat, c: nat, r: Rect)
    requires r.Inside(W, H) && 0 < c
    ensures Lin(W, c, r.y0, r.x0, 0) + (r.h - 1) * (c * W) + c * r.w <= c * (W * H)
  {
    Shift(W, c, r.y0, r.x0, r.h - 1, r.w - 1, c - 1);
    LinBound(W, H, c, r.y0 + r.h - 1, r.x0 + r.w - 1, c - 1);
    assert (r.w - 1) * c + c == c * r.w;
  }

  lemma Linear0(c: int, W: int, t: int, u: int, i: int, j: int)
    ensures c * t * j + c * W * u * i == (i * u * W + j * t) * c
  {
    assert c * t * j == (j * t) * c;
    assert c * W * u * i == (i * u * W) * c;
  }

  lemma Linear1(c: int, W: int, t: int, j: int, u: int, m: int, v: int, f: int)
    ensures c * W * t * j + c * u * m - c * v * f == (j * t * W + (u * m - v * f)) * c
  {
    assert c * W * t * j == (j * t * W) * c;
    assert c * u * m == (u * m) * c;
    assert c * v * f == (v * f) * c;
  }

  lemma Linear2(c: int, W: int, t: int, m: int, u: int, k: int, v: int, f: int, z: int, g: int)
    ensures c * t * m + c * W * u * k - c * v * f - c * W * z * g
         == ((u * k - z * g) * W + (t * m - v * f)) * c
  {
    assert c * t * m == (t * m) * c;
    assert c * v * f == (v * f) * c;
    assert c * W * u * k == ((u * k) * W) * c;
    assert c * W * z * g == ((z * g) * W) * c;
    assert (u * k - z * g) * W == (u * k) * W - (z * g) * W;
  }

  lemma Linear3(c: int, W: int, t: int, m: int, u: int, i: int, v: int, f: int)
    ensures c * W * t * m + c * u * i - c * W * v * f == ((t * m - v * f) * W + u * i) * c
  {
    assert c * W * t * m == ((t * m) * W) * c;
    assert c * u * i == (u * i) * c;
    assert c * W * v * f == ((v * f) * W) * c;
    assert (t * m - v * f) * W == (t * m) * W - (v * f) * W;
  }

  lemma TileSrcAddr(job: Job, i: nat, j: nat)
    requires job.Ok() && i < job.YTiles() && j < job.XTiles()
    ensures TileSrc(job, i, j) == job.src + Lin(job.w, job.c, job.Tile(i, j).y0, job.Tile(i, j).x0, 0)
  {
    TileInside(job, i, j);
    var r := job.Tile(i, j);
    LinBound(job.w, job.h, job.c, r.y0, r.x0, 0);
    Linear0(job.c, job.w, job.tw, job.th, i, j);
  }

  lemma OutArea(job: Job, Y: nat, X: nat, b: nat)
    requires Y < job.H() && X < job.W() && b < job.c
    ensures job.W() * job.H() == job.w * job.h
    ensures Lin(job.W(), job.c, Y, X, b) < job.Bytes()
  {
    assert job.W() * job.H() == job.w * job.h;
    LinBound(job.W(), job.H(), job.c, Y, X, b);
  }

  // The generator's corrections put each tile exactly on its rotated rectangle.
  lemma TileDstAddr(job: Job, i: nat, j: nat)
    requires job.Ok() && i < job.YTiles() && j < job.XTiles()
    ensures job.Tile(i, j).Inside(job.w, job.h)
    ensures var q := RotRect(job.angle, job.w, job.h, job.Tile(i, j));
            TileDst(job, i, j) == job.dst + Lin(job.W(), job.c, q.y0, q.x0, 0)
  {
    TileInside(job, i, j);
    var r := job.Tile(i, j);
    var q := RotRect(job.angle, job.w, job.h, r);
    RotRectHas(job.angle, job.w, job.h, r, r.y0, r.x0);
    OutArea(job, q.y0, q.x0, 0);
    var ofs := Lin(job.W(), job.c, q.y0, q.x0, 0);
    TileOrigin(job, i, j, r, q, ofs);
    WrapSmall(job.dst + ofs);
  }

  lemma TileOrigin(job: Job, i: nat, j: nat, r: Rect, q: Rect, ofs: nat)
    requires job.Sized() && i < job.YTiles() && j < job.XTiles() && r == job.Tile(i, j) && r.Inside(job.w, job.h)
    requires q == RotRect(job.angle, job.w, job.h, r) && ofs == Lin(job.W(), job.c, q.y0, q.x0, 0)
    ensures TileDst(job, i, j) == Wrap(job.dst + ofs)
  {
    Mirror(job.h, job.th, i);
    Mirror(job.w, job.tw, j);
    OffsetIsOrigin(job.angle, job.c, job.w, job.h, job.tw, job.th,
                   Rem(job.w - 1, job.tw) + 1, Rem(job.h - 1, job.th) + 1,
                   i, j, job.YTiles() - 1 - i, job.XTiles() - 1 - j, r);
  }

  // ----- running the tiles -----

  // The descriptor pair of tile (i, j).
  function TilePair(job: Job, i: nat, j: nat): seq<Desc>
    requires job.Ok() && i < job.YTiles() && j < job.XTiles()
  {
    var r := job.Tile(i, j);
    [TileIn(job.angle, job.buf, TileSrc(job, i, j), Wrap(job.c * job.w), job.c, r.w, r.h),
     TileOut(job.buf, TileDst(job, i, j), Wrap(job.c * job.W()), job.c,
             OutW(job.angle, r.w, r.h), OutH(job.angle, r.w, r.h))]
  }

  // The pair of tile t in row order.
  function PairAt(job: Job, t: nat): (p: seq<Desc>)
    requires job.Ok() && t < job.Tiles()
    ensures |p| == 2
  {
    TileNumber(job, t);
    TilePair(job, Quot(t, job.XTiles()), Rem(t, job.XTiles()))
  }

  // Row-order program of the first n tiles.
  function Program(job: Job, n: nat): (p: seq<Desc>)
    requires job.Ok() && n <= job.Tiles()
    ensures |p| == 2 * n
  {
    if n == 0 then [] else Program(job, n - 1) + PairAt(job, n - 1)
  }

  lemma TileNumber(job: Job, t: nat)
    requires job.Sized() && t < job.Tiles()
    ensures Quot(t, job.XTiles()) < job.YTiles()
  {
    QuotRem(t, job.XTiles());
    if job.YTiles() <= Quot(t, job.XTiles()) {
      MulLe(job.YTiles(), Quot(t, job.XTiles()), job.XTiles());
    }
  }

  predicate Scratch(job: Job, a: int)
  {
    job.buf.Covers(a, job.TileBytes())
  }

  predicate InDst(job: Job, a: int) {
    job.dst <= a < job.dst + job.Bytes()
  }

  lemma SrcBound(job: Job, y: nat, x: nat, b: nat)
    requires job.Ok() && y < job.h && x < job.w && b < job.c
    ensures job.src <= job.SrcCell(y, x, b) < job.src + job.Bytes() <= MEMORY
  {
    LinBound(job.w, job.h, job.c, y, x, b);
  }

  lemma DstBound(job: Job, y: nat, x: nat, b: nat)
    requires job.Ok() && y < job.h && x < job.w && b < job.c
    ensures InDst(job, job.DstCell(y, x, b)) && job.DstCell(y, x, b) < MEMORY
  {
    OutArea(job, RotY(job.angle, job.w, job.h, y, x), RotX(job.angle, job.w, job.h, y, x), b);
  }

  // The grids of one tile, seen as parts of the two images.
  lemma TileSrcGrid(job: Job, i: nat, j: nat)
    requires job.Ok() && i < job.YTiles() && j < job.XTiles()
    ensures var r := job.Tile(i, j);
            && RowsFit(TileSrc(job, i, j), job.c * job.w, r.h, r.w, job.c)
            && job.src <= TileSrc(job, i, j)
            && TileSrc(job, i, j) + (r.h - 1) * (job.c * job.w) + job.c * r.w <= job.src + job.Bytes()
  {
    TileInside(job, i, j);
    TileSrcAddr(job, i, j);
    SubImage(job.w, job.h, job.c, job.Tile(i, j));
    MulLe(job.Tile(i, j).w, job.w, job.c);
  }

  lemma TileDstGrid(job: Job, i: nat, j: nat)
    requires job.Ok() && i < job.YTiles() && j < job.XTiles()
    ensures job.Tile(i, j).Inside(job.w, job.h)
    ensures var q := RotRect(job.angle, job.w, job.h, job.Tile(i, j));
            && RowsFit(TileDst(job, i, j), job.c * job.W(), q.h, q.w, job.c)
            && job.dst <= TileDst(job, i, j)
            && TileDst(job, i, j) + (q.h - 1) * (job.c * job.W()) + job.c * q.w <= job.dst + job.Bytes()
  {
    TileDstAddr(job, i, j);
    var r := job.Tile(i, j);
    var q := RotRect(job.angle, job.w, job.h, r);
    RotRectHas(job.angle, job.w, job.h, r, r.y0, r.x0);
    SubImage(job.W(), job.H(), job.c, q);
    OutArea(job, q.y0, q.x0, 0);
    MulLe(q.w, job.W(), job.c);
  }

  // A cell the tile writes belongs to a pixel of the tile.
  lemma TileWrites(job: Job, r: Rect, dst: Word, y: nat, x: nat, b: nat)
    requires r.Inside(job.w, job.h) && y < job.h && x < job.w && b < job.c
    requires var q := RotRect(job.angle, job.w, job.h, r);
             && dst == job.dst + Lin(job.W(), job.c, q.y0, q.x0, 0)
             && Writes(Grid(0, dst, job.c * job.W(), job.c), q.h, q.w, job.c, job.DstCell(y, x, b))
    ensures r.Has(y, x)
  {
    var q := RotRect(job.angle, job.w, job.h, r);
    var g := Grid(0, dst, job.c * job.W(), job.c);
    var y': nat, x': nat, b': nat :| y' < q.h && x' < q.w && b' < job.c && g.At(y', x', b') == job.DstCell(y, x, b);
    Shift(job.W(), job.c, q.y0, q.x0, y', x', b');
    RotRectHas(job.angle, job.w, job.h, r, y, x);
    LinInjective(job.W(), job.c, q.y0 + y', q.x0 + x', b',
                 RotY(job.angle, job.w, job.h, y, x), RotX(job.angle, job.w, job.h, y, x), b);
  }

  lemma TilePixel(job: Job, i: nat, j: nat, y: nat, x: nat, b: nat)
    requires job.Ok() && i < job.YTiles() && j < job.XTiles() && b < job.c
    requires y < job.h && x < job.w && job.Tile(i, j).Has(y, x)
    ensures var r := job.Tile(i, j); var yl, xl := y - r.y0, x - r.x0;
            && Grid(0, TileSrc(job, i, j), job.c * job.w, job.c).At(yl, xl, b) == job.SrcCell(y, x, b)
            && Grid(0, TileDst(job, i, j), job.c * job.W(), job.c)
                 .At(RotY(job.angle, r.w, r.h, yl, xl), RotX(job.angle, r.w, r.h, yl, xl), b) == job.DstCell(y, x, b)
  {
    TileSrcAddr(job, i, j);
    TileDstAddr(job, i, j);
    var r := job.Tile(i, j);
    var q := RotRect(job.angle, job.w, job.h, r);
    var yl, xl := y - r.y0, x - r.x0;
    Shift(job.w, job.c, r.y0, r.x0, yl, xl, b);
    Shift(job.W(), job.c, q.y0, q.x0,
          RotY(job.angle, r.w, r.h, yl, xl), RotX(job.angle, r.w, r.h, yl, xl), b);
  }

  lemma TileStep(job: Job, i: nat, j: nat, s: Store) returns (t: Store)
    requires job.Ok() && i < job.YTiles() && j < job.XTiles()
    ensures t == ExecAll(TilePair(job, i, j), s)
    ensures forall y: nat, x: nat, b: nat :: y < job.h && x < job.w && b < job.c ==>
              Get(t, job.DstCell(y, x, b)) ==
              Get(s, if job.Tile(i, j).Has(y, x) then job.SrcCell(y, x, b) else job.DstCell(y, x, b))
    ensures forall a :: 0 <= a < CELLS && !Scratch(job, a) && !InDst(job, a) ==> t[a] == s[a]
  {
    TileSrcGrid(job, i, j);
    TileDstGrid(job, i, j);
    TileInside(job, i, j);
    var r := job.Tile(i, j);
    var q := RotRect(job.angle, job.w, job.h, r);
    var sp, dp := job.c * job.w, job.c * job.W();
    Pitches(job);
    t := TileEffect(job.angle, job.buf, TileSrc(job, i, j), sp, TileDst(job, i, j), dp, job.c, r.w, r.h, s);
    var g := Grid(0, TileDst(job, i, j), dp, job.c);
    forall y: nat, x: nat, b: nat | y < job.h && x < job.w && b < job.c
      ensures Get(t, job.DstCell(y, x, b)) ==
              Get(s, if job.Tile(i, j).Has(y, x) then job.SrcCell(y, x, b) else job.DstCell(y, x, b))
    {
      DstBound(job, y, x, b);
      if r.Has(y, x) {
        TilePixel(job, i, j, y, x, b);
      } else if Writes(g, q.h, q.w, job.c, job.DstCell(y, x, b)) {
        TileDstAddr(job, i, j);
        TileWrites(job, r, TileDst(job, i, j), y, x, b);
      }
    }
    forall a | 0 <= a < CELLS && !Scratch(job, a) && !InDst(job, a)
      ensures t[a] == s[a]
    {
      if Writes(g, q.h, q.w, job.c, a) {
        RowsWithin(g, q.h, q.w, job.c);
      }
    }
  }

  lemma Pitches(job: Job)
    requires job.Ok()
    ensures Wrap(job.c * job.w) == job.c * job.w && Wrap(job.c * job.W()) == job.c * job.W()
  {
    BytesSmall(job);
    RowFits(job.c * job.w, job.Bytes()) by { RowLe(job.c, job.w, job.h); }
    RowFits(job.c * job.W(), job.Bytes()) by { OutRowLe(job.angle, job.c, job.w, job.h); }
  }

  lemma RowFits(row: int, bytes: int)
    requires 0 <= row <= bytes < MEMORY
    ensures Wrap(row) == row
  {
  }

  lemma OutRowLe(angle: Angle, c: nat, w: nat, h: nat)
    requires 0 < w && 0 < h
    ensures 0 <= c * OutW(angle, w, h) <= c * (w * h)
  {
    AreaLe(1, h, w, h, c);
    AreaLe(w, 1, w, h, c);
  }

  lemma BytesSmall(job: Job)
    requires job.Ok()
    ensures 0 < job.Bytes() < MEMORY
  {
    LinBound(job.w, job.h, job.c, 0, 0, 0);
  }

  // Tile number of a source pixel, in the order the generator emits tiles.
  function TileOf(job: Job, y: nat, x: nat): nat
    requires job.Sized()
  {
    Lin(job.XTiles(), 1, Quot(y, job.th), Quot(x, job.tw), 0)
  }

  lemma TileOfIs(job: Job, t: nat, y: nat, x: nat)
    requires job.Sized() && t < job.Tiles() && y < job.h && x < job.w
    ensures Quot(t, job.XTiles()) < job.YTiles()
    ensures job.Tile(Quot(t, job.XTiles()), Rem(t, job.XTiles())).Has(y, x) <==> TileOf(job, y, x) == t
  {
    TileNumber(job, t);
    TilePartition(job, Quot(t, job.XTiles()), Rem(t, job.XTiles()), y, x);
    QuotRem(t, job.XTiles());
    if TileOf(job, y, x) == t {
      LinInjective(job.XTiles(), 1, Quot(y, job.th), Quot(x, job.tw), 0, Quot(t, job.XTiles()), Rem(t, job.XTiles()), 0);
    }
  }

  ghost predicate Framed(job: Job, s: Store, t: Store) {
    forall a :: 0 <= a < CELLS && !Scratch(job, a) && !InDst(job, a) ==> t[a] == s[a]
  }

  lemma SrcKept(job: Job, s: Store, t: Store, y: nat, x: nat, b: nat)
    requires job.Ok() && Framed(job, s, t) && y < job.h && x < job.w && b < job.c
    ensures Get(t, job.SrcCell(y, x, b)) == Get(s, job.SrcCell(y, x, b))
  {
    SrcBound(job, y, x, b);
  }

  ghost predicate DoneUpTo(job: Job, s: Store, t: Store, n: nat)
    requires job.Sized()
  {
    forall y: nat, x: nat, b: nat :: y < job.h && x < job.w && b < job.c && TileOf(job, y, x) < n ==>
      Get(t, job.DstCell(y, x, b)) == Get(s, job.SrcCell(y, x, b))
  }

  lemma {:induction false} ProgramPrefix(job: Job, n: nat, s: Store) returns (t: Store)
    requires job.Ok() && n <= job.Tiles()
    ensures t == ExecAll(Program(job, n), s)
    ensures DoneUpTo(job, s, t, n) && Framed(job, s, t)
  {
    if n == 0 {
      t := s;
    } else {
      var i, j := Quot(n - 1, job.XTiles()), Rem(n - 1, job.XTiles());
      TileNumber(job, n - 1);
      var u := ProgramPrefix(job, n - 1, s);
      t := TileStep(job, i, j, u);
      ExecAllConcat(Program(job, n - 1), TilePair(job, i, j), s);
      forall y: nat, x: nat, b: nat | y < job.h && x < job.w && b < job.c && TileOf(job, y, x) < n
        ensures Get(t, job.DstCell(y, x, b)) == Get(s, job.SrcCell(y, x, b))
      {
        TileOfIs(job, n - 1, y, x);
        SrcKept(job, s, u, y, x, b);
      }
    }
  }

  // The destination holds the rotated source, and nothing but the destination
  // image and the scratch buffer has changed.
  ghost predicate Rotated(job: Job, s: Store, t: Store) {
    && (forall y: nat, x: nat, b: nat :: y < job.h && x < job.w && b < job.c ==>
          Get(t, job.DstCell(y, x, b)) == Get(s, job.SrcCell(y, x, b)))
    && Framed(job, s, t)
  }

  // Running every tile's pair in order rotates the image.
  lemma RotationCorrect(job: Job, s: Store)
    requires job.Ok()
    ensures Rotated(job, s, ExecAll(Program(job, job.Tiles()), s))
  {
    var n := job.Tiles();
    var t := ProgramPrefix(job, n, s);
    forall y: nat, x: nat | y < job.h && x < job.w
      ensures TileOf(job, y, x) < n
    {
      TilePartition(job, 0, 0, y, x);
      LinBound(job.XTiles(), job.YTiles(), 1, Quot(y, job.th), Quot(x, job.tw), 0);
    }
  }

  // The destination rectangles partition the rotated image: every destination
  // pixel is written by exactly one tile.
  lemma DstPartition(job: Job, Y: nat, X: nat) returns (i: nat, j: nat)
    requires job.Ok() && Y < job.H() && X < job.W()
    ensures i < job.YTiles() && j < job.XTiles() && InDstTile(job, i, j, Y, X)
    ensures forall i': nat, j': nat :: i' < job.YTiles() && j' < job.XTiles() && InDstTile(job, i', j', Y, X) ==>
              i' == i && j' == j
  {
    var y, x := Unrotate(job, Y, X);
    i, j := Quot(y, job.th), Quot(x, job.tw);
    TilePartition(job, 0, 0, y, x);
    forall i': nat, j': nat | i' < job.YTiles() && j' < job.XTiles()
      ensures InDstTile(job, i', j', Y, X) <==> i' == i && j' == j
    {
      TilePartition(job, i', j', y, x);
      TileInside(job, i', j');
      RotRectHas(job.angle, job.w, job.h, job.Tile(i', j'), y, x);
    }
  }

  lemma Unrotate(job: Job, Y: nat, X: nat) returns (y: nat, x: nat)
    requires Y < job.H() && X < job.W()
    ensures y < job.h && x < job.w
    ensures RotY(job.angle, job.w, job.h, y, x) == Y && RotX(job.angle, job.w, job.h, y, x) == X
  {
    var back: Angle := (4 - job.angle) % 4;
    y, x := RotY(back, job.W(), job.H(), Y, X), RotX(back, job.W(), job.H(), Y, X);
  }

  // Pixel (Y, X) lies in the destination rectangle of tile (i, j).
  predicate InDstTile(job: Job, i: nat, j: nat, Y: nat, X: nat)
    requires job.Ok() && i < job.YTiles() && j < job.XTiles()
  {
    TileInside(job, i, j);
    RotRect(job.angle, job.w, job.h, job.Tile(i, j)).Has(Y, X)
  }
}
