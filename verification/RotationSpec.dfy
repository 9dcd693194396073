// Rotating an image tile by tile through a 16 KiB buffer: the geometry, the two
// descriptors of one tile, and why running all of them rotates the image.
module RotationSpec {
  import opened Words
  import opened Machine

  // Angle 1 is 90 degrees clockwise, 2 is 180, 3 is 270.
  type Angle = a: nat | a < 4

  function OutW(angle: Angle, w: nat, h: nat): nat {
    if angle % 2 == 1 then h else w
  }

  function OutH(angle: Angle, w: nat, h: nat): nat {
    if angle % 2 == 1 then w else h
  }

  // Where pixel (y, x) of a w-by-h image goes.
  function RotY(angle: Angle, w: nat, h: nat, y: nat, x: nat): (r: nat)
    requires y < h && x < w
    ensures r < OutH(angle, w, h)
  {
    if angle == 0 then y else if angle == 1 then x else if angle == 2 then h - 1 - y else w - 1 - x
  }

  function RotX(angle: Angle, w: nat, h: nat, y: nat, x: nat): (r: nat)
    requires y < h && x < w
    ensures r < OutW(angle, w, h)
  {
    if angle == 0 then x else if angle == 1 then h - 1 - y else if angle == 2 then w - 1 - x else y
  }

  // Rotations compose by adding angles; in particular angle 1 then 3 is the identity.
  lemma RotCompose(a: Angle, b: Angle, w: nat, h: nat, y: nat, x: nat)
    requires y < h && x < w
    ensures var y', x' := RotY(a, w, h, y, x), RotX(a, w, h, y, x);
            && RotY(b, OutW(a, w, h), OutH(a, w, h), y', x') == RotY((a + b) % 4, w, h, y, x)
            && RotX(b, OutW(a, w, h), OutH(a, w, h), y', x') == RotX((a + b) % 4, w, h, y, x)
  {
    assert (a + b) % 4 == if a + b < 4 then a + b else a + b - 4;
  }

  // A rectangle of source pixels: rows y0 .. y0+h-1, columns x0 .. x0+w-1.
  datatype Rect = Rect(y0: nat, x0: nat, h: nat, w: nat) {
    predicate Has(y: nat, x: nat) {
      y0 <= y < y0 + h && x0 <= x < x0 + w
    }

    predicate Inside(W: nat, H: nat) {
      0 < h && 0 < w && y0 + h <= H && x0 + w <= W
    }
  }

  // The rectangle it is rotated onto.
  function RotRect(angle: Angle, W: nat, H: nat, r: Rect): (q: Rect)
    requires r.Inside(W, H)
  {
    Rect(
      if angle == 0 then r.y0 else if angle == 1 then r.x0 else if angle == 2 then H - r.y0 - r.h else W - r.x0 - r.w,
      if angle == 0 then r.x0 else if angle == 1 then H - r.y0 - r.h else if angle == 2 then W - r.x0 - r.w else r.y0,
      OutH(angle, r.w, r.h),
      OutW(angle, r.w, r.h))
  }

  lemma RotRectHas(angle: Angle, W: nat, H: nat, r: Rect, y: nat, x: nat)
    requires r.Inside(W, H) && y < H && x < W
    ensures RotRect(angle, W, H, r).Inside(OutW(angle, W, H), OutH(angle, W, H))
    ensures r.Has(y, x) <==> RotRect(angle, W, H, r).Has(RotY(angle, W, H, y, x), RotX(angle, W, H, y, x))
  {
  }

  // ----- one tile -----

  datatype Buffer = Buffer(tcm: bool, addr: Word) {
    function Space(): int {
      if tcm then 0 else MEMORY
    }

    function Base(): int {
      if tcm then addr else 0
    }

    // Cells [Start, Start + bytes) are scratch.
    predicate Covers(a: int, bytes: nat) {
      Space() + Base() <= a < Space() + Base() + bytes
    }
  }

  // The signed buffer layout that makes a row-order stream land rotated.
  function BufferGrid(angle: Angle, buf: Buffer, c: nat, w: nat, h: nat): Grid {
    if angle == 0 then Grid(buf.Space(), buf.Base(), c * w, c)
    else if angle == 1 then Grid(buf.Space(), buf.Base() + c * (h - 1), Neg(c), c * h)
    else if angle == 2 then Grid(buf.Space(), buf.Base() + c * (w * h - 1), Neg(c * w), Neg(c))
    else Grid(buf.Space(), buf.Base() + c * h * (w - 1), c, Neg(c * h))
  }

  // The buffer cell of byte b of rotated pixel (y, x).
  function Place(buf: Buffer, W: nat, c: nat, y: nat, x: nat, b: nat): (cell: nat) {
    buf.Space() + buf.Base() + Lin(W, c, y, x, b)
  }

  lemma Turn1(c: int, h: int, y: int, x: int)
    ensures (x * h + (h - 1 - y)) * c == c * (h - 1) + y * Neg(c) + x * (c * h)
  {
    assert (x * h) * c == x * (c * h);
  }

  lemma Turn2(c: int, w: int, h: int, y: int, x: int)
    ensures ((h - 1 - y) * w + (w - 1 - x)) * c == c * (w * h - 1) + y * Neg(c * w) + x * Neg(c)
  {
    assert (h - 1 - y) * w + (w - 1 - x) == w * h - 1 - y * w - x;
    assert (y * w) * c == y * (c * w);
  }

  lemma Turn3(c: int, w: int, h: int, y: int, x: int)
    ensures ((w - 1 - x) * h + y) * c == c * h * (w - 1) + y * c + x * Neg(c * h)
  {
    assert (w - 1 - x) * h == h * (w - 1) - x * h;
    assert (x * h) * c == x * (c * h);
    assert (h * (w - 1)) * c == c * h * (w - 1);
  }

  lemma BufferPlace(angle: Angle, buf: Buffer, c: nat, w: nat, h: nat, y: nat, x: nat, b: nat)
    requires y < h && x < w && b < c
    ensures BufferGrid(angle, buf, c, w, h).At(y, x, b)
         == Place(buf, OutW(angle, w, h), c, RotY(angle, w, h, y, x), RotX(angle, w, h, y, x), b)
  {
    if angle == 0 {
      RowMajor(c, w, y, x);
    } else if angle == 1 {
      Turn1(c, h, y, x);
    } else if angle == 2 {
      Turn2(c, w, h, y, x);
    } else {
      Turn3(c, w, h, y, x);
    }
  }

  lemma PlaceBound(buf: Buffer, W: nat, H: nat, c: nat, y: nat, x: nat, b: nat)
    requires y < H && x < W && b < c
    ensures buf.Covers(Place(buf, W, c, y, x, b), c * (W * H))
  {
    LinBound(W, H, c, y, x, b);
  }

  lemma BufferWithin(angle: Angle, buf: Buffer, c: nat, w: nat, h: nat)
    ensures Within(BufferGrid(angle, buf, c, w, h), h, w, c,
                   buf.Space() + buf.Base(), buf.Space() + buf.Base() + c * (w * h))
  {
    var g := BufferGrid(angle, buf, c, w, h);
    assert OutW(angle, w, h) * OutH(angle, w, h) == w * h;
    forall y: nat, x: nat, b: nat | y < h && x < w && b < c
      ensures buf.Space() + buf.Base() <= g.At(y, x, b) < buf.Space() + buf.Base() + c * (w * h)
    {
      BufferPlace(angle, buf, c, w, h, y, x, b);
      PlaceBound(buf, OutW(angle, w, h), OutH(angle, w, h), c, RotY(angle, w, h, y, x), RotX(angle, w, h, y, x), b);
    }
  }

  lemma BufferInjective(angle: Angle, buf: Buffer, c: nat, w: nat, h: nat)
    ensures Injective(BufferGrid(angle, buf, c, w, h), h, w, c)
  {
    var g := BufferGrid(angle, buf, c, w, h);
    forall y: nat, x: nat, b: nat, y': nat, x': nat, b': nat |
      y < h && x < w && b < c && y' < h && x' < w && b' < c && g.At(y, x, b) == g.At(y', x', b')
      ensures y == y' && x == x' && b == b'
    {
      BufferPlace(angle, buf, c, w, h, y, x, b);
      BufferPlace(angle, buf, c, w, h, y', x', b');
      LinInjective(OutW(angle, w, h), c, RotY(angle, w, h, y, x), RotX(angle, w, h, y, x), b,
                   RotY(angle, w, h, y', x'), RotX(angle, w, h, y', x'), b');
    }
  }

  // Memory to buffer.
  function TileIn(angle: Angle, buf: Buffer, src: Word, pitch: Word, c: nat, w: nat, h: nat): Desc {
    var g := BufferGrid(angle, buf, c, w, h);
    Copy(Side(false, src, pitch, 0, c * w, h, 1),
         Side(!buf.tcm, Wrap(g.base), Wrap(g.col), Wrap(g.row), c, w, h), false)
  }

  // Buffer to memory; W-by-H is the rotated tile.
  function TileOut(buf: Buffer, dst: Word, pitch: Word, c: nat, W: nat, H: nat): Desc {
    Copy(Side(!buf.tcm, Wrap(buf.Base()), Wrap(c * W), 0, c * W, H, 1),
         Side(false, dst, pitch, 0, c * W, H, 1), false)
  }

  // The rotated tile, row after row in the buffer.
  lemma BufferRows(buf: Buffer, c: nat, W: nat, H: nat)
    requires 0 < c && 0 < W && 0 < H
    ensures var g := Grid(buf.Space(), buf.Base(), c * W, c);
            && Within(g, H, W, c, buf.Space() + buf.Base(), buf.Space() + buf.Base() + c * (W * H))
            && forall y: nat, x: nat, b: nat :: y < H && x < W && b < c ==> g.At(y, x, b) == Place(buf, W, c, y, x, b)
  {
    var g := Grid(buf.Space(), buf.Base(), c * W, c);
    RowsWithin(g, H, W, c);
    AreaRows(c, W, H);
    forall y: nat, x: nat, b: nat | y < H && x < W && b < c
      ensures g.At(y, x, b) == Place(buf, W, c, y, x, b)
    {
      RowMajor(c, W, y, x);
    }
  }

  // c * w bytes of each of h rows, `pitch` apart, inside 32-bit memory.
  predicate RowsFit(addr: int, pitch: int, h: nat, w: nat, c: nat) {
    c * w <= pitch && addr + (h - 1) * pitch + c * w <= MEMORY
  }

  // The scratch area of a memory buffer meets neither image area.
  predicate Clear(buf: Buffer, bytes: nat, addr: int, len: int) {
    buf.tcm ==> buf.addr + bytes <= MEMORY && (buf.addr + bytes <= addr || addr + len <= buf.addr)
  }

  lemma TileInEffect(angle: Angle, buf: Buffer, src: Word, pitch: Word, c: nat, w: nat, h: nat, s: Store)
    returns (t: Store)
    requires 0 < c && 0 < w && 0 < h && c * (w * h) <= TMP_BYTES
    requires RowsFit(src, pitch, h, w, c)
    requires Clear(buf, c * (w * h), src, (h - 1) * pitch + c * w)
    ensures t == Exec(TileIn(angle, buf, src, pitch, c, w, h), s)
    ensures forall y: nat, x: nat, b: nat :: y < h && x < w && b < c ==>
              Get(t, BufferGrid(angle, buf, c, w, h).At(y, x, b)) == Get(s, Grid(0, src, pitch, c).At(y, x, b))
    ensures forall a :: 0 <= a < CELLS && !buf.Covers(a, c * (w * h)) ==> t[a] == s[a]
  {
    var d := TileIn(angle, buf, src, pitch, c, w, h);
    t := Exec(d, s);
    var from, to := Grid(0, src, pitch, c), BufferGrid(angle, buf, c, w, h);
    var lo, hi := buf.Space() + buf.Base(), buf.Space() + buf.Base() + c * (w * h);
    RowsWithin(from, h, w, c);
    WithinSpace(from, h, w, c, src, src + (h - 1) * pitch + c * w);
    StreamsRows(d.src, from, h, w, c);
    BufferWithin(angle, buf, c, w, h);
    WithinSpace(to, h, w, c, lo, hi);
    StreamsPixels(d.dst, to, h, w, c);
    BufferInjective(angle, buf, c, w, h);
    WithinApart(from, to, h, w, c, src, src + (h - 1) * pitch + c * w, lo, hi);
    PixelMove(d, s, from, to, h, w, c);
    forall a | 0 <= a < CELLS && !buf.Covers(a, c * (w * h))
      ensures t[a] == s[a]
    {
      if Writes(to, h, w, c, a) {
        WithinWrites(to, h, w, c, lo, hi, a);
      }
    }
  }

  lemma TileOutEffect(buf: Buffer, dst: Word, pitch: Word, c: nat, W: nat, H: nat, s: Store)
    returns (t: Store)
    requires 0 < c && 0 < W && 0 < H && c * (W * H) <= TMP_BYTES
    requires RowsFit(dst, pitch, H, W, c)
    requires Clear(buf, c * (W * H), dst, (H - 1) * pitch + c * W)
    ensures t == Exec(TileOut(buf, dst, pitch, c, W, H), s)
    ensures forall y: nat, x: nat, b: nat :: y < H && x < W && b < c ==>
              Get(t, Grid(0, dst, pitch, c).At(y, x, b)) == Get(s, Place(buf, W, c, y, x, b))
    ensures forall a :: 0 <= a < CELLS && !Writes(Grid(0, dst, pitch, c), H, W, c, a) ==> t[a] == s[a]
  {
    var d := TileOut(buf, dst, pitch, c, W, H);
    t := Exec(d, s);
    var from, to := Grid(buf.Space(), buf.Base(), c * W, c), Grid(0, dst, pitch, c);
    var lo, hi := buf.Space() + buf.Base(), buf.Space() + buf.Base() + c * (W * H);
    BufferRows(buf, c, W, H);
    RowLe(c, W, H);
    WithinSpace(from, H, W, c, lo, hi);
    WrapSmall(c * W);
    StreamsRows(d.src, from, H, W, c);
    RowsWithin(to, H, W, c);
    WithinSpace(to, H, W, c, dst, dst + (H - 1) * pitch + c * W);
    StreamsRows(d.dst, to, H, W, c);
    RowsInjective(to, H, W, c);
    WithinApart(from, to, H, W, c, lo, hi, dst, dst + (H - 1) * pitch + c * W);
    PixelMove(d, s, from, to, H, W, c);
  }

  // Both descriptors of a tile: every pixel byte lands on its rotated place in
  // the destination tile; only that tile and the scratch cells change.
  lemma TileEffect(angle: Angle, buf: Buffer, src: Word, sp: Word, dst: Word, dp: Word, c: nat, w: nat, h: nat, s: Store)
    returns (t: Store)
    requires 0 < c && 0 < w && 0 < h && c * (w * h) <= TMP_BYTES
    requires RowsFit(src, sp, h, w, c)
    requires RowsFit(dst, dp, OutH(angle, w, h), OutW(angle, w, h), c)
    requires Clear(buf, c * (w * h), src, (h - 1) * sp + c * w)
    requires Clear(buf, c * (w * h), dst, (OutH(angle, w, h) - 1) * dp + c * OutW(angle, w, h))
    ensures t == ExecAll([TileIn(angle, buf, src, sp, c, w, h), TileOut(buf, dst, dp, c, OutW(angle, w, h), OutH(angle, w, h))], s)
    ensures forall y: nat, x: nat, b: nat :: y < h && x < w && b < c ==>
              Get(t, Grid(0, dst, dp, c).At(RotY(angle, w, h, y, x), RotX(angle, w, h, y, x), b))
              == Get(s, Grid(0, src, sp, c).At(y, x, b))
    ensures forall a | 0 <= a < CELLS && !buf.Covers(a, c * (w * h)) ::
              !Writes(Grid(0, dst, dp, c), OutH(angle, w, h), OutW(angle, w, h), c, a) ==> t[a] == s[a]
  {
    var W, H := OutW(angle, w, h), OutH(angle, w, h);
    assert W * H == w * h;
    var first, second := TileIn(angle, buf, src, sp, c, w, h), TileOut(buf, dst, dp, c, W, H);
    var s1 := TileInEffect(angle, buf, src, sp, c, w, h, s);
    t := TileOutEffect(buf, dst, dp, c, W, H, s1);
    assert [first, second][1..] == [second];
    assert ExecAll([second], s1) == ExecAll([], Exec(second, s1));
    forall y: nat, x: nat, b: nat | y < h && x < w && b < c
      ensures Get(t, Grid(0, dst, dp, c).At(RotY(angle, w, h, y, x), RotX(angle, w, h, y, x), b))
           == Get(s, Grid(0, src, sp, c).At(y, x, b))
    {
      BufferPlace(angle, buf, c, w, h, y, x, b);
      assert Get(s1, BufferGrid(angle, buf, c, w, h).At(y, x, b)) == Get(s, Grid(0, src, sp, c).At(y, x, b));
    }
  }
}
