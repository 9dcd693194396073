// Padding an image inside its output buffer: what the descriptors do to memory.
module PadSpec {
  import opened Words
  import opened Machine

  datatype PadInfo = PadInfo(
    mode: Byte, descId: Byte, elem: Byte, sx: Word, sy: Word,
    left: Word, right: Word, top: Word, bottom: Word,
    srcStrideX: Word, srcStrideY: Word, dstStrideX: Word, dstStrideY: Word,
    constant: Word, src: Word, dst: Word)
  {
    function W(): nat {
      sx + left + right
    }

    function H(): nat {
      sy + top + bottom
    }

    // Bytes from one output row to the next.
    function Row(): nat {
      dstStrideX * elem
    }

    function In(): Grid {
      Grid(0, src, srcStrideX * elem, elem)
    }

    function Out(): Grid {
      Grid(0, dst, Row(), elem)
    }

    function InEnd(): int {
      src + (sy - 1) * (srcStrideX * elem) + elem * sx
    }

    function OutEnd(): int {
      dst + (H() - 1) * Row() + elem * W()
    }
  }

  // Sizes fit the 16-bit fields, rows of the output do not overlap, neither
  // image wraps around the address space, and the two are disjoint.
  predicate Fits(p: PadInfo) {
    && 0 < p.elem && 0 < p.sx && 0 < p.sy
    && p.W() * p.elem < 0x1_0000 && p.H() < 0x1_0000
    && p.W() <= p.dstStrideX
    && p.OutEnd() <= MEMORY && p.InEnd() <= MEMORY
    && (p.OutEnd() <= p.src || p.InEnd() <= p.dst)
  }

  // Byte b of output pixel (y, x).
  function Pixel(p: PadInfo, s: Store, y: nat, x: nat, b: nat): Byte {
    Get(s, p.Out().At(y, x, b))
  }

  // Memory outside the padded rectangle is as before.
  ghost predicate Outside(p: PadInfo, s: Store, t: Store) {
    forall a :: 0 <= a < MEMORY && !Writes(p.Out(), p.H(), p.W(), p.elem, a) ==> t[a] == s[a]
  }

  // The same, as facts about pixels.
  ghost predicate Laid(p: PadInfo) {
    && 0 < p.elem && 0 < p.sx && 0 < p.sy && p.H() < 0x1_0000
    && Injective(p.Out(), p.H(), p.W(), p.elem)
    && InSpace(p.Out(), p.H(), p.W(), p.elem) && InSpace(p.In(), p.sy, p.sx, p.elem)
    && forall y: nat, x: nat, b: nat, y': nat, x': nat, b': nat ::
         y < p.sy && x < p.sx && b < p.elem && y' < p.H() && x' < p.W() && b' < p.elem
         ==> p.In().At(y, x, b) != p.Out().At(y', x', b')
  }

  lemma FitsLaid(p: PadInfo)
    requires Fits(p)
    ensures Laid(p)
  {
    MulLe(p.W(), p.dstStrideX, p.elem);
    RowsInjective(p.Out(), p.H(), p.W(), p.elem);
    RowsWithin(p.Out(), p.H(), p.W(), p.elem);
    RowsWithin(p.In(), p.sy, p.sx, p.elem);
  }

  // Column j copied onto the n columns from k on: one pixel per line, one line
  // per row, one slab per column.
  function Columns(p: PadInfo, j: nat, k: nat, n: nat): Desc {
    Copy(Side(false, Wrap(p.dst + j * p.elem), Wrap(p.Row()), 0, p.elem, p.H(), n),
         Side(false, Wrap(p.dst + k * p.elem), Wrap(p.Row()), p.elem, p.elem, p.H(), n), false)
  }

  // The columns from k on, slab by slab, as positions of the output.
  function Slabs(p: PadInfo, k: nat, step: nat): Grid {
    Grid(0, p.dst + k * p.elem, step, p.Row())
  }

  lemma SlabsAt(p: PadInfo, k: nat, z: nat, y: nat, b: nat)
    ensures Slabs(p, k, p.elem).At(z, y, b) == p.Out().At(y, k + z, b)
    ensures Slabs(p, k, 0).At(z, y, b) == p.Out().At(y, k, b)
  {
    assert (k + z) * p.elem == k * p.elem + z * p.elem;
  }

  lemma OutAt(p: PadInfo, y: nat, x: nat, b: nat, y': nat, x': nat, b': nat)
    requires Laid(p) && y < p.H() && x < p.W() && b < p.elem && y' < p.H() && x' < p.W() && b' < p.elem
    ensures 0 <= p.Out().At(y, x, b) < MEMORY
    ensures p.Out().At(y, x, b) == p.Out().At(y', x', b') <==> y == y' && x == x' && b == b'
  {
    assert 0 <= p.Out().At(y, x, b) - p.Out().space < MEMORY;
  }

  lemma SlabsIn(p: PadInfo, k: nat, n: nat, h: nat, e: nat)
    requires Laid(p) && k + n <= p.W() && h == p.H() && e == p.elem
    ensures InSpace(Slabs(p, k, e), n, h, e)
  {
    forall z: nat, y: nat, b: nat | z < n && y < h && b < e
      ensures 0 <= Slabs(p, k, e).At(z, y, b) < MEMORY
    {
      SlabsAt(p, k, z, y, b);
      OutAt(p, y, k + z, b, y, k + z, b);
    }
  }

  lemma SlabIn(p: PadInfo, j: nat, n: nat, h: nat, e: nat)
    requires Laid(p) && j < p.W() && h == p.H() && e == p.elem
    ensures InSpace(Slabs(p, j, 0), n, h, e)
  {
    forall z: nat, y: nat, b: nat | z < n && y < h && b < e
      ensures 0 <= Slabs(p, j, 0).At(z, y, b) < MEMORY
    {
      SlabsAt(p, j, z, y, b);
      OutAt(p, y, j, b, y, j, b);
    }
  }

  lemma ColumnsStream(p: PadInfo, j: nat, k: nat, n: nat)
    requires Laid(p) && 0 < n && j < p.W() && k + n <= p.W()
    ensures Streams(Columns(p, j, k, n).src, Slabs(p, j, 0), n, p.H(), p.elem)
    ensures Streams(Columns(p, j, k, n).dst, Slabs(p, k, p.elem), n, p.H(), p.elem)
  {
    SlabIn(p, j, n, p.H(), p.elem);
    SlabsIn(p, k, n, p.H(), p.elem);
    ColumnsSides(p, Columns(p, j, k, n), j, k, n, p.H(), p.elem);
  }

  lemma ColumnsSides(p: PadInfo, d: Desc, j: nat, k: nat, n: nat, h: nat, e: Byte)
    requires d == Columns(p, j, k, n) && h == p.H() && e == p.elem && 0 < h && 0 < e
    requires InSpace(Slabs(p, j, 0), n, h, e) && InSpace(Slabs(p, k, e), n, h, e)
    ensures Streams(d.src, Slabs(p, j, 0), n, h, e) && Streams(d.dst, Slabs(p, k, e), n, h, e)
  {
    StreamsPixels(d.src, Slabs(p, j, 0), n, h, e);
    StreamsPixels(d.dst, Slabs(p, k, e), n, h, e);
  }

  lemma ColumnsApart(p: PadInfo, j: nat, k: nat, n: nat)
    requires Laid(p) && j < p.W() && k + n <= p.W() && (j < k || k + n <= j)
    ensures Injective(Slabs(p, k, p.elem), n, p.H(), p.elem)
    ensures Apart(Slabs(p, j, 0), Slabs(p, k, p.elem), n, p.H(), p.elem)
  {
    forall z: nat, y: nat, b: nat, z': nat, y': nat, b': nat |
      z < n && y < p.H() && b < p.elem && z' < n && y' < p.H() && b' < p.elem
      ensures Slabs(p, k, p.elem).At(z, y, b) == Slabs(p, k, p.elem).At(z', y', b') ==> z == z' && y == y' && b == b'
      ensures Slabs(p, j, 0).At(z, y, b) != Slabs(p, k, p.elem).At(z', y', b')
    {
      SlabsAt(p, k, z, y, b);
      SlabsAt(p, k, z', y', b');
      SlabsAt(p, j, z, y, b);
      OutAt(p, y, k + z, b, y', k + z', b');
      OutAt(p, y, j, b, y', k + z', b');
    }
  }

  lemma ColumnsWrite(p: PadInfo, k: nat, n: nat, a: int) returns (y: nat, x: nat, b: nat)
    requires Laid(p) && k + n <= p.W() && Writes(Slabs(p, k, p.elem), n, p.H(), p.elem, a)
    ensures y < p.H() && k <= x < k + n && b < p.elem && p.Out().At(y, x, b) == a
  {
    var z: nat, y': nat, b': nat :| z < n && y' < p.H() && b' < p.elem && Slabs(p, k, p.elem).At(z, y', b') == a;
    SlabsAt(p, k, z, y', b');
    y, x, b := y', k + z, b';
  }

  // Every output pixel of t is one of s, pixel (y, x) now holding what pixel
  // (y', x') held, and no memory outside the output changed.
  ghost predicate Takes(p: PadInfo, s: Store, t: Store, y: nat, x: nat, y': nat, x': nat) {
    forall b: nat :: b < p.elem ==> Pixel(p, t, y, x, b) == Pixel(p, s, y', x', b)
  }

  // The descriptor d copies column j onto columns k .. k+n-1.
  ghost predicate CopiesColumn(p: PadInfo, d: Desc, j: nat, k: nat, n: nat) {
    && 0 < n && j < p.W() && k + n <= p.W() && (j < k || k + n <= j)
    && d.Copy? && !d.swap && Streams(d.src, Slabs(p, j, 0), n, p.H(), p.elem)
    && Streams(d.dst, Slabs(p, k, p.elem), n, p.H(), p.elem)
  }

  lemma ColumnsMove(p: PadInfo, s: Store, d: Desc, j: nat, k: nat, n: nat)
    requires Laid(p) && CopiesColumn(p, d, j, k, n)
    ensures forall z: nat, y: nat, b: nat :: z < n && y < p.H() && b < p.elem && Slabs(p, k, p.elem).At(z, y, b) < CELLS ==>
              Get(Exec(d, s), Slabs(p, k, p.elem).At(z, y, b)) == Get(s, Slabs(p, j, 0).At(z, y, b))
    ensures forall a :: 0 <= a < CELLS && !Writes(Slabs(p, k, p.elem), n, p.H(), p.elem, a) ==> Exec(d, s)[a] == s[a]
  {
    ColumnsApart(p, j, k, n);
    PixelMove(d, s, Slabs(p, j, 0), Slabs(p, k, p.elem), n, p.H(), p.elem);
  }

  lemma ColumnCopied(p: PadInfo, s: Store, d: Desc, j: nat, k: nat, n: nat, y: nat, z: nat)
    requires Laid(p) && CopiesColumn(p, d, j, k, n) && y < p.H() && z < n
    ensures Takes(p, s, Exec(d, s), y, k + z, y, j)
  {
    ColumnsMove(p, s, d, j, k, n);
    forall b: nat | b < p.elem
      ensures Pixel(p, Exec(d, s), y, k + z, b) == Pixel(p, s, y, j, b)
    {
      OutAt(p, y, k + z, b, y, j, b);
      SlabsAt(p, k, z, y, b);
      SlabsAt(p, j, z, y, b);
    }
  }

  lemma ColumnKept(p: PadInfo, s: Store, d: Desc, j: nat, k: nat, n: nat, y: nat, x: nat)
    requires Laid(p) && CopiesColumn(p, d, j, k, n) && y < p.H() && x < p.W() && !(k <= x < k + n)
    ensures Takes(p, s, Exec(d, s), y, x, y, x)
  {
    ColumnsMove(p, s, d, j, k, n);
    forall b: nat | b < p.elem
      ensures Pixel(p, Exec(d, s), y, x, b) == Pixel(p, s, y, x, b)
    {
      var a := p.Out().At(y, x, b);
      OutAt(p, y, x, b, y, x, b);
      if Writes(Slabs(p, k, p.elem), n, p.H(), p.elem, a) {
        var y', x', b' := ColumnsWrite(p, k, n, a);
        OutAt(p, y, x, b, y', x', b');
      }
    }
  }

  // Where column x comes from when column j is copied onto k .. k+n-1.
  function Spread(j: nat, k: nat, n: nat, x: nat): nat {
    if k <= x < k + n then j else x
  }

  lemma ColumnTakes(p: PadInfo, s: Store, d: Desc, j: nat, k: nat, n: nat, y: nat, x: nat)
    requires Laid(p) && CopiesColumn(p, d, j, k, n) && y < p.H() && x < p.W()
    ensures Takes(p, s, Exec(d, s), y, x, y, Spread(j, k, n, x))
  {
    if k <= x < k + n {
      ColumnCopied(p, s, d, j, k, n, y, x - k);
    } else {
      ColumnKept(p, s, d, j, k, n, y, x);
    }
  }

  lemma ColumnOutside(p: PadInfo, s: Store, d: Desc, j: nat, k: nat, n: nat)
    requires Laid(p) && CopiesColumn(p, d, j, k, n)
    ensures Outside(p, s, Exec(d, s))
  {
    ColumnsMove(p, s, d, j, k, n);
    forall a | 0 <= a < MEMORY && !Writes(p.Out(), p.H(), p.W(), p.elem, a)
      ensures Exec(d, s)[a] == s[a]
    {
      if Writes(Slabs(p, k, p.elem), n, p.H(), p.elem, a) {
        var y, x, b := ColumnsWrite(p, k, n, a);
      }
    }
  }

  // ----- rows -----

  // Row j copied onto the n rows from k on: one whole row per slab.
  function Rows(p: PadInfo, j: nat, k: nat, n: nat): Desc {
    Copy(Side(false, Wrap(p.dst + j * p.Row()), 1, 0, p.W() * p.elem, 1, n),
         Side(false, Wrap(p.dst + k * p.Row()), 1, Wrap(p.Row()), p.W() * p.elem, 1, n), false)
  }

  // The rows from k on as one-pixel lines of W * elem bytes.
  function Lines(p: PadInfo, k: nat, step: nat): Grid {
    Grid(0, p.dst + k * p.Row(), step, 1)
  }

  // Byte m of a row as byte b of pixel x.
  lemma LinesAt(p: PadInfo, k: nat, z: nat, y: nat, x: nat, b: nat, m: nat)
    requires x < p.W() && b < p.elem && y == k + z && m == x * p.elem + b
    ensures m < p.W() * p.elem
    ensures Lines(p, k, p.Row()).At(z, 0, m) == p.Out().At(y, x, b)
    ensures Lines(p, k, 0).At(z, 0, m) == p.Out().At(k, x, b)
  {
    LineByte(p.elem, p.W(), x, b);
    LinesSum(k, z, p.Row());
  }

  lemma LinesSum(k: nat, z: nat, row: nat)
    ensures (k + z) * row == k * row + z * row
  {
  }

  lemma LineSplit(p: PadInfo, m: nat) returns (x: nat, b: nat)
    requires m < p.W() * p.elem
    ensures x < p.W() && b < p.elem && m == x * p.elem + b
  {
    assert 0 < p.elem;
    x, b := Quot(m, p.elem), Rem(m, p.elem);
    QuotRem(m, p.elem);
    if p.W() <= x {
      MulLe(p.W(), x, p.elem);
    }
  }

  lemma LinesIn(p: PadInfo, k: nat, n: nat, wide: nat)
    requires Laid(p) && k + n <= p.H() && wide == p.W() * p.elem
    ensures InSpace(Lines(p, k, p.Row()), n, 1, wide)
  {
    forall z: nat, y: nat, m: nat | z < n && y < 1 && m < wide
      ensures 0 <= Lines(p, k, p.Row()).At(z, y, m) < MEMORY
    {
      var x, b := LineSplit(p, m);
      LinesAt(p, k, z, k + z, x, b, m);
      OutAt(p, k + z, x, b, k + z, x, b);
    }
  }

  lemma LineIn(p: PadInfo, j: nat, n: nat, wide: nat)
    requires Laid(p) && j < p.H() && wide == p.W() * p.elem
    ensures InSpace(Lines(p, j, 0), n, 1, wide)
  {
    forall z: nat, y: nat, m: nat | z < n && y < 1 && m < wide
      ensures 0 <= Lines(p, j, 0).At(z, y, m) < MEMORY
    {
      var x, b := LineSplit(p, m);
      LinesAt(p, j, z, j + z, x, b, m);
      OutAt(p, j, x, b, j, x, b);
    }
  }

  ghost predicate CopiesRow(p: PadInfo, d: Desc, j: nat, k: nat, n: nat) {
    && 0 < n && j < p.H() && k + n <= p.H() && (j < k || k + n <= j)
    && d.Copy? && !d.swap && Streams(d.src, Lines(p, j, 0), n, 1, p.W() * p.elem)
    && Streams(d.dst, Lines(p, k, p.Row()), n, 1, p.W() * p.elem)
  }

  lemma RowsCopy(p: PadInfo, j: nat, k: nat, n: nat)
    requires Laid(p) && 0 < n && j < p.H() && k + n <= p.H() && (j < k || k + n <= j)
    ensures CopiesRow(p, Rows(p, j, k, n), j, k, n)
  {
    var wide := p.W() * p.elem;
    MulLe(1, p.W(), p.elem);
    LineIn(p, j, n, wide);
    LinesIn(p, k, n, wide);
    StreamsPixels(Rows(p, j, k, n).src, Lines(p, j, 0), n, 1, wide);
    StreamsPixels(Rows(p, j, k, n).dst, Lines(p, k, p.Row()), n, 1, wide);
  }

  lemma ColumnsCopy(p: PadInfo, j: nat, k: nat, n: nat)
    requires Laid(p) && 0 < n && j < p.W() && k + n <= p.W() && (j < k || k + n <= j)
    ensures CopiesColumn(p, Columns(p, j, k, n), j, k, n)
  {
    ColumnsStream(p, j, k, n);
  }

  lemma RowsApart(p: PadInfo, j: nat, k: nat, n: nat, wide: nat)
    requires Laid(p) && j < p.H() && k + n <= p.H() && (j < k || k + n <= j) && wide == p.W() * p.elem
    ensures Injective(Lines(p, k, p.Row()), n, 1, wide)
    ensures Apart(Lines(p, j, 0), Lines(p, k, p.Row()), n, 1, wide)
  {
    forall z: nat, y: nat, m: nat, z': nat, y': nat, m': nat | z < n && y < 1 && m < wide && z' < n && y' < 1 && m' < wide
      ensures Lines(p, k, p.Row()).At(z, y, m) == Lines(p, k, p.Row()).At(z', y', m') ==> z == z' && y == y' && m == m'
      ensures Lines(p, j, 0).At(z, y, m) != Lines(p, k, p.Row()).At(z', y', m')
    {
      var x, b := LineSplit(p, m);
      var x', b' := LineSplit(p, m');
      LinesAt(p, k, z, k + z, x, b, m);
      LinesAt(p, k, z', k + z', x', b', m');
      LinesAt(p, j, z, j + z, x, b, m);
      OutAt(p, k + z, x, b, k + z', x', b');
      OutAt(p, j, x, b, k + z', x', b');
    }
  }

  lemma RowsMove(p: PadInfo, s: Store, d: Desc, j: nat, k: nat, n: nat, wide: nat)
    requires Laid(p) && CopiesRow(p, d, j, k, n) && wide == p.W() * p.elem
    ensures forall z: nat, y: nat, m: nat :: z < n && y < 1 && m < wide && Lines(p, k, p.Row()).At(z, y, m) < CELLS ==>
              Get(Exec(d, s), Lines(p, k, p.Row()).At(z, y, m)) == Get(s, Lines(p, j, 0).At(z, y, m))
    ensures forall a :: 0 <= a < CELLS && !Writes(Lines(p, k, p.Row()), n, 1, wide, a) ==> Exec(d, s)[a] == s[a]
  {
    RowsApart(p, j, k, n, wide);
    PixelMove(d, s, Lines(p, j, 0), Lines(p, k, p.Row()), n, 1, wide);
  }

  lemma RowsWrite(p: PadInfo, k: nat, n: nat, wide: nat, a: int) returns (y: nat, x: nat, b: nat)
    requires Laid(p) && k + n <= p.H() && wide == p.W() * p.elem && Writes(Lines(p, k, p.Row()), n, 1, wide, a)
    ensures k <= y < k + n && x < p.W() && b < p.elem && p.Out().At(y, x, b) == a
  {
    var z: nat, y': nat, m: nat :| z < n && y' < 1 && m < wide && Lines(p, k, p.Row()).At(z, y', m) == a;
    x, b := LineSplit(p, m);
    y := k + z;
    LinesAt(p, k, z, y, x, b, m);
  }

  lemma RowByte(p: PadInfo, s: Store, d: Desc, j: nat, k: nat, n: nat, z: nat, m: nat, to: int, from: int)
    requires Laid(p) && CopiesRow(p, d, j, k, n) && z < n && m < p.W() * p.elem
    requires Lines(p, k, p.Row()).At(z, 0, m) == to < MEMORY && Lines(p, j, 0).At(z, 0, m) == from
    ensures Get(Exec(d, s), to) == Get(s, from)
  {
    RowsMove(p, s, d, j, k, n, p.W() * p.elem);
  }

  // The row byte of byte b of pixel x, and its two cells.
  lemma RowCells(p: PadInfo, j: nat, k: nat, n: nat, z: nat, y: nat, x: nat, b: nat) returns (m: nat, to: int, from: int)
    requires Laid(p) && j < p.H() && k + n <= p.H() && z < n && y == k + z && x < p.W() && b < p.elem
    ensures m < p.W() * p.elem && to < MEMORY
    ensures Lines(p, k, p.Row()).At(z, 0, m) == to == p.Out().At(y, x, b)
    ensures Lines(p, j, 0).At(z, 0, m) == from == p.Out().At(j, x, b)
  {
    OutAt(p, y, x, b, j, x, b);
    m := x * p.elem + b;
    LinesAt(p, k, z, y, x, b, m);
    LinesAt(p, j, z, j + z, x, b, m);
    to, from := p.Out().At(y, x, b), p.Out().At(j, x, b);
  }

  lemma RowPixel(p: PadInfo, s: Store, d: Desc, j: nat, k: nat, n: nat, z: nat, y: nat, x: nat, b: nat)
    requires Laid(p) && CopiesRow(p, d, j, k, n) && z < n && y == k + z && x < p.W() && b < p.elem
    ensures Pixel(p, Exec(d, s), y, x, b) == Pixel(p, s, j, x, b)
  {
    var m, to, from := RowCells(p, j, k, n, z, y, x, b);
    RowByte(p, s, d, j, k, n, z, m, to, from);
  }

  lemma RowCopied(p: PadInfo, s: Store, d: Desc, j: nat, k: nat, n: nat, z: nat, y: nat, x: nat)
    requires Laid(p) && CopiesRow(p, d, j, k, n) && z < n && y == k + z && x < p.W()
    ensures Takes(p, s, Exec(d, s), y, x, j, x)
  {
    forall b: nat | b < p.elem
      ensures Pixel(p, Exec(d, s), y, x, b) == Pixel(p, s, j, x, b)
    {
      RowPixel(p, s, d, j, k, n, z, y, x, b);
    }
  }

  lemma RowKept(p: PadInfo, s: Store, d: Desc, j: nat, k: nat, n: nat, y: nat, x: nat, wide: nat)
    requires Laid(p) && CopiesRow(p, d, j, k, n) && y < p.H() && x < p.W() && !(k <= y < k + n) && wide == p.W() * p.elem
    ensures Takes(p, s, Exec(d, s), y, x, y, x)
  {
    RowsMove(p, s, d, j, k, n, wide);
    forall b: nat | b < p.elem
      ensures Pixel(p, Exec(d, s), y, x, b) == Pixel(p, s, y, x, b)
    {
      var a := p.Out().At(y, x, b);
      OutAt(p, y, x, b, y, x, b);
      if Writes(Lines(p, k, p.Row()), n, 1, wide, a) {
        var y', x', b' := RowsWrite(p, k, n, wide, a);
        OutAt(p, y, x, b, y', x', b');
      }
    }
  }

  lemma RowTakes(p: PadInfo, s: Store, d: Desc, j: nat, k: nat, n: nat, y: nat, x: nat)
    requires Laid(p) && CopiesRow(p, d, j, k, n) && y < p.H() && x < p.W()
    ensures Takes(p, s, Exec(d, s), y, x, Spread(j, k, n, y), x)
  {
    if k <= y < k + n {
      RowCopied(p, s, d, j, k, n, y - k, y, x);
    } else {
      RowKept(p, s, d, j, k, n, y, x, p.W() * p.elem);
    }
  }

  lemma RowOutside(p: PadInfo, s: Store, d: Desc, j: nat, k: nat, n: nat, wide: nat)
    requires Laid(p) && CopiesRow(p, d, j, k, n) && wide == p.W() * p.elem
    ensures Outside(p, s, Exec(d, s))
  {
    RowsMove(p, s, d, j, k, n, wide);
    forall a | 0 <= a < MEMORY && !Writes(p.Out(), p.H(), p.W(), p.elem, a)
      ensures Exec(d, s)[a] == s[a]
    {
      if Writes(Lines(p, k, p.Row()), n, 1, wide, a) {
        var y, x, b := RowsWrite(p, k, n, wide, a);
      }
    }
  }
}
