// What one eDMA descriptor does to memory.
//
// A descriptor names two three-level address generators. The read side yields a
// byte stream, the write side consumes it, one byte at a time and in order.
// Addresses and strides are 32-bit and wrap. A side whose tmp-buffer flag is
// set addresses the separate 16 KiB internal buffer instead of memory.
module Machine {
  import opened Words

  const MEMORY: int := 0x1_0000_0000
  const TMP_BYTES: int := 0x4000
  const CELLS: int := 0x1_0000_4000

  // Cells 0 .. 2^32-1 are memory; the next 16 KiB are the internal buffer.
  type Store = s: seq<Byte> | |s| == CELLS ghost witness seq(CELLS, i => 0)

  // xs bytes per line, ys lines `pitch` apart, zs slabs `slab` apart.
  datatype Side = Side(tmp: bool, base: Word, pitch: Word, slab: Word, xs: nat, ys: nat, zs: nat) {
    function Count(): nat {
      xs * ys * zs
    }

    function Space(): int {
      if tmp then MEMORY else 0
    }

    // The cell of stream byte n. A buffer address past 16 KiB names no cell.
    function Cell(n: nat): (cell: nat)
      requires 0 < xs && 0 < ys
    {
      Space() + Wrap(base + n / xs / ys * slab + n / xs % ys * pitch + n % xs)
    }
  }

  // swap: every aligned group of four stream bytes is reversed on the way in.
  datatype Desc = Copy(src: Side, dst: Side, swap: bool) | Fill(word: Word, dst: Side)

  function Get(s: Store, cell: int): Byte {
    if 0 <= cell < CELLS then s[cell] else 0
  }

  function Put(s: Store, cell: nat, v: Byte): Store {
    if cell < CELLS then s[cell := v] else s
  }

  function Swapped(n: nat): (k: nat)
    ensures k / 4 == n / 4
  {
    n / 4 * 4 + (3 - n % 4)
  }

  function ByteOf(word: Word, k: nat): (b: Byte)
    requires k < 4
  {
    if k == 0 then word % 0x100
    else if k == 1 then word / 0x100 % 0x100
    else if k == 2 then word / 0x1_0000 % 0x100
    else word / 0x100_0000
  }

  predicate Runnable(d: Desc) {
    && 0 < d.dst.xs && 0 < d.dst.ys
    && (d.Copy? ==>
          && 0 < d.src.xs && 0 < d.src.ys
          && d.src.Count() == d.dst.Count()
          && (d.swap ==> d.dst.Count() % 4 == 0))
  }

  // Where a stream byte comes from.
  datatype Source = From(cell: nat) | Const(value: Byte)

  function Sources(d: Desc): (r: seq<Source>)
    requires Runnable(d)
    ensures |r| == d.dst.Count()
  {
    seq(d.dst.Count(), n requires 0 <= n < d.dst.Count() =>
      if d.Fill? then Const(ByteOf(d.word, n % 4))
      else From(d.src.Cell(if d.swap then Swapped(n) else n)))
  }

  function Targets(d: Desc): (w: seq<nat>)
    requires Runnable(d)
    ensures |w| == d.dst.Count()
  {
    seq(d.dst.Count(), n requires 0 <= n < d.dst.Count() => d.dst.Cell(n))
  }

  function Load(s: Store, r: Source): Byte {
    if r.From? then Get(s, r.cell) else r.value
  }

  // The store after the first n bytes of the stream have moved.
  function Move(s: Store, r: seq<Source>, w: seq<nat>, n: nat): Store
    requires n <= |r| == |w|
  {
    if n == 0 then s
    else
      var t := Move(s, r, w, n - 1);
      Put(t, w[n - 1], Load(t, r[n - 1]))
  }

  // A descriptor whose two sides disagree on the byte count moves nothing.
  function Exec(d: Desc, s: Store): Store {
    if Runnable(d) then Move(s, Sources(d), Targets(d), d.dst.Count()) else s
  }

  function ExecAll(p: seq<Desc>, s: Store): Store {
    if p == [] then s else ExecAll(p[1..], Exec(p[0], s))
  }

  lemma {:induction false} ExecAllConcat(p: seq<Desc>, q: seq<Desc>, s: Store)
    ensures ExecAll(p + q, s) == ExecAll(q, ExecAll(p, s))
    decreases |p|
  {
    if p == [] {
      assert p + q == q;
    } else {
      assert (p + q)[0] == p[0] && (p + q)[1..] == p[1..] + q;
      ExecAllConcat(p[1..], q, Exec(p[0], s));
    }
  }

  // Stream position of byte x of line y of slab z.
  lemma CellAt(s: Side, z: nat, y: nat, x: nat)
    requires x < s.xs && y < s.ys
    ensures 0 <= (z * s.ys + y) * s.xs + x
    ensures s.Cell((z * s.ys + y) * s.xs + x) == s.Space() + Wrap(s.base + z * s.slab + y * s.pitch + x)
  {
    DivModUnique(s.xs, z * s.ys + y, x);
    DivModUnique(s.ys, z, y);
  }

  // As CellAt, for a side whose base and strides are wrapped integers and whose
  // true address lies in 32 bits.
  lemma CellAtInt(s: Side, base: int, pitch: int, slab: int, z: nat, y: nat, x: nat)
    requires x < s.xs && y < s.ys
    requires s.base == Wrap(base) && s.pitch == Wrap(pitch) && s.slab == Wrap(slab)
    requires 0 <= base + z * slab + y * pitch + x < MEMORY
    ensures 0 <= (z * s.ys + y) * s.xs + x
    ensures s.Cell((z * s.ys + y) * s.xs + x) == s.Space() + base + z * slab + y * pitch + x
  {
    CellAt(s, z, y, x);
    WrapLinear(base, pitch, slab, y, z, x);
  }

  // No byte is written twice, and none is read that the stream writes.
  ghost predicate Separate(r: seq<Source>, w: seq<nat>) {
    && |r| == |w|
    && (forall i, j :: 0 <= i < j < |w| ==> w[i] != w[j])
    && (forall i, j :: 0 <= i < |r| && 0 <= j < |w| && r[i].From? ==> r[i].cell != w[j])
  }

  lemma {:induction false} MoveEffect(s: Store, r: seq<Source>, w: seq<nat>, n: nat)
    requires n <= |r| && Separate(r, w)
    ensures forall i :: 0 <= i < n && w[i] < CELLS ==> Move(s, r, w, n)[w[i]] == Load(s, r[i])
    ensures forall a :: 0 <= a < CELLS && a !in w[..n] ==> Move(s, r, w, n)[a] == s[a]
  {
    if n == 0 {
    } else {
      MoveEffect(s, r, w, n - 1);
      assert w[..n] == w[..n - 1] + [w[n - 1]];
      var t := Move(s, r, w, n - 1);
      assert r[n - 1].From? && r[n - 1].cell < CELLS ==> r[n - 1].cell !in w[..n - 1];
      assert Load(t, r[n - 1]) == Load(s, r[n - 1]);
    }
  }

  lemma {:induction false} MoveKeeps(s: Store, r: seq<Source>, w: seq<nat>, n: nat, a: nat)
    requires n <= |r| == |w| && a < CELLS && forall i :: 0 <= i < n ==> w[i] != a
    ensures Move(s, r, w, n)[a] == s[a]
  {
    if n == 0 {
    } else {
      MoveKeeps(s, r, w, n - 1, a);
    }
  }

  // Some byte of the stream goes to this cell.
  ghost predicate WritesCell(d: Desc, a: int)
    requires Runnable(d)
  {
    exists n: nat :: n < d.dst.Count() && d.dst.Cell(n) == a
  }

  // Whatever the lanes of the stream do to each other, other cells stay.
  lemma ExecKeeps(d: Desc, s: Store, a: nat)
    requires a < CELLS && (Runnable(d) ==> !WritesCell(d, a))
    ensures Exec(d, s)[a] == s[a]
  {
    if Runnable(d) {
      MoveKeeps(s, Sources(d), Targets(d), d.dst.Count(), a);
    }
  }

  // No descriptor of the program writes the cell.
  ghost predicate Misses(q: seq<Desc>, a: int) {
    forall i :: 0 <= i < |q| && Runnable(q[i]) ==> !WritesCell(q[i], a)
  }

  lemma {:induction false} ExecAllKeeps(q: seq<Desc>, s: Store, a: nat)
    requires a < CELLS && Misses(q, a)
    ensures ExecAll(q, s)[a] == s[a]
    decreases |q|
  {
    if q == [] {
    } else {
      ExecKeeps(q[0], s, a);
      assert forall i :: 0 <= i < |q| - 1 ==> q[1..][i] == q[i + 1];
      ExecAllKeeps(q[1..], Exec(q[0], s), a);
    }
  }

  ghost predicate SameBut(s: Store, s': Store, a: int) {
    forall c :: 0 <= c < CELLS && c != a ==> s[c] == s'[c]
  }

  // Two stores that differ in a cell the stream does not read still differ only
  // there, and no longer once it is written.
  lemma {:induction false} MoveAgree(s: Store, s': Store, r: seq<Source>, w: seq<nat>, n: nat, a: nat)
    requires n <= |r| == |w| && a < CELLS && SameBut(s, s', a) && From(a) !in r
    ensures SameBut(Move(s, r, w, n), Move(s', r, w, n), a)
    ensures s[a] == s'[a] || a in w[..n] ==> Move(s, r, w, n)[a] == Move(s', r, w, n)[a]
  {
    if n == 0 {
    } else {
      MoveAgree(s, s', r, w, n - 1, a);
      assert r[n - 1] in r;
      assert w[..n] == w[..n - 1] + [w[n - 1]];
      var t, t' := Move(s, r, w, n - 1), Move(s', r, w, n - 1);
      assert Load(t, r[n - 1]) == Load(t', r[n - 1]);
    }
  }

  ghost predicate ReadsCell(d: Desc, a: nat)
    requires Runnable(d)
  {
    From(a) in Sources(d)
  }

  lemma ExecAgree(d: Desc, s: Store, s': Store, a: nat)
    requires a < CELLS && SameBut(s, s', a) && (Runnable(d) ==> !ReadsCell(d, a))
    ensures SameBut(Exec(d, s), Exec(d, s'), a)
    ensures s[a] == s'[a] || (Runnable(d) && WritesCell(d, a)) ==> Exec(d, s)[a] == Exec(d, s')[a]
  {
    if Runnable(d) {
      var w, N := Targets(d), d.dst.Count();
      MoveAgree(s, s', Sources(d), w, N, a);
      if WritesCell(d, a) {
        var n: nat :| n < N && d.dst.Cell(n) == a;
        assert w[n] == a && w[..N] == w;
      }
    }
  }

  ghost predicate Ignores(q: seq<Desc>, a: nat) {
    forall i :: 0 <= i < |q| && Runnable(q[i]) ==> !ReadsCell(q[i], a)
  }

  lemma MissesStep(q: seq<Desc>, a: int)
    requires q != []
    ensures Misses(q, a) <==> (Runnable(q[0]) ==> !WritesCell(q[0], a)) && Misses(q[1..], a)
  {
    assert forall i :: 0 <= i < |q| - 1 ==> q[1..][i] == q[i + 1];
    if Misses(q[1..], a) {
      forall i | 0 < i < |q| && Runnable(q[i])
        ensures !WritesCell(q[i], a)
      {
        assert q[i] == q[1..][i - 1];
      }
    }
  }

  lemma {:induction false} ExecAllAgree(q: seq<Desc>, s: Store, s': Store, a: nat)
    requires a < CELLS && SameBut(s, s', a) && Ignores(q, a)
    ensures SameBut(ExecAll(q, s), ExecAll(q, s'), a)
    ensures s[a] == s'[a] || !Misses(q, a) ==> ExecAll(q, s)[a] == ExecAll(q, s')[a]
    decreases |q|
  {
    if q == [] {
    } else {
      ExecAgree(q[0], s, s', a);
      assert forall i :: 0 <= i < |q| - 1 ==> q[1..][i] == q[i + 1];
      MissesStep(q, a);
      ExecAllAgree(q[1..], Exec(q[0], s), Exec(q[0], s'), a);
    }
  }

  // Whatever goes to a zone of zeros, or to the cell c, comes from the zone.
  ghost predicate Fed(d: Desc, lo: int, hi: int, c: int)
    requires Runnable(d)
  {
    forall n: nat :: n < d.dst.Count() && (lo <= d.dst.Cell(n) < hi || d.dst.Cell(n) == c) ==> Sources(d)[n].From? && lo <= Sources(d)[n].cell < hi
  }

  ghost predicate Zeros(s: Store, lo: int, hi: int) {
    forall a :: lo <= a < hi ==> Get(s, a) == 0
  }

  lemma {:induction false} MoveZone(d: Desc, s: Store, lo: int, hi: int, c: nat, n: nat)
    requires Runnable(d) && n <= d.dst.Count() && Fed(d, lo, hi, c) && Zeros(s, lo, hi) && c < CELLS
    ensures Zeros(Move(s, Sources(d), Targets(d), n), lo, hi)
    ensures s[c] == 0 || c in Targets(d)[..n] ==> Move(s, Sources(d), Targets(d), n)[c] == 0
  {
    if n == 0 {
    } else {
      var m := n - 1;
      MoveZone(d, s, lo, hi, c, m);
      MoveZoneStep(d, s, lo, hi, c, m, n, Move(s, Sources(d), Targets(d), m));
    }
  }

  lemma MoveZoneStep(d: Desc, s: Store, lo: int, hi: int, c: nat, m: nat, n: nat, t: Store)
    requires Runnable(d) && n == m + 1 <= d.dst.Count() && Fed(d, lo, hi, c) && c < CELLS && Zeros(t, lo, hi)
    requires t == Move(s, Sources(d), Targets(d), m) && (s[c] == 0 || c in Targets(d)[..m] ==> t[c] == 0)
    ensures Zeros(Move(s, Sources(d), Targets(d), n), lo, hi)
    ensures s[c] == 0 || c in Targets(d)[..n] ==> Move(s, Sources(d), Targets(d), n)[c] == 0
  {
    var r, w := Sources(d), Targets(d);
    assert w[..n] == w[..m] + [w[m]];
    assert d.dst.Cell(m) == w[m];
    PutZone(t, lo, hi, c, w[m], r[m]);
  }

  lemma PutZone(t: Store, lo: int, hi: int, c: nat, a: nat, r: Source)
    requires Zeros(t, lo, hi) && c < CELLS
    requires lo <= a < hi || a == c ==> r.From? && lo <= r.cell < hi
    ensures Zeros(Put(t, a, Load(t, r)), lo, hi)
    ensures t[c] == 0 || a == c ==> Put(t, a, Load(t, r))[c] == 0
  {
    var u := Put(t, a, Load(t, r));
    forall b | lo <= b < hi
      ensures Get(u, b) == 0
    {
      assert b == a || Get(u, b) == Get(t, b);
    }
  }

  // A zone of zeros stays one, and the cell c is zero if it was or is written.
  lemma ExecZone(d: Desc, s: Store, lo: int, hi: int, c: nat)
    requires Zeros(s, lo, hi) && c < CELLS && (Runnable(d) ==> Fed(d, lo, hi, c))
    ensures Zeros(Exec(d, s), lo, hi)
    ensures s[c] == 0 || (Runnable(d) && WritesCell(d, c)) ==> Exec(d, s)[c] == 0
  {
    if Runnable(d) {
      var w, N := Targets(d), d.dst.Count();
      MoveZone(d, s, lo, hi, c, N);
      assert w[..N] == w;
      if WritesCell(d, c) {
        var n: nat :| n < N && d.dst.Cell(n) == c;
        assert w[n] == c;
      }
    }
  }

  lemma {:induction false} ExecAllZone(q: seq<Desc>, s: Store, lo: int, hi: int, c: nat)
    requires Zeros(s, lo, hi) && c < CELLS && forall i :: 0 <= i < |q| && Runnable(q[i]) ==> Fed(q[i], lo, hi, c)
    ensures Zeros(ExecAll(q, s), lo, hi)
    ensures s[c] == 0 || !Misses(q, c) ==> ExecAll(q, s)[c] == 0
    decreases |q|
  {
    if q == [] {
    } else {
      ExecZone(q[0], s, lo, hi, c);
      assert forall i :: 0 <= i < |q| - 1 ==> q[1..][i] == q[i + 1];
      MissesStep(q, c);
      ExecAllZone(q[1..], Exec(q[0], s), lo, hi, c);
    }
  }

  // An affine layout of pixels: byte b of pixel (y, x).
  datatype Grid = Grid(space: int, base: int, row: int, col: int) {
    function At(y: nat, x: nat, b: nat): (cell: int) {
      space + base + y * row + x * col + b
    }
  }

  ghost predicate InSpace(g: Grid, h: nat, w: nat, c: nat) {
    forall y: nat, x: nat, b: nat :: y < h && x < w && b < c ==> 0 <= g.At(y, x, b) - g.space < MEMORY
  }

  // The side streams the bytes of an h-by-w grid of c-byte pixels in row order.
  ghost predicate Streams(s: Side, g: Grid, h: nat, w: nat, c: nat) {
    && 0 < s.xs && 0 < s.ys
    && s.Count() == c * (w * h)
    && forall y: nat, x: nat, b: nat :: y < h && x < w && b < c ==> s.Cell(Lin(w, c, y, x, b)) == g.At(y, x, b)
  }

  // One pixel per line, one pixel row per slab.
  lemma StreamsPixels(s: Side, g: Grid, h: nat, w: nat, c: nat)
    requires s.xs == c && s.ys == w && s.zs == h && 0 < c && 0 < w
    requires s.Space() == g.space
    requires s.base == Wrap(g.base) && s.pitch == Wrap(g.col) && s.slab == Wrap(g.row)
    requires InSpace(g, h, w, c)
    ensures Streams(s, g, h, w, c)
  {
    AreaRows(c, w, h);
    forall y: nat, x: nat, b: nat | y < h && x < w && b < c
      ensures s.Cell(Lin(w, c, y, x, b)) == g.At(y, x, b)
    {
      assert 0 <= g.At(y, x, b) - g.space < MEMORY;
      CellAtInt(s, g.base, g.col, g.row, y, x, b);
    }
  }

  // One whole pixel row per line.
  lemma StreamsRows(s: Side, g: Grid, h: nat, w: nat, c: nat)
    requires s.xs == c * w && s.ys == h && s.zs == 1 && 0 < c && 0 < w && 0 < h
    requires s.Space() == g.space && g.col == c
    requires s.base == Wrap(g.base) && s.pitch == Wrap(g.row)
    requires InSpace(g, h, w, c)
    ensures Streams(s, g, h, w, c)
  {
    AreaRows(c, w, h);
    MulLe(1, w, c);
    forall y: nat, x: nat, b: nat | y < h && x < w && b < c
      ensures s.Cell(Lin(w, c, y, x, b)) == g.At(y, x, b)
    {
      assert 0 <= g.At(y, x, b) - g.space < MEMORY;
      LineByte(c, w, x, b);
      LineCell(s, g.base, g.row, y, x * c + b);
      RowMajor(c, w, y, x);
    }
  }

  // Byte k of line y of a side with one slab.
  lemma LineCell(s: Side, base: int, pitch: int, y: nat, k: nat)
    requires k < s.xs && y < s.ys
    requires s.base == Wrap(base) && s.pitch == Wrap(pitch)
    requires 0 <= base + y * pitch + k < MEMORY
    ensures 0 <= y * s.xs + k
    ensures s.Cell(y * s.xs + k) == s.Space() + base + y * pitch + k
  {
    CellAtInt(s, base, pitch, s.slab, 0, y, k);
    assert (0 * s.ys + y) * s.xs + k == y * s.xs + k;
  }

  ghost predicate Injective(g: Grid, h: nat, w: nat, c: nat) {
    forall y: nat, x: nat, b: nat, y': nat, x': nat, b': nat ::
      y < h && x < w && b < c && y' < h && x' < w && b' < c && g.At(y, x, b) == g.At(y', x', b')
      ==> y == y' && x == x' && b == b'
  }

  ghost predicate Apart(g: Grid, g': Grid, h: nat, w: nat, c: nat) {
    forall y: nat, x: nat, b: nat, y': nat, x': nat, b': nat ::
      y < h && x < w && b < c && y' < h && x' < w && b' < c ==> g.At(y, x, b) != g'.At(y', x', b')
  }

  ghost predicate Writes(g: Grid, h: nat, w: nat, c: nat, a: int) {
    exists y: nat, x: nat, b: nat :: y < h && x < w && b < c && g.At(y, x, b) == a
  }

  lemma StreamCell(s: Side, g: Grid, h: nat, w: nat, c: nat, n: nat) returns (y: nat, x: nat, b: nat)
    requires Streams(s, g, h, w, c) && n < s.Count()
    ensures y < h && x < w && b < c && n == Lin(w, c, y, x, b)
    ensures s.Cell(n) == g.At(y, x, b)
  {
    y, x, b := LinSplit(w, h, c, n);
  }

  // A stream onto a grid writes no other cell, even where the grid meets itself.
  lemma StreamMisses(d: Desc, to: Grid, h: nat, w: nat, c: nat, a: int)
    requires Runnable(d) && Streams(d.dst, to, h, w, c) && !Writes(to, h, w, c, a)
    ensures !WritesCell(d, a)
  {
    if WritesCell(d, a) {
      var n: nat :| n < d.dst.Count() && d.dst.Cell(n) == a;
      var y, x, b := StreamCell(d.dst, to, h, w, c, n);
    }
  }

  // A copy between two grids of the same shape moves every pixel byte to its
  // place and leaves every other cell alone.
  lemma PixelMove(d: Desc, s: Store, from: Grid, to: Grid, h: nat, w: nat, c: nat)
    requires d.Copy? && !d.swap
    requires Streams(d.src, from, h, w, c) && Streams(d.dst, to, h, w, c)
    requires Injective(to, h, w, c) && Apart(from, to, h, w, c)
    ensures forall y: nat, x: nat, b: nat :: y < h && x < w && b < c && to.At(y, x, b) < CELLS ==>
              Get(Exec(d, s), to.At(y, x, b)) == Get(s, from.At(y, x, b))
    ensures forall a :: 0 <= a < CELLS && !Writes(to, h, w, c, a) ==> Exec(d, s)[a] == s[a]
  {
    var r, t := Sources(d), Targets(d);
    var N := d.dst.Count();
    forall i, j | 0 <= i < j < N
      ensures t[i] != t[j]
    {
      var y, x, b := StreamCell(d.dst, to, h, w, c, i);
      var y', x', b' := StreamCell(d.dst, to, h, w, c, j);
    }
    forall i, j | 0 <= i < N && 0 <= j < N
      ensures r[i].cell != t[j]
    {
      var y, x, b := StreamCell(d.src, from, h, w, c, i);
      var y', x', b' := StreamCell(d.dst, to, h, w, c, j);
    }
    MoveEffect(s, r, t, N);
    forall y: nat, x: nat, b: nat | y < h && x < w && b < c && to.At(y, x, b) < CELLS
      ensures Get(Exec(d, s), to.At(y, x, b)) == Get(s, from.At(y, x, b))
    {
      LinBound(w, h, c, y, x, b);
      var n := Lin(w, c, y, x, b);
      assert t[n] == to.At(y, x, b) && r[n] == From(from.At(y, x, b));
    }
    forall a | 0 <= a < CELLS && !Writes(to, h, w, c, a)
      ensures Exec(d, s)[a] == s[a]
    {
      forall i | 0 <= i < N
        ensures t[i] != a
      {
        var y, x, b := StreamCell(d.dst, to, h, w, c, i);
      }
      assert a !in t[..N];
    }
  }

  lemma SwapSeparate(d: Desc, from: Grid, to: Grid, h: nat, w: nat)
    requires d.Copy? && d.swap && Runnable(d)
    requires Streams(d.src, from, h, w, 4) && Streams(d.dst, to, h, w, 4)
    requires Injective(to, h, w, 4) && Apart(from, to, h, w, 4)
    ensures Separate(Sources(d), Targets(d))
  {
    var r, t, N := Sources(d), Targets(d), d.dst.Count();
    forall i, j | 0 <= i < j < N
      ensures t[i] != t[j]
    {
      var y, x, b := StreamCell(d.dst, to, h, w, 4, i);
      var y', x', b' := StreamCell(d.dst, to, h, w, 4, j);
    }
    forall i, j | 0 <= i < N && 0 <= j < N
      ensures r[i].cell != t[j]
    {
      SwappedBound(i, w * h);
      var y, x, b := StreamCell(d.src, from, h, w, 4, Swapped(i));
      var y', x', b' := StreamCell(d.dst, to, h, w, 4, j);
    }
  }

  lemma SwappedBound(n: nat, k: nat)
    requires n < 4 * k
    ensures Swapped(n) < 4 * k
  {
  }

  // With four-byte pixels the swapper reverses the bytes of every pixel.
  lemma PixelSwap(d: Desc, s: Store, from: Grid, to: Grid, h: nat, w: nat)
    requires d.Copy? && d.swap
    requires Streams(d.src, from, h, w, 4) && Streams(d.dst, to, h, w, 4)
    requires Injective(to, h, w, 4) && Apart(from, to, h, w, 4)
    ensures forall y: nat, x: nat, b: nat :: y < h && x < w && b < 4 && to.At(y, x, b) < CELLS ==>
              Get(Exec(d, s), to.At(y, x, b)) == Get(s, from.At(y, x, 3 - b))
    ensures forall a :: 0 <= a < CELLS && !Writes(to, h, w, 4, a) ==> Exec(d, s)[a] == s[a]
  {
    assert d.dst.Count() == 4 * (w * h) && Runnable(d);
    var r, t, N := Sources(d), Targets(d), d.dst.Count();
    SwapSeparate(d, from, to, h, w);
    MoveEffect(s, r, t, N);
    forall y: nat, x: nat, b: nat | y < h && x < w && b < 4 && to.At(y, x, b) < CELLS
      ensures Get(Exec(d, s), to.At(y, x, b)) == Get(s, from.At(y, x, 3 - b))
    {
      SwapPlace(d, from, to, h, w, y, x, b, Lin(w, 4, y, x, b));
    }
    forall a | 0 <= a < CELLS && !Writes(to, h, w, 4, a)
      ensures Exec(d, s)[a] == s[a]
    {
      SwapMisses(d, to, h, w, a);
    }
  }

  // Place n of the stream.
  lemma SwapPlace(d: Desc, from: Grid, to: Grid, h: nat, w: nat, y: nat, x: nat, b: nat, n: nat)
    requires d.Copy? && d.swap && Runnable(d) && Streams(d.src, from, h, w, 4) && Streams(d.dst, to, h, w, 4)
    requires y < h && x < w && b < 4 && n == Lin(w, 4, y, x, b)
    ensures n < |Targets(d)| == |Sources(d)| && Targets(d)[n] == to.At(y, x, b) && Sources(d)[n] == From(from.At(y, x, 3 - b))
  {
    LinBound(w, h, 4, y, x, b);
    LinBound(w, h, 4, y, x, 3 - b);
    SwappedLin(w, y, x, b);
  }

  lemma SwapMisses(d: Desc, to: Grid, h: nat, w: nat, a: int)
    requires d.Copy? && d.swap && Runnable(d) && Streams(d.dst, to, h, w, 4) && !Writes(to, h, w, 4, a)
    ensures a !in Targets(d)
  {
    var t := Targets(d);
    forall i | 0 <= i < |t|
      ensures t[i] != a
    {
      var y, x, b := StreamCell(d.dst, to, h, w, 4, i);
    }
  }

  lemma SwappedLin(w: nat, y: nat, x: nat, b: nat)
    requires b < 4
    ensures Swapped(Lin(w, 4, y, x, b)) == Lin(w, 4, y, x, 3 - b)
  {
    DivModUnique(4, y * w + x, b);
  }

  // A fill puts stream byte n of the repeated word at its place.
  lemma PixelFill(d: Desc, s: Store, to: Grid, h: nat, w: nat, c: nat)
    requires d.Fill? && Streams(d.dst, to, h, w, c) && Injective(to, h, w, c)
    ensures forall y: nat, x: nat, b: nat :: y < h && x < w && b < c && to.At(y, x, b) < CELLS ==>
              Get(Exec(d, s), to.At(y, x, b)) == ByteOf(d.word, Lin(w, c, y, x, b) % 4)
    ensures forall a :: 0 <= a < CELLS && !Writes(to, h, w, c, a) ==> Exec(d, s)[a] == s[a]
  {
    var r, t, N := Sources(d), Targets(d), d.dst.Count();
    forall i, j | 0 <= i < j < N
      ensures t[i] != t[j]
    {
      var y, x, b := StreamCell(d.dst, to, h, w, c, i);
      var y', x', b' := StreamCell(d.dst, to, h, w, c, j);
    }
    MoveEffect(s, r, t, N);
    forall y: nat, x: nat, b: nat | y < h && x < w && b < c && to.At(y, x, b) < CELLS
      ensures Get(Exec(d, s), to.At(y, x, b)) == ByteOf(d.word, Lin(w, c, y, x, b) % 4)
    {
      LinBound(w, h, c, y, x, b);
      var n := Lin(w, c, y, x, b);
      assert t[n] == to.At(y, x, b) && r[n] == Const(ByteOf(d.word, n % 4));
    }
    forall a | 0 <= a < CELLS && !Writes(to, h, w, c, a)
      ensures Exec(d, s)[a] == s[a]
    {
      forall i | 0 <= i < N
        ensures t[i] != a
      {
        var y, x, b := StreamCell(d.dst, to, h, w, c, i);
      }
      assert a !in t[..N];
    }
  }

  ghost predicate Within(g: Grid, h: nat, w: nat, c: nat, lo: int, hi: int) {
    forall y: nat, x: nat, b: nat :: y < h && x < w && b < c ==> lo <= g.At(y, x, b) < hi
  }

  lemma WithinSpace(g: Grid, h: nat, w: nat, c: nat, lo: int, hi: int)
    requires Within(g, h, w, c, lo, hi) && g.space <= lo && hi <= g.space + MEMORY
    ensures InSpace(g, h, w, c)
  {
    forall y: nat, x: nat, b: nat | y < h && x < w && b < c
      ensures 0 <= g.At(y, x, b) - g.space < MEMORY
    {
    }
  }

  lemma WithinApart(g: Grid, g': Grid, h: nat, w: nat, c: nat, lo: int, hi: int, lo': int, hi': int)
    requires Within(g, h, w, c, lo, hi) && Within(g', h, w, c, lo', hi')
    requires hi <= lo' || hi' <= lo
    ensures Apart(g, g', h, w, c)
  {
  }

  lemma WithinWrites(g: Grid, h: nat, w: nat, c: nat, lo: int, hi: int, a: int)
    requires Within(g, h, w, c, lo, hi) && Writes(g, h, w, c, a)
    ensures lo <= a < hi
  {
  }

  // Pixel rows `row` bytes apart.
  lemma RowsWithin(g: Grid, h: nat, w: nat, c: nat)
    requires g.col == c && 0 <= g.row
    ensures Within(g, h, w, c, g.space + g.base, g.space + g.base + (h - 1) * g.row + c * w)
  {
    forall y: nat, x: nat, b: nat | y < h && x < w && b < c
      ensures g.space + g.base <= g.At(y, x, b) < g.space + g.base + (h - 1) * g.row + c * w
    {
      LineByte(c, w, x, b);
      MulLe(y, h - 1, g.row);
      MulLe(0, y, g.row);
    }
  }

  lemma RowsInjective(g: Grid, h: nat, w: nat, c: nat)
    requires g.col == c && c * w <= g.row
    ensures Injective(g, h, w, c)
  {
    forall y: nat, x: nat, b: nat, y': nat, x': nat, b': nat |
      y < h && x < w && b < c && y' < h && x' < w && b' < c && g.At(y, x, b) == g.At(y', x', b')
      ensures y == y' && x == x' && b == b'
    {
      LineByte(c, w, x, b);
      LineByte(c, w, x', b');
      DivModUnique(g.row, y, x * c + b);
      DivModUnique(g.row, y', x' * c + b');
      DivModUnique(c, x, b);
      DivModUnique(c, x', b');
    }
  }
}
