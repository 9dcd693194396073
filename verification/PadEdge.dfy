// Edge padding: copy the image to the middle, then spread its border columns,
// then its border rows, all inside the output buffer.
module PadEdge {
  import opened Machine
  import opened PadSpec

  // ----- the middle -----

  function Inner(p: PadInfo): Grid {
    Grid(0, p.dst + (p.top * p.dstStrideX + p.left) * p.elem, p.Row(), p.elem)
  }

  lemma InnerAt(p: PadInfo, y: nat, x: nat, b: nat, y': nat, x': nat)
    requires y' == p.top + y && x' == p.left + x
    ensures Inner(p).At(y, x, b) == p.Out().At(y', x', b)
  {
    var e, d := p.elem as int, p.dstStrideX as int;
    assert (p.top * d + p.left) * e == p.top * (d * e) + p.left * e;
    assert y' * (d * e) == p.top * (d * e) + y * (d * e);
    assert x' * e == p.left * e + x * e;
  }

  ghost predicate CopiesInner(p: PadInfo, d: Desc) {
    && d.Copy? && !d.swap && Streams(d.src, p.In(), p.sy, p.sx, p.elem)
    && Streams(d.dst, Inner(p), p.sy, p.sx, p.elem)
  }

  lemma InnerIn(p: PadInfo)
    requires Laid(p)
    ensures InSpace(Inner(p), p.sy, p.sx, p.elem)
    ensures Injective(Inner(p), p.sy, p.sx, p.elem) && Apart(p.In(), Inner(p), p.sy, p.sx, p.elem)
  {
    forall y: nat, x: nat, b: nat, y': nat, x': nat, b': nat |
      y < p.sy && x < p.sx && b < p.elem && y' < p.sy && x' < p.sx && b' < p.elem
      ensures 0 <= Inner(p).At(y, x, b) < MEMORY
      ensures Inner(p).At(y, x, b) == Inner(p).At(y', x', b') ==> y == y' && x == x' && b == b'
      ensures p.In().At(y, x, b) != Inner(p).At(y', x', b')
    {
      InnerAt(p, y, x, b, p.top + y, p.left + x);
      InnerAt(p, y', x', b', p.top + y', p.left + x');
      OutAt(p, p.top + y, p.left + x, b, p.top + y', p.left + x', b');
    }
  }

  lemma InnerMove(p: PadInfo, s: Store, d: Desc)
    requires Laid(p) && CopiesInner(p, d)
    ensures forall y: nat, x: nat, b: nat :: y < p.sy && x < p.sx && b < p.elem && Inner(p).At(y, x, b) < CELLS ==>
              Get(Exec(d, s), Inner(p).At(y, x, b)) == Get(s, p.In().At(y, x, b))
    ensures forall a :: 0 <= a < CELLS && !Writes(Inner(p), p.sy, p.sx, p.elem, a) ==> Exec(d, s)[a] == s[a]
  {
    InnerIn(p);
    PixelMove(d, s, p.In(), Inner(p), p.sy, p.sx, p.elem);
  }

  lemma InnerByte(p: PadInfo, s: Store, d: Desc, y: nat, x: nat, b: nat, y': nat, x': nat)
    requires Laid(p) && CopiesInner(p, d) && y < p.sy && x < p.sx && b < p.elem && y' == p.top + y && x' == p.left + x
    ensures Pixel(p, Exec(d, s), y', x', b) == Get(s, p.In().At(y, x, b))
  {
    InnerMove(p, s, d);
    InnerAt(p, y, x, b, y', x');
    OutAt(p, y', x', b, y', x', b);
    assert Inner(p).At(y, x, b) < CELLS;
  }

  lemma InnerWrite(p: PadInfo, a: int) returns (y: nat, x: nat, b: nat)
    requires Writes(Inner(p), p.sy, p.sx, p.elem, a)
    ensures p.top <= y < p.top + p.sy && p.left <= x < p.left + p.sx && b < p.elem && p.Out().At(y, x, b) == a
  {
    var y': nat, x': nat, b': nat :| y' < p.sy && x' < p.sx && b' < p.elem && Inner(p).At(y', x', b') == a;
    y, x, b := p.top + y', p.left + x', b';
    InnerAt(p, y', x', b', y, x);
  }

  lemma InnerOutside(p: PadInfo, s: Store, d: Desc)
    requires Laid(p) && CopiesInner(p, d)
    ensures Outside(p, s, Exec(d, s))
  {
    InnerMove(p, s, d);
    forall a | 0 <= a < MEMORY && !Writes(p.Out(), p.H(), p.W(), p.elem, a)
      ensures Exec(d, s)[a] == s[a]
    {
      if Writes(Inner(p), p.sy, p.sx, p.elem, a) {
        var y, x, b := InnerWrite(p, a);
      }
    }
  }

  // ----- an empty side -----

  // One byte within the internal buffer: what a side without padding becomes.
  predicate Idle(d: Desc) {
    && d.Copy? && !d.swap && d.src.tmp && d.dst.tmp
    && d.src.xs == d.src.ys == d.src.zs == 1 && d.dst.xs == d.dst.ys == d.dst.zs == 1
  }

  lemma IdleKeeps(d: Desc, s: Store, a: int)
    requires Idle(d) && 0 <= a < MEMORY
    ensures Exec(d, s)[a] == s[a]
  {
    var w, r := Targets(d), Sources(d);
    assert w[0] == d.dst.Cell(0) >= MEMORY;
    assert Move(s, r, w, 0) == s;
    assert Move(s, r, w, 1) == Put(s, w[0], Load(s, r[0]));
  }

  ghost predicate ColumnStage(p: PadInfo, d: Desc, j: nat, k: nat, n: nat) {
    if n == 0 then Idle(d) else CopiesColumn(p, d, j, k, n)
  }

  ghost predicate RowStage(p: PadInfo, d: Desc, j: nat, k: nat, n: nat) {
    if n == 0 then Idle(d) else CopiesRow(p, d, j, k, n)
  }

  lemma IdleTakes(p: PadInfo, s: Store, d: Desc, y: nat, x: nat)
    requires Laid(p) && Idle(d) && y < p.H() && x < p.W()
    ensures Takes(p, s, Exec(d, s), y, x, y, x)
  {
    forall b: nat | b < p.elem
      ensures Pixel(p, Exec(d, s), y, x, b) == Pixel(p, s, y, x, b)
    {
      OutAt(p, y, x, b, y, x, b);
      IdleKeeps(d, s, p.Out().At(y, x, b));
    }
  }

  lemma IdleOutside(p: PadInfo, s: Store, d: Desc)
    requires Idle(d)
    ensures Outside(p, s, Exec(d, s))
  {
    forall a | 0 <= a < MEMORY
      ensures Exec(d, s)[a] == s[a]
    {
      IdleKeeps(d, s, a);
    }
  }

  lemma ColumnStep(p: PadInfo, s: Store, d: Desc, j: nat, k: nat, n: nat, y: nat, x: nat)
    requires Laid(p) && ColumnStage(p, d, j, k, n) && y < p.H() && x < p.W()
    ensures Takes(p, s, Exec(d, s), y, x, y, Spread(j, k, n, x))
  {
    if n == 0 {
      IdleTakes(p, s, d, y, x);
    } else {
      ColumnTakes(p, s, d, j, k, n, y, x);
    }
  }

  lemma RowStep(p: PadInfo, s: Store, d: Desc, j: nat, k: nat, n: nat, y: nat, x: nat)
    requires Laid(p) && RowStage(p, d, j, k, n) && y < p.H() && x < p.W()
    ensures Takes(p, s, Exec(d, s), y, x, Spread(j, k, n, y), x)
  {
    if n == 0 {
      IdleTakes(p, s, d, y, x);
    } else {
      RowTakes(p, s, d, j, k, n, y, x);
    }
  }

  lemma ColumnStepOutside(p: PadInfo, s: Store, d: Desc, j: nat, k: nat, n: nat)
    requires Laid(p) && ColumnStage(p, d, j, k, n)
    ensures Outside(p, s, Exec(d, s))
  {
    if n == 0 {
      IdleOutside(p, s, d);
    } else {
      ColumnOutside(p, s, d, j, k, n);
    }
  }

  lemma RowStepOutside(p: PadInfo, s: Store, d: Desc, j: nat, k: nat, n: nat)
    requires Laid(p) && RowStage(p, d, j, k, n)
    ensures Outside(p, s, Exec(d, s))
  {
    if n == 0 {
      IdleOutside(p, s, d);
    } else {
      RowOutside(p, s, d, j, k, n, p.W() * p.elem);
    }
  }

  // ----- all five -----

  function Clamp(v: int, n: nat): (r: nat)
    requires 0 < n
    ensures r < n
  {
    if v < 0 then 0 else if v < n then v else n - 1
  }

  // Every padded pixel holds the nearest source pixel; other memory is as it was.
  ghost predicate EdgePadded(p: PadInfo, s: Store, t: Store)
    requires 0 < p.sx && 0 < p.sy
  {
    && Outside(p, s, t)
    && forall y: nat, x: nat, b: nat :: y < p.H() && x < p.W() && b < p.elem ==>
         Pixel(p, t, y, x, b) == Get(s, p.In().At(Clamp(y - p.top, p.sy), Clamp(x - p.left, p.sx), b))
  }

  // Middle, left, right, top and bottom, in that order.
  ghost predicate EdgeProgram(p: PadInfo, q: seq<Desc>)
    requires 0 < p.sx && 0 < p.sy
  {
    && |q| == 5 && CopiesInner(p, q[0])
    && ColumnStage(p, q[1], p.left, 0, p.left)
    && ColumnStage(p, q[2], p.left + p.sx - 1, p.left + p.sx, p.right)
    && RowStage(p, q[3], p.top, 0, p.top)
    && RowStage(p, q[4], p.top + p.sy - 1, p.top + p.sy, p.bottom)
  }

  lemma ExecFive(q: seq<Desc>, s: Store)
    requires |q| == 5
    ensures ExecAll(q, s) == Exec(q[4], Exec(q[3], Exec(q[2], Exec(q[1], Exec(q[0], s)))))
  {
    var q1, q2, q3, q4 := q[1..], q[2..], q[3..], q[4..];
    assert q1[1..] == q2 && q2[1..] == q3 && q3[1..] == q4 && q4[1..] == [];
    var s1 := Exec(q[0], s);
    var s2 := Exec(q[1], s1);
    var s3 := Exec(q[2], s2);
    var s4 := Exec(q[3], s3);
    assert ExecAll(q4, s4) == ExecAll([], Exec(q[4], s4));
    assert ExecAll(q3, s3) == ExecAll(q4, s4);
    assert ExecAll(q2, s2) == ExecAll(q3, s3);
    assert ExecAll(q1, s1) == ExecAll(q2, s2);
  }

  lemma TakesTrans(p: PadInfo, s: Store, t: Store, u: Store, y: nat, x: nat, y1: nat, x1: nat, y2: nat, x2: nat)
    requires Takes(p, t, u, y, x, y1, x1) && Takes(p, s, t, y1, x1, y2, x2)
    ensures Takes(p, s, u, y, x, y2, x2)
  {
  }

  // Two stages that fill both sides of one direction clamp it.
  lemma Clamped(v: nat, before: nat, size: nat, after: nat)
    requires 0 < size && v < before + size + after
    ensures Spread(before, 0, before, Spread(before + size - 1, before + size, after, v)) == before + Clamp(v - before, size)
  {
  }

  lemma RowStages(p: PadInfo, d: Desc, d': Desc, s: Store, y: nat, x: nat, y2: nat)
    requires Laid(p) && RowStage(p, d, p.top, 0, p.top) && RowStage(p, d', p.top + p.sy - 1, p.top + p.sy, p.bottom)
    requires y < p.H() && x < p.W() && y2 == p.top + Clamp(y - p.top, p.sy)
    ensures Takes(p, s, Exec(d', Exec(d, s)), y, x, y2, x)
  {
    var y1 := Spread(p.top + p.sy - 1, p.top + p.sy, p.bottom, y);
    Clamped(y, p.top, p.sy, p.bottom);
    RowStep(p, Exec(d, s), d', p.top + p.sy - 1, p.top + p.sy, p.bottom, y, x);
    RowStep(p, s, d, p.top, 0, p.top, y1, x);
    TakesTrans(p, s, Exec(d, s), Exec(d', Exec(d, s)), y, x, y1, x, y2, x);
  }

  lemma ColumnStages(p: PadInfo, d: Desc, d': Desc, s: Store, y: nat, x: nat, x2: nat)
    requires Laid(p) && ColumnStage(p, d, p.left, 0, p.left) && ColumnStage(p, d', p.left + p.sx - 1, p.left + p.sx, p.right)
    requires y < p.H() && x < p.W() && x2 == p.left + Clamp(x - p.left, p.sx)
    ensures Takes(p, s, Exec(d', Exec(d, s)), y, x, y, x2)
  {
    var x1 := Spread(p.left + p.sx - 1, p.left + p.sx, p.right, x);
    Clamped(x, p.left, p.sx, p.right);
    ColumnStep(p, Exec(d, s), d', p.left + p.sx - 1, p.left + p.sx, p.right, y, x);
    ColumnStep(p, s, d, p.left, 0, p.left, y, x1);
    TakesTrans(p, s, Exec(d, s), Exec(d', Exec(d, s)), y, x, y, x1, y, x2);
  }

  lemma EdgePixel(p: PadInfo, q: seq<Desc>, s: Store, y: nat, x: nat, b: nat)
    requires Laid(p) && EdgeProgram(p, q) && y < p.H() && x < p.W() && b < p.elem
    ensures Pixel(p, ExecAll(q, s), y, x, b) == Get(s, p.In().At(Clamp(y - p.top, p.sy), Clamp(x - p.left, p.sx), b))
  {
    ExecFive(q, s);
    var sy, sx := Clamp(y - p.top, p.sy), Clamp(x - p.left, p.sx);
    var y2, x2 := p.top + sy, p.left + sx;
    var s1 := Exec(q[0], s);
    var s3 := Exec(q[2], Exec(q[1], s1));
    RowStages(p, q[3], q[4], s3, y, x, y2);
    ColumnStages(p, q[1], q[2], s1, y2, x, x2);
    InnerByte(p, s, q[0], sy, sx, b, y2, x2);
  }

  lemma OutsideTrans(p: PadInfo, s: Store, t: Store, u: Store)
    requires Outside(p, s, t) && Outside(p, t, u)
    ensures Outside(p, s, u)
  {
  }

  lemma ColumnsOutside(p: PadInfo, d: Desc, d': Desc, s: Store)
    requires Laid(p) && ColumnStage(p, d, p.left, 0, p.left) && ColumnStage(p, d', p.left + p.sx - 1, p.left + p.sx, p.right)
    ensures Outside(p, s, Exec(d', Exec(d, s)))
  {
    ColumnStepOutside(p, s, d, p.left, 0, p.left);
    ColumnStepOutside(p, Exec(d, s), d', p.left + p.sx - 1, p.left + p.sx, p.right);
    OutsideTrans(p, s, Exec(d, s), Exec(d', Exec(d, s)));
  }

  lemma RowsOutside(p: PadInfo, d: Desc, d': Desc, s: Store)
    requires Laid(p) && RowStage(p, d, p.top, 0, p.top) && RowStage(p, d', p.top + p.sy - 1, p.top + p.sy, p.bottom)
    ensures Outside(p, s, Exec(d', Exec(d, s)))
  {
    RowStepOutside(p, s, d, p.top, 0, p.top);
    RowStepOutside(p, Exec(d, s), d', p.top + p.sy - 1, p.top + p.sy, p.bottom);
    OutsideTrans(p, s, Exec(d, s), Exec(d', Exec(d, s)));
  }

  lemma EdgeOutside(p: PadInfo, q: seq<Desc>, s: Store)
    requires Laid(p) && EdgeProgram(p, q)
    ensures Outside(p, s, ExecAll(q, s))
  {
    ExecFive(q, s);
    var s1 := Exec(q[0], s);
    var s3 := Exec(q[2], Exec(q[1], s1));
    InnerOutside(p, s, q[0]);
    ColumnsOutside(p, q[1], q[2], s1);
    OutsideTrans(p, s, s1, s3);
    RowsOutside(p, q[3], q[4], s3);
    OutsideTrans(p, s, s3, ExecAll(q, s));
  }

  lemma EdgeCorrect(p: PadInfo, q: seq<Desc>, s: Store)
    requires Laid(p) && EdgeProgram(p, q)
    ensures EdgePadded(p, s, ExecAll(q, s))
  {
    EdgeOutside(p, q, s);
    forall y: nat, x: nat, b: nat | y < p.H() && x < p.W() && b < p.elem
      ensures Pixel(p, ExecAll(q, s), y, x, b) == Get(s, p.In().At(Clamp(y - p.top, p.sy), Clamp(x - p.left, p.sx), b))
    {
      EdgePixel(p, q, s, y, x, b);
    }
  }
}
