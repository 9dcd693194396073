// Rotating one tile through the two halves of the internal buffer: copy in,
// rotate from one half to the other, copy out.
module MvpuRotation {
  import opened Words
  import opened Machine
  import opened RotationSpec

  // Buffer line length in bytes and number of lines, by pixel size.
  function TileX(c: nat): nat {
    if c == 1 then 128 else if c == 3 then 255 else if c == 2 || c == 4 then 256 else 1
  }

  function TileY(c: nat): nat {
    if c == 1 then 64 else if 2 <= c <= 4 then 32 else 1
  }

  // Where the second half starts.
  function Half(c: nat): nat {
    TileX(c) * TileY(c)
  }

  // A w-by-h tile of c-byte pixels, rotated by angle.
  datatype Turn = Turn(angle: Angle, c: nat, src: Word, srcPitch: Word, dst: Word, dstPitch: Word, w: nat, h: nat)
  {
    function W(): nat {
      OutW(angle, w, h)
    }

    function H(): nat {
      OutH(angle, w, h)
    }

    function In(): Grid {
      Grid(0, src, srcPitch, c)
    }

    function Out(): Grid {
      Grid(0, dst, dstPitch, c)
    }

    // Bytes between rows of the rotated tile in the second half.
    function Pitch(): nat {
      if angle == 2 then TileX(c) else TileY(c) * c
    }

    function First(): Grid {
      Grid(MEMORY, 0, TileX(c), c)
    }

    function Second(): Grid {
      Grid(MEMORY, Half(c), Pitch(), c)
    }
  }

  // The tile fits a buffer half. The two images may overlap: all of the tile is
  // in the buffer before any of it is written.
  predicate TurnFits(t: Turn) {
    && 1 <= t.angle && 1 <= t.c <= 4 && 0 < t.w && 0 < t.h
    && t.c * t.w <= TileX(t.c) && t.h <= TileY(t.c)
    && RowsFit(t.src, t.srcPitch, t.h, t.w, t.c) && RowsFit(t.dst, t.dstPitch, t.H(), t.W(), t.c)
  }

  // The rotated places in the second half, as the rotating descriptor walks them.
  function Turned(t: Turn): Grid {
    var x, y := TileX(t.c), TileY(t.c) * t.c;
    if t.angle == 1 then Grid(MEMORY, Half(t.c) + t.h * t.c - t.c, Neg(t.c), y)
    else if t.angle == 2 then Grid(MEMORY, Half(t.c) + x * (t.h - 1) + t.c * t.w - t.c, Neg(x), Neg(t.c))
    else Grid(MEMORY, Half(t.c) + y * (t.w - 1), t.c, Neg(y))
  }

  lemma Mirrored(n: int, i: int, k: int)
    ensures (n - 1 - i) * k == n * k - k - i * k && (n - 1 - i) * k == k * (n - 1) + i * Neg(k)
    ensures k * (n - 1) == k * n - k
  {
  }

  lemma TurnedAt(t: Turn, y: nat, x: nat, b: nat)
    requires 1 <= t.angle && y < t.h && x < t.w && b < t.c
    ensures Turned(t).At(y, x, b) == t.Second().At(RotY(t.angle, t.w, t.h, y, x), RotX(t.angle, t.w, t.h, y, x), b)
  {
    Mirrored(t.h, y, t.c);
    Mirrored(t.h, y, TileX(t.c));
    Mirrored(t.w, x, t.c);
    Mirrored(t.w, x, TileY(t.c) * t.c);
  }

  // ----- both halves hold the tile -----

  lemma FirstFits(t: Turn)
    requires TurnFits(t)
    ensures Within(t.First(), t.h, t.w, t.c, MEMORY, MEMORY + Half(t.c))
  {
    RowsWithin(t.First(), t.h, t.w, t.c);
    MulLe(t.h - 1, TileY(t.c) - 1, TileX(t.c));
  }

  lemma SecondFits(t: Turn)
    requires TurnFits(t)
    ensures t.c * t.W() <= t.Pitch()
    ensures Within(t.Second(), t.H(), t.W(), t.c, MEMORY + Half(t.c), MEMORY + 2 * Half(t.c))
  {
    RowsWithin(t.Second(), t.H(), t.W(), t.c);
    if t.angle == 2 {
      MulLe(t.h - 1, TileY(t.c) - 1, TileX(t.c));
    } else {
      MulLe(t.h, TileY(t.c), t.c);
      Columns(t.w, t.c, TileX(t.c), TileY(t.c));
    }
  }

  lemma Columns(w: int, c: int, tx: int, ty: int)
    requires c * w <= tx && 0 <= ty
    ensures (w - 1) * (ty * c) + ty * c <= tx * ty
  {
    MulLe(c * w, tx, ty);
    assert w * (ty * c) == (c * w) * ty;
  }

  // No buffer address reaches past the 16 KiB.
  lemma HalvesFit(c: nat)
    requires 1 <= c <= 4
    ensures 2 * Half(c) <= TMP_BYTES
  {
  }

  // ----- the middle stage -----

  // Pixel (y, x) of the first half is now at its rotated place in the second;
  // memory is as it was.
  ghost predicate HalfTurned(t: Turn, s: Store, s': Store) {
    && (forall y: nat, x: nat, b: nat :: y < t.h && x < t.w && b < t.c ==>
          Get(s', Turned(t).At(y, x, b)) == Get(s, t.First().At(y, x, b)))
    && forall a :: 0 <= a < MEMORY ==> s'[a] == s[a]
  }

  lemma TurnedFits(t: Turn)
    requires TurnFits(t)
    ensures Within(Turned(t), t.h, t.w, t.c, MEMORY + Half(t.c), MEMORY + 2 * Half(t.c))
    ensures Injective(Turned(t), t.h, t.w, t.c)
  {
    SecondFits(t);
    RowsInjective(t.Second(), t.H(), t.W(), t.c);
    forall y: nat, x: nat, b: nat, y': nat, x': nat, b': nat |
      y < t.h && x < t.w && b < t.c && y' < t.h && x' < t.w && b' < t.c
      ensures MEMORY + Half(t.c) <= Turned(t).At(y, x, b) < MEMORY + 2 * Half(t.c)
      ensures Turned(t).At(y, x, b) == Turned(t).At(y', x', b') ==> y == y' && x == x' && b == b'
    {
      TurnedAt(t, y, x, b);
      TurnedAt(t, y', x', b');
    }
  }

  // The descriptor streams the first half onto the rotated places.
  ghost predicate TurnsPixels(t: Turn, d: Desc) {
    d.Copy? && !d.swap && Streams(d.src, t.First(), t.h, t.w, t.c) && Streams(d.dst, Turned(t), t.h, t.w, t.c)
  }

  lemma PixelsTurned(t: Turn, d: Desc, s: Store)
    requires TurnFits(t) && TurnsPixels(t, d)
    ensures HalfTurned(t, s, Exec(d, s))
    ensures forall a :: 0 <= a < CELLS && !Writes(Turned(t), t.h, t.w, t.c, a) ==> Exec(d, s)[a] == s[a]
  {
    var lo, mid, hi := MEMORY, MEMORY + Half(t.c), MEMORY + 2 * Half(t.c);
    FirstFits(t);
    TurnedFits(t);
    HalvesFit(t.c);
    WithinApart(t.First(), Turned(t), t.h, t.w, t.c, lo, mid, mid, hi);
    PixelMove(d, s, t.First(), Turned(t), t.h, t.w, t.c);
    forall a | 0 <= a < MEMORY
      ensures Exec(d, s)[a] == s[a]
    {
      if Writes(Turned(t), t.h, t.w, t.c, a) {
        WithinWrites(Turned(t), t.h, t.w, t.c, mid, hi, a);
      }
    }
  }

  // One-byte pixels turned by 180 degrees four at a time, the swapper reversing
  // each group.
  function First4(t: Turn): Grid {
    Grid(MEMORY, 0, TileX(1), 4)
  }

  function Turned4(t: Turn): Grid {
    Grid(MEMORY, Half(1) + TileX(1) * (t.h - 1) + t.w - 4, Neg(TileX(1)), Neg(4))
  }

  predicate Fast(t: Turn) {
    t.angle == 2 && t.c == 1 && t.w % 4 == 0
  }

  ghost predicate TurnsFours(t: Turn, d: Desc) {
    d.Copy? && d.swap && Streams(d.src, First4(t), t.h, t.w / 4, 4) && Streams(d.dst, Turned4(t), t.h, t.w / 4, 4)
  }

  lemma FoursAt(t: Turn, y: nat, x: nat, q: nat, r: nat)
    requires Fast(t) && x == 4 * q + r && r < 4
    ensures First4(t).At(y, q, r) == t.First().At(y, x, 0)
    ensures Turned4(t).At(y, q, 3 - r) == Turned(t).At(y, x, 0)
  {
  }

  lemma FoursFit(t: Turn)
    requires TurnFits(t) && Fast(t)
    ensures Within(First4(t), t.h, t.w / 4, 4, MEMORY, MEMORY + Half(1))
    ensures Within(Turned4(t), t.h, t.w / 4, 4, MEMORY + Half(1), MEMORY + 2 * Half(1))
    ensures Injective(Turned4(t), t.h, t.w / 4, 4)
  {
    FirstFits(t);
    TurnedFits(t);
    forall y: nat, q: nat, b: nat, y': nat, q': nat, b': nat |
      y < t.h && q < t.w / 4 && b < 4 && y' < t.h && q' < t.w / 4 && b' < 4
      ensures MEMORY <= First4(t).At(y, q, b) < MEMORY + Half(1)
      ensures MEMORY + Half(1) <= Turned4(t).At(y, q, b) < MEMORY + 2 * Half(1)
      ensures Turned4(t).At(y, q, b) == Turned4(t).At(y', q', b') ==> y == y' && q == q' && b == b'
    {
      FoursAt(t, y, 4 * q + b, q, b);
      FoursAt(t, y, 4 * q + 3 - b, q, 3 - b);
      FoursAt(t, y', 4 * q' + 3 - b', q', 3 - b');
    }
  }

  lemma FoursMove(t: Turn, d: Desc, s: Store)
    requires TurnFits(t) && Fast(t) && TurnsFours(t, d)
    ensures forall y: nat, q: nat, b: nat :: y < t.h && q < t.w / 4 && b < 4 && Turned4(t).At(y, q, b) < CELLS ==>
              Get(Exec(d, s), Turned4(t).At(y, q, b)) == Get(s, First4(t).At(y, q, 3 - b))
    ensures forall a :: 0 <= a < CELLS && !Writes(Turned4(t), t.h, t.w / 4, 4, a) ==> Exec(d, s)[a] == s[a]
  {
    FoursFit(t);
    WithinApart(First4(t), Turned4(t), t.h, t.w / 4, 4, MEMORY, MEMORY + Half(1), MEMORY + Half(1), MEMORY + 2 * Half(1));
    PixelSwap(d, s, First4(t), Turned4(t), t.h, t.w / 4);
  }

  lemma FoursByte(t: Turn, d: Desc, s: Store, y: nat, x: nat, q: nat, r: nat)
    requires TurnFits(t) && Fast(t) && TurnsFours(t, d) && y < t.h && q < t.w / 4 && r < 4 && x == 4 * q + r
    ensures Get(Exec(d, s), Turned(t).At(y, x, 0)) == Get(s, t.First().At(y, x, 0))
  {
    FoursMove(t, d, s);
    FoursFit(t);
    HalvesFit(1);
    FoursAt(t, y, x, q, r);
    assert Turned4(t).At(y, q, 3 - r) < CELLS;
  }

  // Fours and pixels cover the same cells.
  lemma FoursWrite(t: Turn, a: int)
    requires TurnFits(t) && Fast(t) && Writes(Turned4(t), t.h, t.w / 4, 4, a)
    ensures Writes(Turned(t), t.h, t.w, t.c, a)
  {
    var y: nat, q: nat, b: nat :| y < t.h && q < t.w / 4 && b < 4 && Turned4(t).At(y, q, b) == a;
    FoursAt(t, y, 4 * q + 3 - b, q, 3 - b);
    assert Turned(t).At(y, 4 * q + 3 - b, 0) == a;
  }

  lemma FoursTurned(t: Turn, d: Desc, s: Store)
    requires TurnFits(t) && Fast(t) && TurnsFours(t, d)
    ensures HalfTurned(t, s, Exec(d, s))
    ensures forall a :: 0 <= a < CELLS && !Writes(Turned(t), t.h, t.w, t.c, a) ==> Exec(d, s)[a] == s[a]
  {
    FoursMove(t, d, s);
    TurnedFits(t);
    forall y: nat, x: nat, b: nat | y < t.h && x < t.w && b < t.c
      ensures Get(Exec(d, s), Turned(t).At(y, x, b)) == Get(s, t.First().At(y, x, b))
    {
      QuotRem(x, 4);
      FoursByte(t, d, s, y, x, Quot(x, 4), Rem(x, 4));
    }
    forall a | 0 <= a < CELLS && !Writes(Turned(t), t.h, t.w, t.c, a)
      ensures Exec(d, s)[a] == s[a]
    {
      if Writes(Turned4(t), t.h, t.w / 4, 4, a) {
        FoursWrite(t, a);
      }
    }
    forall a | 0 <= a < MEMORY
      ensures Exec(d, s)[a] == s[a]
    {
      if Writes(Turned(t), t.h, t.w, t.c, a) {
        WithinWrites(Turned(t), t.h, t.w, t.c, MEMORY + Half(t.c), MEMORY + 2 * Half(t.c), a);
      }
    }
  }

  // ----- in and out -----

  ghost predicate CopiesIn(t: Turn, d: Desc) {
    d.Copy? && !d.swap && Streams(d.src, t.In(), t.h, t.w, t.c) && Streams(d.dst, t.First(), t.h, t.w, t.c)
  }

  ghost predicate CopiesOut(t: Turn, d: Desc) {
    d.Copy? && !d.swap && Streams(d.src, t.Second(), t.H(), t.W(), t.c) && Streams(d.dst, t.Out(), t.H(), t.W(), t.c)
  }

  lemma InMoved(t: Turn, d: Desc, s: Store)
    requires TurnFits(t) && CopiesIn(t, d)
    ensures forall y: nat, x: nat, b: nat :: y < t.h && x < t.w && b < t.c ==>
              Get(Exec(d, s), t.First().At(y, x, b)) == Get(s, t.In().At(y, x, b))
    ensures forall a :: 0 <= a < MEMORY ==> Exec(d, s)[a] == s[a]
  {
    var len := (t.h - 1) * t.srcPitch + t.c * t.w;
    FirstFits(t);
    HalvesFit(t.c);
    RowsWithin(t.In(), t.h, t.w, t.c);
    RowsInjective(t.First(), t.h, t.w, t.c);
    WithinApart(t.In(), t.First(), t.h, t.w, t.c, t.src, t.src + len, MEMORY, MEMORY + Half(t.c));
    PixelMove(d, s, t.In(), t.First(), t.h, t.w, t.c);
    forall a | 0 <= a < MEMORY
      ensures Exec(d, s)[a] == s[a]
    {
      if Writes(t.First(), t.h, t.w, t.c, a) {
        WithinWrites(t.First(), t.h, t.w, t.c, MEMORY, MEMORY + Half(t.c), a);
      }
    }
  }

  lemma OutMoved(t: Turn, d: Desc, s: Store)
    requires TurnFits(t) && CopiesOut(t, d)
    ensures forall y: nat, x: nat, b: nat :: y < t.H() && x < t.W() && b < t.c ==>
              Get(Exec(d, s), t.Out().At(y, x, b)) == Get(s, t.Second().At(y, x, b))
    ensures forall a :: 0 <= a < CELLS && !Writes(t.Out(), t.H(), t.W(), t.c, a) ==> Exec(d, s)[a] == s[a]
  {
    var len := (t.H() - 1) * t.dstPitch + t.c * t.W();
    SecondFits(t);
    HalvesFit(t.c);
    RowsWithin(t.Out(), t.H(), t.W(), t.c);
    RowsInjective(t.Out(), t.H(), t.W(), t.c);
    WithinApart(t.Second(), t.Out(), t.H(), t.W(), t.c, MEMORY + Half(t.c), MEMORY + 2 * Half(t.c), t.dst, t.dst + len);
    PixelMove(d, s, t.Second(), t.Out(), t.H(), t.W(), t.c);
  }

  // ----- the three stages -----

  ghost predicate TurnProgram(t: Turn, q: seq<Desc>) {
    |q| == 3 && CopiesIn(t, q[0]) && (TurnsPixels(t, q[1]) || (Fast(t) && TurnsFours(t, q[1]))) && CopiesOut(t, q[2])
  }

  // The destination holds the rotated tile; no other memory changed.
  ghost predicate TileTurned(t: Turn, s: Store, u: Store)
    requires 1 <= t.angle
  {
    && (forall y: nat, x: nat, b: nat :: y < t.h && x < t.w && b < t.c ==>
          Get(u, t.Out().At(RotY(t.angle, t.w, t.h, y, x), RotX(t.angle, t.w, t.h, y, x), b)) == Get(s, t.In().At(y, x, b)))
    && forall a :: 0 <= a < MEMORY && !Writes(t.Out(), t.H(), t.W(), t.c, a) ==> u[a] == s[a]
  }

  lemma ExecThree(q: seq<Desc>, s: Store)
    requires |q| == 3
    ensures ExecAll(q, s) == Exec(q[2], Exec(q[1], Exec(q[0], s)))
  {
    var q1, q2 := q[1..], q[2..];
    assert q1[1..] == q2 && q2[1..] == [];
    var s1 := Exec(q[0], s);
    var s2 := Exec(q[1], s1);
    assert ExecAll(q2, s2) == ExecAll([], Exec(q[2], s2));
    assert ExecAll(q1, s1) == ExecAll(q2, s2);
  }

  lemma Middle(t: Turn, d: Desc, s: Store)
    requires TurnFits(t) && (TurnsPixels(t, d) || (Fast(t) && TurnsFours(t, d)))
    ensures HalfTurned(t, s, Exec(d, s))
  {
    if TurnsPixels(t, d) {
      PixelsTurned(t, d, s);
    } else {
      FoursTurned(t, d, s);
    }
  }

  lemma TurnCorrect(t: Turn, q: seq<Desc>, s: Store)
    requires TurnFits(t) && TurnProgram(t, q)
    ensures TileTurned(t, s, ExecAll(q, s))
  {
    var s1 := Exec(q[0], s);
    var s2 := Exec(q[1], s1);
    ExecThree(q, s);
    InMoved(t, q[0], s);
    Middle(t, q[1], s1);
    OutMoved(t, q[2], s2);
    forall y: nat, x: nat, b: nat | y < t.h && x < t.w && b < t.c
      ensures Get(ExecAll(q, s), t.Out().At(RotY(t.angle, t.w, t.h, y, x), RotX(t.angle, t.w, t.h, y, x), b)) == Get(s, t.In().At(y, x, b))
    {
      TurnedAt(t, y, x, b);
      assert Get(s2, Turned(t).At(y, x, b)) == Get(s1, t.First().At(y, x, b));
    }
  }

  // The four-pixel descriptor and the one-pixel descriptor have the same effect.
  lemma FastAgrees(t: Turn, fast: Desc, slow: Desc, s: Store)
    requires TurnFits(t) && Fast(t) && TurnsFours(t, fast) && TurnsPixels(t, slow)
    ensures Exec(fast, s) == Exec(slow, s)
  {
    FoursTurned(t, fast, s);
    PixelsTurned(t, slow, s);
    forall a | 0 <= a < CELLS
      ensures Exec(fast, s)[a] == Exec(slow, s)[a]
    {
      if Writes(Turned(t), t.h, t.w, t.c, a) {
        var y: nat, x: nat, b: nat :| y < t.h && x < t.w && b < t.c && Turned(t).At(y, x, b) == a;
        assert Get(Exec(fast, s), Turned(t).At(y, x, b)) == Get(Exec(slow, s), Turned(t).At(y, x, b));
      }
    }
  }
}
