// Splitting a tile of pixels into channel planes and merging planes into pixels
// through the internal buffer, whose rows hold a pixel lane of 256 * n bytes
// beside n channel lanes of 256 bytes.
module SplitMerge {
  import opened Words
  import opened Machine
  import opened LaneCopies

  // Lines of the buffer the tile may have.
  function Lines(n: nat): nat {
    if n == 2 then 16 else if n == 3 then 10 else 8
  }

  // h lines of w pixels with n channels of g bytes.
  datatype Layout = Layout(n: nat, g: nat, w: nat, h: nat)
  {
    function Half(): nat {
      256 * n
    }

    function Row(): nat {
      512 * n
    }

    // The pixel lane at column `at`, channel k of its pixels, and channel lane k
    // of those that start at column `at`.
    function Pixels(at: nat): Grid {
      Grid(MEMORY, at, Row(), n * g)
    }

    function Part(at: nat, k: nat): Grid {
      Spaced(at, k, n * g)
    }

    // The same with pixels some other number of bytes apart.
    function Spaced(at: nat, k: nat, step: nat): Grid {
      Grid(MEMORY, at + g * k, Row(), step)
    }

    function Channel(at: nat, k: nat): Grid {
      Grid(MEMORY, at + 256 * k, Row(), g)
    }
  }

  predicate Fits(l: Layout) {
    2 <= l.n <= 4 && 0 < l.g && 0 < l.w && 0 < l.h && l.g * l.w <= 256 && l.h <= Lines(l.n)
  }

  // ----- the lanes of a buffer row -----

  ghost predicate Column(a: Grid, w: nat, c: nat, lo: int, hi: int) {
    forall x: nat, b: nat :: x < w && b < c ==> lo <= a.At(0, x, b) - a.space < hi
  }

  lemma ColumnsApart(a: Grid, b: Grid, h: nat, w: nat, c: nat, lo: int, mid: int, hi: int)
    requires a.space == b.space && a.row == b.row
    requires Column(a, w, c, lo, mid) && Column(b, w, c, mid, hi) && 0 <= lo && hi <= a.row
    ensures Apart(a, b, h, w, c) && Apart(b, a, h, w, c)
  {
    forall y: nat, x: nat, i: nat, y': nat, x': nat, i': nat | y < h && x < w && i < c && y' < h && x' < w && i' < c
      ensures a.At(y, x, i) != b.At(y', x', i')
    {
      var p, q := a.At(0, x, i) - a.space, b.At(0, x', i') - b.space;
      assert lo <= p < mid && mid <= q < hi;
      DivModUnique(a.row, y, p);
      DivModUnique(a.row, y', q);
    }
  }

  // Byte b of channel k of pixel x of a line.
  lemma PixelByte(n: nat, g: nat, w: nat, k: nat, x: nat, b: nat)
    requires k < n && x < w && b < g && g * w <= 256
    ensures 0 <= g * k + x * (n * g) + b < 256 * n
  {
    LineByte(g, n, k, b);
    LineByte(n * g, w, x, k * g + b);
    MulLe(g * w, 256, n);
    assert (n * g) * w == (g * w) * n;
  }

  lemma PartColumn(l: Layout, at: nat, k: nat)
    requires Fits(l) && k < l.n
    ensures Column(l.Part(at, k), l.w, l.g, at, at + l.Half())
  {
    var a := l.Part(at, k);
    forall x: nat, b: nat | x < l.w && b < l.g
      ensures at <= a.At(0, x, b) - a.space < at + l.Half()
    {
      PixelByte(l.n, l.g, l.w, k, x, b);
    }
  }

  lemma ChannelColumn(l: Layout, at: nat, k: nat)
    requires Fits(l)
    ensures Column(l.Channel(at, k), l.w, l.g, at + 256 * k, at + 256 * k + 256)
  {
    var a := l.Channel(at, k);
    forall x: nat, b: nat | x < l.w && b < l.g
      ensures at + 256 * k <= a.At(0, x, b) - a.space < at + 256 * k + 256
    {
      LineByte(l.g, l.w, x, b);
    }
  }

  // A column of the buffer row stays in the buffer.
  lemma ColumnWithin(a: Grid, l: Layout, lo: int, hi: int)
    requires Fits(l) && a.space == MEMORY && a.row == l.Row()
    requires Column(a, l.w, l.g, lo, hi) && 0 <= lo && hi <= l.Row()
    ensures Within(a, l.h, l.w, l.g, MEMORY, CELLS)
  {
    forall y: nat, x: nat, b: nat | y < l.h && x < l.w && b < l.g
      ensures MEMORY <= a.At(y, x, b) < CELLS
    {
      assert lo <= a.At(0, x, b) - a.space < hi;
      MulLe(y + 1, Lines(l.n), l.Row());
      MulLe(0, y, l.Row());
    }
  }

  lemma PartAt(l: Layout, at: nat, k: nat, y: nat, x: nat, b: nat)
    ensures l.Part(at, k).At(y, x, b) == l.Pixels(at).At(y, x, l.g * k + b)
  {
  }

  // The pixel lane is one grid of whole pixels.
  lemma PixelsFit(l: Layout, at: nat)
    requires Fits(l) && at <= l.Half()
    ensures Injective(l.Pixels(at), l.h, l.w, l.n * l.g)
    ensures Within(l.Pixels(at), l.h, l.w, l.n * l.g, MEMORY, CELLS)
  {
    MulLe(l.g * l.w, 256, l.n);
    assert (l.n * l.g) * l.w == (l.g * l.w) * l.n;
    RowsInjective(l.Pixels(at), l.h, l.w, l.n * l.g);
    RowsWithin(l.Pixels(at), l.h, l.w, l.n * l.g);
    MulLe(l.h - 1, Lines(l.n) - 1, l.Row());
  }

  lemma ChannelByte(l: Layout, k: nat, b: nat)
    requires k < l.n && b < l.g
    ensures 0 <= l.g * k + b < l.n * l.g
  {
    LineByte(l.g, l.n, k, b);
  }

  lemma ChannelBytes(g: nat, i: nat, b: nat, j: nat, b': nat)
    requires b < g && b' < g && i != j
    ensures g * i + b != g * j + b'
  {
    DivModUnique(g, i, b);
    DivModUnique(g, j, b');
  }

  // Channels of one pixel lane do not meet.
  lemma PartsApart(l: Layout, at: nat, i: nat, j: nat)
    requires Fits(l) && at <= l.Half() && i < l.n && j < l.n
    ensures Injective(l.Part(at, i), l.h, l.w, l.g)
    ensures i != j ==> Apart(l.Part(at, i), l.Part(at, j), l.h, l.w, l.g)
  {
    PixelsFit(l, at);
    forall y: nat, x: nat, b: nat, y': nat, x': nat, b': nat |
      y < l.h && x < l.w && b < l.g && y' < l.h && x' < l.w && b' < l.g
      ensures l.Part(at, i).At(y, x, b) == l.Part(at, i).At(y', x', b') ==> y == y' && x == x' && b == b'
      ensures i != j ==> l.Part(at, i).At(y, x, b) != l.Part(at, j).At(y', x', b')
    {
      ChannelByte(l, i, b);
      ChannelByte(l, i, b');
      ChannelByte(l, j, b');
      PartAt(l, at, i, y, x, b);
      PartAt(l, at, i, y', x', b');
      PartAt(l, at, j, y', x', b');
      if i != j {
        ChannelBytes(l.g, i, b, j, b');
      }
    }
  }

  lemma ChannelsApart(l: Layout, at: nat, i: nat, j: nat)
    requires Fits(l) && at <= l.Half() && i < l.n && j < l.n
    ensures Injective(l.Channel(at, i), l.h, l.w, l.g)
    ensures Within(l.Channel(at, i), l.h, l.w, l.g, MEMORY, CELLS)
    ensures i != j ==> Apart(l.Channel(at, i), l.Channel(at, j), l.h, l.w, l.g)
  {
    ChannelColumn(l, at, i);
    ColumnWithin(l.Channel(at, i), l, at + 256 * i, at + 256 * i + 256);
    RowsInjective(l.Channel(at, i), l.h, l.w, l.g);
    if i < j {
      LowerChannel(l, at, i, j);
    } else if j < i {
      LowerChannel(l, at, j, i);
    }
  }

  lemma LowerChannel(l: Layout, at: nat, i: nat, j: nat)
    requires Fits(l) && at <= l.Half() && i < j < l.n
    ensures Apart(l.Channel(at, i), l.Channel(at, j), l.h, l.w, l.g)
    ensures Apart(l.Channel(at, j), l.Channel(at, i), l.h, l.w, l.g)
  {
    ChannelColumn(l, at, i);
    ChannelColumn(l, at, j);
    ColumnsApart(l.Channel(at, i), l.Channel(at, j), l.h, l.w, l.g, at + 256 * i, at + 256 * j, at + 256 * j + 256);
  }

  // The pixel lane in one half of the row, channel lanes in the other.
  lemma HalvesApart(l: Layout, i: nat, j: nat)
    requires Fits(l) && i < l.n && j < l.n
    ensures Apart(l.Part(0, i), l.Channel(l.Half(), j), l.h, l.w, l.g)
    ensures Apart(l.Channel(0, i), l.Part(l.Half(), j), l.h, l.w, l.g)
  {
    PartColumn(l, 0, i);
    PartColumn(l, l.Half(), j);
    ChannelColumn(l, 0, i);
    ChannelColumn(l, l.Half(), j);
    ColumnsApart(l.Part(0, i), l.Channel(l.Half(), j), l.h, l.w, l.g, 0, l.Half(), l.Row());
    ColumnsApart(l.Channel(0, i), l.Part(l.Half(), j), l.h, l.w, l.g, 0, l.Half(), l.Row());
  }

  // ----- the routes of each stage -----

  // The channels a descriptor handles, in lane order.
  predicate Lanes(l: Layout, ks: seq<nat>) {
    (forall i :: 0 <= i < |ks| ==> ks[i] < l.n) && forall i, j :: 0 <= i < j < |ks| ==> ks[i] != ks[j]
  }

  function SplitRoutes(l: Layout, ks: seq<nat>): (rs: seq<Route>)
    ensures |rs| == |ks|
  {
    seq(|ks|, i requires 0 <= i < |ks| => Route(l.Part(0, ks[i]), l.Channel(l.Half(), ks[i])))
  }

  function OutRoutes(l: Layout, planes: seq<Grid>, ks: seq<nat>): (rs: seq<Route>)
    requires |planes| >= l.n && Lanes(l, ks)
    ensures |rs| == |ks|
  {
    seq(|ks|, i requires 0 <= i < |ks| => Route(l.Channel(l.Half(), ks[i]), planes[ks[i]]))
  }

  function InRoutes(l: Layout, planes: seq<Grid>, ks: seq<nat>): (rs: seq<Route>)
    requires |planes| >= l.n && Lanes(l, ks)
    ensures |rs| == |ks|
  {
    seq(|ks|, i requires 0 <= i < |ks| => Route(planes[ks[i]], l.Channel(0, ks[i])))
  }

  function MergeRoutes(l: Layout, ks: seq<nat>): (rs: seq<Route>)
    ensures |rs| == |ks|
  {
    seq(|ks|, i requires 0 <= i < |ks| => Route(l.Channel(0, ks[i]), l.Part(l.Half(), ks[i])))
  }

  ghost predicate InMemory(a: Grid, h: nat, w: nat, c: nat) {
    Within(a, h, w, c, 0, MEMORY)
  }

  ghost predicate PlanesIn(l: Layout, planes: seq<Grid>, ks: seq<nat>) {
    && |planes| >= l.n && Lanes(l, ks)
    && forall i :: 0 <= i < |ks| ==> InMemory(planes[ks[i]], l.h, l.w, l.g)
  }

  // Planes that can be written: no byte is in two places.
  ghost predicate PlanesApart(l: Layout, planes: seq<Grid>, ks: seq<nat>) {
    && PlanesIn(l, planes, ks)
    && (forall i :: 0 <= i < |ks| ==> Injective(planes[ks[i]], l.h, l.w, l.g))
    && forall i, j :: 0 <= i < j < |ks| ==> Apart(planes[ks[i]], planes[ks[j]], l.h, l.w, l.g)
  }

  lemma SplitDisjoint(l: Layout, ks: seq<nat>)
    requires Fits(l) && Lanes(l, ks)
    ensures Disjoint(SplitRoutes(l, ks), l.h, l.w, l.g)
  {
    var rs := SplitRoutes(l, ks);
    forall i, j | 0 <= i < |ks| && 0 <= j < |ks|
      ensures Apart(rs[i].from, rs[j].to, l.h, l.w, l.g) && Injective(rs[i].to, l.h, l.w, l.g)
      ensures i < j ==> Apart(rs[i].to, rs[j].to, l.h, l.w, l.g)
    {
      HalvesApart(l, ks[i], ks[j]);
      ChannelsApart(l, l.Half(), ks[i], ks[j]);
    }
  }

  lemma MergeDisjoint(l: Layout, ks: seq<nat>)
    requires Fits(l) && Lanes(l, ks)
    ensures Disjoint(MergeRoutes(l, ks), l.h, l.w, l.g)
  {
    var rs := MergeRoutes(l, ks);
    forall i, j | 0 <= i < |ks| && 0 <= j < |ks|
      ensures Apart(rs[i].from, rs[j].to, l.h, l.w, l.g) && Injective(rs[i].to, l.h, l.w, l.g)
      ensures i < j ==> Apart(rs[i].to, rs[j].to, l.h, l.w, l.g)
    {
      HalvesApart(l, ks[i], ks[j]);
      PartsApart(l, l.Half(), ks[i], ks[j]);
    }
  }

  lemma OutDisjoint(l: Layout, planes: seq<Grid>, ks: seq<nat>)
    requires Fits(l) && PlanesApart(l, planes, ks)
    ensures Disjoint(OutRoutes(l, planes, ks), l.h, l.w, l.g)
  {
    var rs := OutRoutes(l, planes, ks);
    forall i, j | 0 <= i < |ks| && 0 <= j < |ks|
      ensures Apart(rs[i].from, rs[j].to, l.h, l.w, l.g)
    {
      ChannelsApart(l, l.Half(), ks[i], ks[i]);
      WithinApart(rs[i].from, rs[j].to, l.h, l.w, l.g, MEMORY, CELLS, 0, MEMORY);
    }
  }

  lemma InDisjoint(l: Layout, planes: seq<Grid>, ks: seq<nat>)
    requires Fits(l) && PlanesIn(l, planes, ks)
    ensures Disjoint(InRoutes(l, planes, ks), l.h, l.w, l.g)
  {
    var rs := InRoutes(l, planes, ks);
    forall i, j | 0 <= i < |ks| && 0 <= j < |ks|
      ensures Apart(rs[i].from, rs[j].to, l.h, l.w, l.g) && Injective(rs[i].to, l.h, l.w, l.g)
      ensures i < j ==> Apart(rs[i].to, rs[j].to, l.h, l.w, l.g)
    {
      ChannelsApart(l, 0, ks[i], ks[j]);
      ChannelsApart(l, 0, ks[j], ks[j]);
      WithinApart(rs[i].from, rs[j].to, l.h, l.w, l.g, 0, MEMORY, MEMORY, CELLS);
    }
  }

  // ----- the two programs -----

  // Plane k holds channel k of every pixel of the image.
  ghost predicate Holds(l: Layout, img: Grid, plane: Grid, k: nat, s: Store, u: Store) {
    forall y: nat, x: nat, b: nat :: y < l.h && x < l.w && b < l.g ==>
      Get(u, plane.At(y, x, b)) == Get(s, img.At(y, x, l.g * k + b))
  }

  ghost predicate SplitDone(l: Layout, img: Grid, planes: seq<Grid>, ks: seq<nat>, s: Store, u: Store)
    requires |planes| >= l.n && Lanes(l, ks)
  {
    && (forall i :: 0 <= i < |ks| ==> Holds(l, img, planes[ks[i]], ks[i], s, u))
    && forall a :: 0 <= a < MEMORY && !RoutesWrite(OutRoutes(l, planes, ks), l.h, l.w, l.g, a) ==> u[a] == s[a]
  }

  ghost predicate MergeDone(l: Layout, img: Grid, planes: seq<Grid>, s: Store, u: Store)
    requires |planes| >= l.n
  {
    && (forall k :: 0 <= k < l.n ==> Holds(l, img, planes[k], k, u, s))
    && forall a :: 0 <= a < MEMORY && !Writes(img, l.h, l.w, l.n * l.g, a) ==> u[a] == s[a]
  }

  ghost predicate SameMemory(s: Store, u: Store) {
    forall a :: 0 <= a < MEMORY ==> u[a] == s[a]
  }

  lemma BufferOnly(rs: seq<Route>, h: nat, w: nat, c: nat, s: Store, u: Store)
    requires forall i :: 0 <= i < |rs| ==> Within(rs[i].to, h, w, c, MEMORY, CELLS)
    requires forall a :: 0 <= a < CELLS && !RoutesWrite(rs, h, w, c, a) ==> u[a] == s[a]
    ensures SameMemory(s, u)
  {
  }

  // The image is in the pixel lane.
  lemma ImageIn(l: Layout, img: Grid, d: Desc, s: Store)
    requires Fits(l) && InMemory(img, l.h, l.w, l.n * l.g) && Carries(d, Route(img, l.Pixels(0)), l.h, l.w, l.n * l.g)
    ensures forall y: nat, x: nat, b: nat :: y < l.h && x < l.w && b < l.n * l.g ==>
              Get(Exec(d, s), l.Pixels(0).At(y, x, b)) == Get(s, img.At(y, x, b))
    ensures SameMemory(s, Exec(d, s))
  {
    var to := l.Pixels(0);
    PixelsFit(l, 0);
    WithinApart(img, to, l.h, l.w, l.n * l.g, 0, MEMORY, MEMORY, CELLS);
    PixelMove(d, s, img, to, l.h, l.w, l.n * l.g);
    forall a | 0 <= a < MEMORY
      ensures Exec(d, s)[a] == s[a]
    {
      if Writes(to, l.h, l.w, l.n * l.g, a) {
        WithinWrites(to, l.h, l.w, l.n * l.g, MEMORY, CELLS, a);
      }
    }
  }

  // The image leaves the pixel lane of the second half.
  lemma ImageOut(l: Layout, img: Grid, d: Desc, s: Store)
    requires Fits(l) && InMemory(img, l.h, l.w, l.n * l.g) && Injective(img, l.h, l.w, l.n * l.g)
    requires Carries(d, Route(l.Pixels(l.Half()), img), l.h, l.w, l.n * l.g)
    ensures forall y: nat, x: nat, b: nat :: y < l.h && x < l.w && b < l.n * l.g ==>
              Get(Exec(d, s), img.At(y, x, b)) == Get(s, l.Pixels(l.Half()).At(y, x, b))
    ensures forall a :: 0 <= a < CELLS && !Writes(img, l.h, l.w, l.n * l.g, a) ==> Exec(d, s)[a] == s[a]
  {
    var from := l.Pixels(l.Half());
    PixelsFit(l, l.Half());
    WithinApart(from, img, l.h, l.w, l.n * l.g, MEMORY, CELLS, 0, MEMORY);
    PixelMove(d, s, from, img, l.h, l.w, l.n * l.g);
  }

  lemma SplitMiddle(l: Layout, ks: seq<nat>, q: seq<Desc>, s: Store)
    requires Fits(l) && Lanes(l, ks) && CarriesAll(q, SplitRoutes(l, ks), l.h, l.w, l.g)
    ensures forall i :: 0 <= i < |ks| ==> Moved(SplitRoutes(l, ks)[i], l.h, l.w, l.g, s, ExecAll(q, s))
    ensures SameMemory(s, ExecAll(q, s))
  {
    var rs := SplitRoutes(l, ks);
    SplitDisjoint(l, ks);
    LanesMove(q, rs, l.h, l.w, l.g, s);
    forall i | 0 <= i < |rs|
      ensures Within(rs[i].to, l.h, l.w, l.g, MEMORY, CELLS)
    {
      ChannelsApart(l, l.Half(), ks[i], ks[i]);
    }
    BufferOnly(rs, l.h, l.w, l.g, s, ExecAll(q, s));
  }

  // One channel, through the three stages.
  lemma SplitChannel(l: Layout, img: Grid, plane: Grid, k: nat, s: Store, s1: Store, s2: Store, u: Store)
    requires Fits(l) && k < l.n && InMemory(plane, l.h, l.w, l.g)
    requires forall y: nat, x: nat, b: nat :: y < l.h && x < l.w && b < l.n * l.g ==>
               Get(s1, l.Pixels(0).At(y, x, b)) == Get(s, img.At(y, x, b))
    requires Moved(Route(l.Part(0, k), l.Channel(l.Half(), k)), l.h, l.w, l.g, s1, s2)
    requires Moved(Route(l.Channel(l.Half(), k), plane), l.h, l.w, l.g, s2, u)
    ensures Holds(l, img, plane, k, s, u)
  {
    ChannelsApart(l, l.Half(), k, k);
    forall y: nat, x: nat, b: nat | y < l.h && x < l.w && b < l.g
      ensures Get(u, plane.At(y, x, b)) == Get(s, img.At(y, x, l.g * k + b))
    {
      ChannelByte(l, k, b);
      PartAt(l, 0, k, y, x, b);
      assert l.Channel(l.Half(), k).At(y, x, b) < CELLS;
      assert Get(s2, l.Channel(l.Half(), k).At(y, x, b)) == Get(s1, l.Part(0, k).At(y, x, b));
    }
  }

  // Splitting sends byte group k of every pixel to plane k and changes no other
  // memory. The image may overlap the planes.
  lemma SplitCorrect(l: Layout, img: Grid, planes: seq<Grid>, ks: seq<nat>, d: Desc, mid: seq<Desc>, out: seq<Desc>, s: Store)
    requires Fits(l) && InMemory(img, l.h, l.w, l.n * l.g) && PlanesApart(l, planes, ks)
    requires Carries(d, Route(img, l.Pixels(0)), l.h, l.w, l.n * l.g)
    requires CarriesAll(mid, SplitRoutes(l, ks), l.h, l.w, l.g) && CarriesAll(out, OutRoutes(l, planes, ks), l.h, l.w, l.g)
    ensures SplitDone(l, img, planes, ks, s, ExecAll([d] + (mid + out), s))
  {
    var s1 := Exec(d, s);
    var s2 := ExecAll(mid, s1);
    var u := ExecAll(out, s2);
    SplitStages(d, mid, out, s);
    ImageIn(l, img, d, s);
    SplitMiddle(l, ks, mid, s1);
    OutDisjoint(l, planes, ks);
    LanesMove(out, OutRoutes(l, planes, ks), l.h, l.w, l.g, s2);
    forall i | 0 <= i < |ks|
      ensures Holds(l, img, planes[ks[i]], ks[i], s, u)
    {
      assert Moved(SplitRoutes(l, ks)[i], l.h, l.w, l.g, s1, s2);
      assert Moved(OutRoutes(l, planes, ks)[i], l.h, l.w, l.g, s2, u);
      SplitChannel(l, img, planes[ks[i]], ks[i], s, s1, s2, u);
    }
  }

  lemma SplitStages(d: Desc, mid: seq<Desc>, out: seq<Desc>, s: Store)
    ensures ExecAll([d] + (mid + out), s) == ExecAll(out, ExecAll(mid, Exec(d, s)))
  {
    assert ([d] + (mid + out))[1..] == mid + out;
    ExecAllConcat(mid, out, Exec(d, s));
  }

  // What a split delivers whatever lanes are on: every chosen channel there is,
  // and no change to memory but there and where the other lanes write.
  ghost predicate Delivers(l: Layout, img: Grid, planes: seq<Grid>, ks: seq<nat>, extra: seq<Desc>, s: Store, u: Store)
    requires |planes| >= l.n && Lanes(l, ks)
  {
    && (forall i :: 0 <= i < |ks| ==> Holds(l, img, planes[ks[i]], ks[i], s, u))
    && forall a :: 0 <= a < MEMORY && !RoutesWrite(OutRoutes(l, planes, ks), l.h, l.w, l.g, a) && Misses(extra, a) ==> u[a] == s[a]
  }

  // Room for a split: image and planes in memory, no byte of a chosen plane in
  // two places, and what the other lanes copy out meets neither.
  ghost predicate Room(l: Layout, img: Grid, planes: seq<Grid>, ks: seq<nat>, extra: seq<Desc>) {
    && InMemory(img, l.h, l.w, l.n * l.g) && PlanesApart(l, planes, ks)
    && forall a :: !Misses(extra, a) ==>
         !RoutesWrite(OutRoutes(l, planes, ks), l.h, l.w, l.g, a) && !Writes(img, l.h, l.w, l.n * l.g, a)
  }

  // Copies out of the buffer read no memory.
  predicate FromBuffer(q: seq<Desc>) {
    forall i :: 0 <= i < |q| ==> q[i].Copy? && q[i].src.tmp
  }

  lemma TmpIgnores(d: Desc, a: nat)
    requires d.Copy? && d.src.tmp && Runnable(d) && a < MEMORY
    ensures !ReadsCell(d, a)
  {
    var r := Sources(d);
    forall n | 0 <= n < |r|
      ensures r[n] != From(a)
    {
      assert r[n] == From(d.src.Cell(if d.swap then Swapped(n) else n));
    }
  }

  lemma BufferIgnores(q: seq<Desc>, a: nat)
    requires FromBuffer(q) && a < MEMORY
    ensures Ignores(q, a)
  {
    forall i | 0 <= i < |q| && Runnable(q[i])
      ensures !ReadsCell(q[i], a)
    {
      TmpIgnores(q[i], a);
    }
  }

  lemma ImageIgnores(l: Layout, img: Grid, d: Desc, a: nat)
    requires Carries(d, Route(img, l.Pixels(0)), l.h, l.w, l.n * l.g) && Runnable(d) && !Writes(img, l.h, l.w, l.n * l.g, a)
    ensures !ReadsCell(d, a)
  {
    forall n: nat | n < d.src.Count()
      ensures d.src.Cell(n) != a
    {
      var y, x, b := StreamCell(d.src, img, l.h, l.w, l.n * l.g, n);
    }
  }

  lemma IgnoresConcat(p: seq<Desc>, q: seq<Desc>, a: nat)
    requires Ignores(p, a) && Ignores(q, a)
    ensures Ignores(p + q, a)
  {
  }

  lemma MissesTail(p: seq<Desc>, q: seq<Desc>, a: int)
    requires !Misses(q, a)
    ensures !Misses(p + q, a)
  {
    var i :| 0 <= i < |q| && Runnable(q[i]) && WritesCell(q[i], a);
    assert (p + q)[|p| + i] == q[i];
  }

  lemma ProgramIgnores(l: Layout, img: Grid, d: Desc, mid: seq<Desc>, out: seq<Desc>, a: nat)
    requires Carries(d, Route(img, l.Pixels(0)), l.h, l.w, l.n * l.g) && FromBuffer(mid) && FromBuffer(out)
    requires a < MEMORY && !Writes(img, l.h, l.w, l.n * l.g, a)
    ensures Ignores([d] + (mid + out), a)
  {
    if Runnable(d) {
      ImageIgnores(l, img, d, a);
    }
    BufferIgnores(mid, a);
    BufferIgnores(out, a);
    IgnoresConcat(mid, out, a);
    IgnoresConcat([d], mid + out, a);
  }

  // A memory cell that some lane writes, that is no cell of a chosen plane and
  // that nothing reads: no two stores that differ there can both be split right.
  lemma SplitSpoils(l: Layout, img: Grid, planes: seq<Grid>, ks: seq<nat>, q: seq<Desc>, a: nat, s: Store) returns (t: Store)
    requires |planes| >= l.n && Lanes(l, ks) && a < MEMORY && Ignores(q, a) && !Misses(q, a)
    requires !RoutesWrite(OutRoutes(l, planes, ks), l.h, l.w, l.g, a)
    ensures !SplitDone(l, img, planes, ks, t, ExecAll(q, t))
  {
    t := s[a := if s[a] == 0 then 1 else 0];
    ExecAllAgree(q, s, t, a);
    if SplitDone(l, img, planes, ks, t, ExecAll(q, t)) {
      assert ExecAll(q, s)[a] != s[a];
      t := s;
    }
  }

  lemma SplitFails(l: Layout, img: Grid, planes: seq<Grid>, ks: seq<nat>, d: Desc, mid: seq<Desc>, out: seq<Desc>, a: nat)
    returns (s: Store)
    requires |planes| >= l.n && Lanes(l, ks) && Carries(d, Route(img, l.Pixels(0)), l.h, l.w, l.n * l.g)
    requires FromBuffer(mid) && FromBuffer(out) && a < MEMORY && !Misses(out, a)
    requires !Writes(img, l.h, l.w, l.n * l.g, a) && !RoutesWrite(OutRoutes(l, planes, ks), l.h, l.w, l.g, a)
    ensures !SplitDone(l, img, planes, ks, s, ExecAll([d] + (mid + out), s))
  {
    var zero: Store := seq(CELLS, i => 0);
    ProgramIgnores(l, img, d, mid, out, a);
    MissesTail(mid, out, a);
    MissesTail([d], mid + out, a);
    s := SplitSpoils(l, img, planes, ks, [d] + (mid + out), a, zero);
  }

  // The channels 0, 1, ..., n - 1.
  function All(n: nat): (ks: seq<nat>)
    ensures |ks| == n
  {
    seq(n, i => i)
  }

  // Every channel once, in some order.
  ghost predicate Every(l: Layout, ks: seq<nat>) {
    Lanes(l, ks) && forall k: nat :: k < l.n ==> k in ks
  }

  lemma PlaceOf(l: Layout, ks: seq<nat>, k: nat) returns (i: nat)
    requires Every(l, ks) && k < l.n
    ensures i < |ks| && ks[i] == k
  {
    assert k in ks;
    i :| i < |ks| && ks[i] == k;
  }

  lemma MergeEntry(l: Layout, planes: seq<Grid>, ks: seq<nat>, q: seq<Desc>, s: Store)
    requires Fits(l) && Every(l, ks) && PlanesIn(l, planes, ks) && CarriesAll(q, InRoutes(l, planes, ks), l.h, l.w, l.g)
    ensures forall k :: 0 <= k < l.n ==> Moved(Route(planes[k], l.Channel(0, k)), l.h, l.w, l.g, s, ExecAll(q, s))
    ensures SameMemory(s, ExecAll(q, s))
  {
    var rs := InRoutes(l, planes, ks);
    InDisjoint(l, planes, ks);
    LanesMove(q, rs, l.h, l.w, l.g, s);
    forall i | 0 <= i < |rs|
      ensures Within(rs[i].to, l.h, l.w, l.g, MEMORY, CELLS)
    {
      ChannelsApart(l, 0, ks[i], ks[i]);
    }
    BufferOnly(rs, l.h, l.w, l.g, s, ExecAll(q, s));
    forall k: nat | k < l.n
      ensures Moved(Route(planes[k], l.Channel(0, k)), l.h, l.w, l.g, s, ExecAll(q, s))
    {
      var i := PlaceOf(l, ks, k);
      assert rs[i] == Route(planes[k], l.Channel(0, k));
    }
  }

  lemma MergeMiddle(l: Layout, ks: seq<nat>, q: seq<Desc>, s: Store)
    requires Fits(l) && Every(l, ks) && CarriesAll(q, MergeRoutes(l, ks), l.h, l.w, l.g)
    ensures forall k :: 0 <= k < l.n ==>
              Moved(Route(l.Channel(0, k), l.Part(l.Half(), k)), l.h, l.w, l.g, s, ExecAll(q, s))
    ensures SameMemory(s, ExecAll(q, s))
  {
    var rs := MergeRoutes(l, ks);
    MergeDisjoint(l, ks);
    LanesMove(q, rs, l.h, l.w, l.g, s);
    forall i | 0 <= i < |rs|
      ensures Within(rs[i].to, l.h, l.w, l.g, MEMORY, CELLS)
    {
      PartColumn(l, l.Half(), ks[i]);
      ColumnWithin(rs[i].to, l, l.Half(), l.Row());
    }
    BufferOnly(rs, l.h, l.w, l.g, s, ExecAll(q, s));
    forall k: nat | k < l.n
      ensures Moved(Route(l.Channel(0, k), l.Part(l.Half(), k)), l.h, l.w, l.g, s, ExecAll(q, s))
    {
      var i := PlaceOf(l, ks, k);
      assert rs[i] == Route(l.Channel(0, k), l.Part(l.Half(), k));
    }
  }

  lemma MergeChannel(l: Layout, img: Grid, plane: Grid, k: nat, s: Store, s1: Store, s2: Store, u: Store)
    requires Fits(l) && k < l.n && InMemory(plane, l.h, l.w, l.g)
    requires Moved(Route(plane, l.Channel(0, k)), l.h, l.w, l.g, s, s1)
    requires Moved(Route(l.Channel(0, k), l.Part(l.Half(), k)), l.h, l.w, l.g, s1, s2)
    requires forall y: nat, x: nat, b: nat :: y < l.h && x < l.w && b < l.n * l.g ==>
               Get(u, img.At(y, x, b)) == Get(s2, l.Pixels(l.Half()).At(y, x, b))
    ensures Holds(l, img, plane, k, u, s)
  {
    ChannelsApart(l, 0, k, k);
    PixelsFit(l, l.Half());
    forall y: nat, x: nat, b: nat | y < l.h && x < l.w && b < l.g
      ensures Get(s, plane.At(y, x, b)) == Get(u, img.At(y, x, l.g * k + b))
    {
      ChannelByte(l, k, b);
      PartAt(l, l.Half(), k, y, x, b);
      assert l.Channel(0, k).At(y, x, b) < CELLS;
      assert l.Pixels(l.Half()).At(y, x, l.g * k + b) < CELLS;
      assert Get(s2, l.Part(l.Half(), k).At(y, x, b)) == Get(s1, l.Channel(0, k).At(y, x, b));
    }
  }

  lemma MergeStages(q: seq<Desc>, mid: seq<Desc>, d: Desc, s: Store)
    ensures ExecAll(q + (mid + [d]), s) == Exec(d, ExecAll(mid, ExecAll(q, s)))
  {
    ExecAllConcat(q, mid + [d], s);
    ExecAllConcat(mid, [d], ExecAll(q, s));
    assert [d][1..] == [];
  }

  // Merging puts plane k in byte group k of every pixel and changes no other
  // memory, whatever the order of the lanes in the first two descriptors. The
  // planes may overlap each other and the image.
  lemma MergeCorrect(l: Layout, img: Grid, planes: seq<Grid>, ins: seq<nat>, mids: seq<nat>,
                     q: seq<Desc>, mid: seq<Desc>, d: Desc, s: Store)
    requires Fits(l) && Every(l, ins) && Every(l, mids) && PlanesIn(l, planes, ins)
    requires InMemory(img, l.h, l.w, l.n * l.g) && Injective(img, l.h, l.w, l.n * l.g)
    requires CarriesAll(q, InRoutes(l, planes, ins), l.h, l.w, l.g) && CarriesAll(mid, MergeRoutes(l, mids), l.h, l.w, l.g)
    requires Carries(d, Route(l.Pixels(l.Half()), img), l.h, l.w, l.n * l.g)
    ensures MergeDone(l, img, planes, s, ExecAll(q + (mid + [d]), s))
  {
    var s1 := ExecAll(q, s);
    var s2 := ExecAll(mid, s1);
    var u := Exec(d, s2);
    MergeStages(q, mid, d, s);
    MergeEntry(l, planes, ins, q, s);
    MergeMiddle(l, mids, mid, s1);
    ImageOut(l, img, d, s2);
    forall k: nat | k < l.n
      ensures Holds(l, img, planes[k], k, u, s)
    {
      var i := PlaceOf(l, ins, k);
      assert InMemory(planes[ins[i]], l.h, l.w, l.g);
      MergeChannel(l, img, planes[k], k, s, s1, s2, u);
    }
  }

  // ----- merging with pixels too close together -----

  // Byte b of channel k of pixel x of a line, pixels step bytes apart.
  lemma SpacedByte(n: nat, g: nat, w: nat, step: nat, k: nat, x: nat, b: nat)
    requires k < n && x < w && b < g && step <= n * g
    ensures 0 <= g * k + x * step + b < n * g * w
    ensures step < n * g && 2 <= w ==> g * k + x * step + b < n * g * w - 1
  {
    LineByte(g, n, k, b);
    MulLe(x, w - 1, step);
    MulLe(0, x, step);
    assert (w - 1) * (n * g) == n * g * w - n * g;
    if step < n * g {
      assert (w - 1) * (step + 1) == (w - 1) * step + (w - 1);
      assert (w - 1) * (step + 1) <= (w - 1) * (n * g) by {
        MulLe(step + 1, n * g, w - 1);
      }
    } else {
      assert step == n * g;
    }
  }

  lemma SpacedColumn(l: Layout, at: nat, k: nat, step: nat)
    requires Fits(l) && k < l.n && step <= l.n * l.g
    ensures Column(l.Spaced(at, k, step), l.w, l.g, at, at + l.Half())
  {
    var a := l.Spaced(at, k, step);
    MulLe(l.g * l.w, 256, l.n);
    assert l.n * l.g * l.w == (l.g * l.w) * l.n;
    forall x: nat, b: nat | x < l.w && b < l.g
      ensures at <= a.At(0, x, b) - a.space < at + l.Half()
    {
      SpacedByte(l.n, l.g, l.w, step, k, x, b);
    }
  }

  // The last byte of the first line of the pixel lane.
  function LastByte(l: Layout): int {
    MEMORY + l.Half() + l.n * l.g * l.w - 1
  }

  lemma LastByteIs(l: Layout)
    requires Fits(l)
    ensures LastByte(l) == l.Part(l.Half(), l.n - 1).At(0, l.w - 1, l.g - 1) == l.Pixels(l.Half()).At(0, l.w - 1, l.n * l.g - 1)
    ensures MEMORY <= LastByte(l) < CELLS
  {
    PixelsFit(l, l.Half());
    MulLe(1, l.n, l.g);
    assert (l.w - 1) * (l.n * l.g) == l.n * l.g * l.w - l.n * l.g;
    assert l.g * (l.n - 1) == l.n * l.g - l.g;
    assert 0 < l.n * l.g;
    assert l.Pixels(l.Half()).At(0, l.w - 1, l.n * l.g - 1) < CELLS;
  }

  // No lane gets there when the step is too short.
  lemma LastByteMissed(l: Layout, k: nat, step: nat)
    requires Fits(l) && k < l.n && step < l.n * l.g && 2 <= l.w
    ensures !Writes(l.Spaced(l.Half(), k, step), l.h, l.w, l.g, LastByte(l))
  {
    MulLe(l.g * l.w, 256, l.n);
    assert l.n * l.g * l.w == (l.g * l.w) * l.n;
    forall y: nat, x: nat, b: nat | y < l.h && x < l.w && b < l.g
      ensures l.Spaced(l.Half(), k, step).At(y, x, b) != LastByte(l)
    {
      SpacedByte(l.n, l.g, l.w, step, k, x, b);
      if y > 0 {
        MulLe(1, y, l.Row());
      }
    }
  }

  ghost predicate Strays(l: Layout, d: Desc, k: nat, step: nat) {
    && d.Copy? && !d.swap && Streams(d.src, l.Channel(0, k), l.h, l.w, l.g)
    && Streams(d.dst, l.Spaced(l.Half(), k, step), l.h, l.w, l.g)
  }

  ghost predicate AllStray(l: Layout, mid: seq<Desc>, ks: seq<nat>, step: nat) {
    |mid| == |ks| && forall i :: 0 <= i < |mid| ==> Strays(l, mid[i], ks[i], step)
  }

  lemma LastByteStays(l: Layout, ks: seq<nat>, mid: seq<Desc>, step: nat, s: Store, a: nat)
    requires Fits(l) && Lanes(l, ks) && step < l.n * l.g && 2 <= l.w && a == LastByte(l) && a < CELLS
    requires AllStray(l, mid, ks, step)
    ensures ExecAll(mid, s)[a] == s[a]
  {
    forall i | 0 <= i < |mid| && Runnable(mid[i])
      ensures !WritesCell(mid[i], a)
    {
      LastByteMissed(l, ks[i], step);
      StreamMisses(mid[i], l.Spaced(l.Half(), ks[i], step), l.h, l.w, l.g, a);
    }
    ExecAllKeeps(mid, s, a);
  }

  lemma LastByteApart(l: Layout, k: nat)
    requires Fits(l) && k < l.n
    ensures !Writes(l.Channel(0, k), l.h, l.w, l.g, LastByte(l))
  {
    LastByteIs(l);
    HalvesApart(l, k, l.n - 1);
    forall y: nat, x: nat, b: nat | y < l.h && x < l.w && b < l.g
      ensures l.Channel(0, k).At(y, x, b) != LastByte(l)
    {
      assert l.Channel(0, k).At(y, x, b) != l.Part(l.Half(), l.n - 1).At(0, l.w - 1, l.g - 1);
    }
  }

  lemma LastByteEntered(l: Layout, planes: seq<Grid>, ks: seq<nat>, q: seq<Desc>, s: Store, a: nat)
    requires Fits(l) && PlanesIn(l, planes, ks) && CarriesAll(q, InRoutes(l, planes, ks), l.h, l.w, l.g)
    requires a == LastByte(l) && a < CELLS
    ensures ExecAll(q, s)[a] == s[a]
  {
    var rs := InRoutes(l, planes, ks);
    InDisjoint(l, planes, ks);
    LanesMove(q, rs, l.h, l.w, l.g, s);
    forall i | 0 <= i < |rs|
      ensures !Writes(rs[i].to, l.h, l.w, l.g, a)
    {
      LastByteApart(l, ks[i]);
    }
  }

  // The last byte of the first line of the image, once it has left the buffer.
  lemma LastByteOut(l: Layout, img: Grid, d: Desc, s: Store, a: nat, b: nat)
    requires Fits(l) && InMemory(img, l.h, l.w, l.n * l.g) && Injective(img, l.h, l.w, l.n * l.g)
    requires Carries(d, Route(l.Pixels(l.Half()), img), l.h, l.w, l.n * l.g)
    requires a == LastByte(l) && a < CELLS && b == l.g * (l.n - 1) + (l.g - 1)
    ensures Get(Exec(d, s), img.At(0, l.w - 1, b)) == s[a]
  {
    LastByteIs(l);
    ImageOut(l, img, d, s);
    ChannelByte(l, l.n - 1, l.g - 1);
    assert b == l.n * l.g - 1;
  }

  // Then that byte of the image is what the buffer held before, and the merge
  // fails from every store in which the last plane holds something else.
  lemma MergeFails(l: Layout, img: Grid, planes: seq<Grid>, ins: seq<nat>, mids: seq<nat>,
                   q: seq<Desc>, mid: seq<Desc>, d: Desc, step: nat, s: Store)
    requires Fits(l) && step < l.n * l.g && 2 <= l.w && PlanesIn(l, planes, ins) && Lanes(l, mids)
    requires InMemory(img, l.h, l.w, l.n * l.g) && Injective(img, l.h, l.w, l.n * l.g)
    requires CarriesAll(q, InRoutes(l, planes, ins), l.h, l.w, l.g) && AllStray(l, mid, mids, step)
    requires Carries(d, Route(l.Pixels(l.Half()), img), l.h, l.w, l.n * l.g)
    requires Get(s, LastByte(l)) != Get(s, planes[l.n - 1].At(0, l.w - 1, l.g - 1))
    ensures !MergeDone(l, img, planes, s, ExecAll(q + (mid + [d]), s))
  {
    MergeStages(q, mid, d, s);
    LastByteIs(l);
    LastByteEntered(l, planes, ins, q, s, LastByte(l));
    LastByteStays(l, mids, mid, step, ExecAll(q, s), LastByte(l));
    LastByteFails(l, img, planes, d, s, ExecAll(mid, ExecAll(q, s)), LastByte(l));
  }

  lemma LastByteFails(l: Layout, img: Grid, planes: seq<Grid>, d: Desc, s: Store, u: Store, a: nat)
    requires Fits(l) && |planes| >= l.n && InMemory(img, l.h, l.w, l.n * l.g) && Injective(img, l.h, l.w, l.n * l.g)
    requires Carries(d, Route(l.Pixels(l.Half()), img), l.h, l.w, l.n * l.g)
    requires a == LastByte(l) && a < CELLS && u[a] == s[a] && s[a] != Get(s, planes[l.n - 1].At(0, l.w - 1, l.g - 1))
    ensures !MergeDone(l, img, planes, s, Exec(d, u))
  {
    var b := l.g * (l.n - 1) + (l.g - 1);
    LastByteOut(l, img, d, u, a, b);
    NotHeld(l, img, planes[l.n - 1], l.n - 1, s, Exec(d, u), b);
  }

  lemma NotHeld(l: Layout, img: Grid, plane: Grid, k: nat, s: Store, u: Store, b: nat)
    requires Fits(l) && b == l.g * k + (l.g - 1)
    requires Get(u, img.At(0, l.w - 1, b)) != Get(s, plane.At(0, l.w - 1, l.g - 1))
    ensures !Holds(l, img, plane, k, u, s)
  {
  }

  // ----- there and back -----

  // Splitting an image and merging the planes gives the image back.
  lemma SplitThenMerge(l: Layout, img: Grid, planes: seq<Grid>, img': Grid, s: Store, t: Store, u: Store)
    requires Fits(l) && |planes| >= l.n
    requires (forall i :: 0 <= i < l.n ==> Holds(l, img, planes[All(l.n)[i]], All(l.n)[i], s, t)) && MergeDone(l, img', planes, t, u)
    ensures forall y: nat, x: nat, b: nat :: y < l.h && x < l.w && b < l.n * l.g ==>
              Get(u, img'.At(y, x, b)) == Get(s, img.At(y, x, b))
  {
    forall y: nat, x: nat, b: nat | y < l.h && x < l.w && b < l.n * l.g
      ensures Get(u, img'.At(y, x, b)) == Get(s, img.At(y, x, b))
    {
      var k, r := Quot(b, l.g), Rem(b, l.g);
      QuotRem(b, l.g);
      if l.n <= k {
        MulLe(l.n, k, l.g);
      }
      assert All(l.n)[k] == k;
      assert Holds(l, img, planes[k], k, s, t) && Holds(l, img', planes[k], k, u, t);
      assert Get(t, planes[k].At(y, x, r)) == Get(s, img.At(y, x, l.g * k + r));
    }
  }

  // Merging planes and splitting the image gives the planes back.
  lemma MergeThenSplit(l: Layout, img: Grid, planes: seq<Grid>, planes': seq<Grid>, s: Store, t: Store, u: Store)
    requires Fits(l) && |planes| >= l.n && |planes'| >= l.n && Lanes(l, All(l.n))
    requires MergeDone(l, img, planes, s, t) && SplitDone(l, img, planes', All(l.n), t, u)
    ensures forall k: nat, y: nat, x: nat, b: nat :: k < l.n && y < l.h && x < l.w && b < l.g ==>
              Get(u, planes'[k].At(y, x, b)) == Get(s, planes[k].At(y, x, b))
  {
    forall k: nat, y: nat, x: nat, b: nat | k < l.n && y < l.h && x < l.w && b < l.g
      ensures Get(u, planes'[k].At(y, x, b)) == Get(s, planes[k].At(y, x, b))
    {
      assert All(l.n)[k] == k;
      assert Holds(l, img, planes'[k], k, t, u) && Holds(l, img, planes[k], k, t, s);
      assert Get(u, planes'[k].At(y, x, b)) == Get(t, img.At(y, x, l.g * k + b));
    }
  }
}
