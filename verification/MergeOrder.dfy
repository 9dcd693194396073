// What merge requests do, and a split followed by a merge, with the lanes of
// every descriptor in any order. The lanes of a merge keep apart, so there the
// order makes no difference.
module MergeOrder {
  import opened Words
  import opened Machine
  import opened DescRecord
  import opened MvpuRecord
  import opened LaneCopies
  import opened SplitMerge
  import opened SplitFill
  import opened SplitOrder

  predicate MergeAsks(r: ChannelInfo, l: Layout) {
    && MERGE_2 <= r.fmt <= MERGE_2 + 2 && l.n == Channels(r.fmt, MERGE_2) && Fits(l) && r.pixel == l.g
    && Shows(r.image, l.h, l.w, l.n * l.g) && r.image.z == 1
    && forall k :: 0 <= k < l.n ==> Shows(PlaneAt(r, k), l.h, l.w, l.g)
  }

  // The planes can be read and the image written.
  ghost predicate MergeRoom(r: ChannelInfo, l: Layout) {
    && (forall k :: 0 <= k < l.n <= 4 ==> InMemory(PlaneGrids(r, l.g)[k], l.h, l.w, l.g))
    && InMemory(ImageOf(r, l), l.h, l.w, l.n * l.g)
    && Injective(ImageOf(r, l), l.h, l.w, l.n * l.g)
  }

  // A merge takes no mask: the lanes that are on are those of the channels.
  ghost predicate MergeOrders(r: ChannelInfo, ins: seq<nat>, mids: seq<nat>) {
    var pipes := Pipes(Channels(r.fmt, MERGE_2), 0);
    Order(pipes, ins, 4) && Order(pipes, mids, 4)
  }

  function MergeProgram(r: ChannelInfo, ins: seq<nat>, mids: seq<nat>): seq<Desc>
    requires 0 < r.pixel && (forall k :: k in ins ==> k < 4) && forall k :: k in mids ==> k < 4
  {
    LanesBy(MergeIn(r), ins) + (LanesBy(MergeMid(r), mids) + [DescOf(MergeOut(r).t)])
  }

  ghost predicate MergesBy(r: ChannelInfo, l: Layout, ins: seq<nat>, mids: seq<nat>, s: Store)
    requires 0 < r.pixel && l.n <= 4 && MergeOrders(r, ins, mids)
  {
    MergeDone(l, ImageOf(r, l), PlaneGrids(r, l.g), s, ExecAll(MergeProgram(r, ins, mids), s))
  }

  lemma OrderEvery(l: Layout, ks: seq<nat>)
    requires Fits(l) && Order(Pipes(l.n, 0), ks, 4)
    ensures Every(l, ks) && forall k :: k in ks ==> k < 4
  {
    forall k: nat | k < 4
      ensures Active(Pipes(l.n, 0), k) <==> k < l.n
    {
      NoMask(l.n, k);
    }
    forall i | 0 <= i < |ks|
      ensures ks[i] < l.n
    {
      assert ks[i] in ks;
    }
  }

  // The order of Meanings is one of them.
  lemma MergeUp(r: ChannelInfo, ks: seq<nat>)
    requires 0 < r.pixel && ks == ActiveFrom(Pipes(Channels(r.fmt, MERGE_2), 0), 0, 4)
    ensures MergeOrders(r, ks, ks) && MergeProgram(r, ks, ks) == Meanings(MergeRecords(r))
  {
    Ascending(MergeIn(r));
    Ascending(MergeMid(r));
    ThreeMeanings(MergeIn(r), MergeMid(r), MergeOut(r));
  }

  lemma MergeNumbers(r: ChannelInfo, l: Layout)
    requires MergeAsks(r, l)
    ensures Field16(Quot(r.p0.x, r.pixel)) == l.w && Field16(r.p0.y) == l.h
    ensures Field16(r.image.x) == l.n * l.g * l.w && Field16(r.image.y) == l.h && Field16(r.image.z) == 1
  {
    assert Shows(PlaneAt(r, 0), l.h, l.w, l.g);
    LayoutSmall(l);
    Division(r.p0.x, r.pixel, l.w);
    SmallField(l.w);
    SmallField(l.h);
    SmallField(r.image.x);
    SmallField(1);
  }

  lemma PlaneInCarries(r: ChannelInfo, l: Layout, k: nat, p: Area, plane: Grid)
    requires l.n == Channels(r.fmt, MERGE_2) && Fits(l) && k < l.n && Shows(p, l.h, l.w, l.g)
    requires plane == ImageGrid(p, l.g) && InMemory(plane, l.h, l.w, l.g)
    ensures Carries(LaneCopy(MergeIn(r), PlaneInLane(r, p, k)), Route(plane, l.Channel(0, k)), l.h, l.w, l.g)
  {
    LayoutSmall(l);
    SmallField(p.x);
    SmallField(p.y);
    PlaneLane(l, LaneCopy(MergeIn(r), PlaneInLane(r, p, k)), plane, l.Channel(0, k), plane, k, 0);
  }

  lemma MergeInCarries(r: ChannelInfo, l: Layout, ins: seq<nat>)
    requires MergeAsks(r, l) && MergeRoom(r, l) && Order(Pipes(l.n, 0), ins, 4)
    ensures Every(l, ins) && (forall k :: k in ins ==> k < 4) && PlanesIn(l, PlaneGrids(r, l.g), ins)
    ensures CarriesAll(LanesBy(MergeIn(r), ins), InRoutes(l, PlaneGrids(r, l.g), ins), l.h, l.w, l.g)
  {
    var planes := PlaneGrids(r, l.g);
    OrderEvery(l, ins);
    forall i | 0 <= i < |ins|
      ensures InMemory(planes[ins[i]], l.h, l.w, l.g)
    {
    }
    forall i | 0 <= i < |ins|
      ensures Carries(LanesBy(MergeIn(r), ins)[i], InRoutes(l, planes, ins)[i], l.h, l.w, l.g)
    {
      PlaneInCarries(r, l, ins[i], PlaneAt(r, ins[i]), planes[ins[i]]);
      assert MergeIn(r).lanes[ins[i]] == PlaneInLane(r, PlaneAt(r, ins[i]), ins[i]);
    }
  }

  // The pixels of the lane end up the wrapped step apart.
  lemma MergeLaneStrays(r: ChannelInfo, l: Layout, k: nat, d: Desc)
    requires MergeAsks(r, l) && k < l.n && d == LaneCopy(MergeMid(r), MergeLane(r, k))
    ensures Strays(l, d, k, MergeStep(l.n, l.g))
  {
    var from, to := l.Channel(0, k), l.Spaced(l.Half(), k, MergeStep(l.n, l.g));
    MergeNumbers(r, l);
    StepShort(l);
    LanesIn(l, k, 0);
    SpacedColumn(l, l.Half(), k, MergeStep(l.n, l.g));
    ColumnWithin(to, l, l.Half(), l.Row());
    PlainPixels(d.src, from, l.h, l.w, l.g, MEMORY, CELLS);
    PlainPixels(d.dst, to, l.h, l.w, l.g, MEMORY, CELLS);
  }

  lemma StepShort(l: Layout)
    ensures MergeStep(l.n, l.g) <= l.n * l.g
    ensures MergeStep(l.n, l.g) == l.n * l.g <==> l.n * l.g < 0x100
  {
    assert l.g * l.n == l.n * l.g;
  }

  // One pixel to the line, or pixels that fit their step, are where they belong.
  lemma StrayCarries(l: Layout, d: Desc, k: nat, step: nat)
    requires Strays(l, d, k, step) && (step == l.n * l.g || l.w == 1)
    ensures Carries(d, Route(l.Channel(0, k), l.Part(l.Half(), k)), l.h, l.w, l.g)
  {
    var a, b := l.Spaced(l.Half(), k, step), l.Part(l.Half(), k);
    forall y: nat, x: nat, i: nat | y < l.h && x < l.w && i < l.g
      ensures d.dst.Cell(Lin(l.w, l.g, y, x, i)) == b.At(y, x, i)
    {
      assert x * step == x * (l.n * l.g) by {
        if l.w == 1 {
          assert x == 0;
        }
      }
      assert a.At(y, x, i) == b.At(y, x, i);
    }
  }

  lemma MergeMidStrays(r: ChannelInfo, l: Layout, mids: seq<nat>)
    requires MergeAsks(r, l) && Order(Pipes(l.n, 0), mids, 4)
    ensures Every(l, mids) && (forall k :: k in mids ==> k < 4) && AllStray(l, LanesBy(MergeMid(r), mids), mids, MergeStep(l.n, l.g))
  {
    OrderEvery(l, mids);
    forall i | 0 <= i < |mids|
      ensures Strays(l, LanesBy(MergeMid(r), mids)[i], mids[i], MergeStep(l.n, l.g))
    {
      assert MergeMid(r).lanes[mids[i]] == MergeLane(r, mids[i]);
      MergeLaneStrays(r, l, mids[i], LanesBy(MergeMid(r), mids)[i]);
    }
  }

  lemma MergeMidCarries(r: ChannelInfo, l: Layout, mids: seq<nat>)
    requires MergeAsks(r, l) && Order(Pipes(l.n, 0), mids, 4) && (l.n * l.g < 0x100 || l.w == 1)
    ensures Every(l, mids) && (forall k :: k in mids ==> k < 4)
    ensures CarriesAll(LanesBy(MergeMid(r), mids), MergeRoutes(l, mids), l.h, l.w, l.g)
  {
    var q := LanesBy(MergeMid(r), mids);
    MergeMidStrays(r, l, mids);
    StepShort(l);
    forall i | 0 <= i < |mids|
      ensures Carries(q[i], MergeRoutes(l, mids)[i], l.h, l.w, l.g)
    {
      StrayCarries(l, q[i], mids[i], MergeStep(l.n, l.g));
    }
  }

  lemma MergeOutCarries(r: ChannelInfo, l: Layout)
    requires MergeAsks(r, l) && InMemory(ImageOf(r, l), l.h, l.w, l.n * l.g)
    ensures Carries(DescOf(MergeOut(r).t), Route(l.Pixels(l.Half()), ImageOf(r, l)), l.h, l.w, l.n * l.g)
  {
    var img := ImageOf(r, l);
    MergeNumbers(r, l);
    ImageLane(l, DescOf(MergeOut(r).t), l.Pixels(l.Half()), img, img, l.Half());
  }

  // Running the three records of a merge request merges the planes when a
  // merged pixel fits the step, or there is one pixel to the line.
  lemma MergeRun(r: ChannelInfo, l: Layout, ins: seq<nat>, mids: seq<nat>, s: Store)
    requires MergeAsks(r, l) && MergeRoom(r, l) && MergeOrders(r, ins, mids) && (l.n * l.g < 0x100 || l.w == 1)
    ensures MergesBy(r, l, ins, mids, s)
  {
    MergeInCarries(r, l, ins);
    MergeMidCarries(r, l, mids);
    MergeOutCarries(r, l);
    MergeCorrect(l, ImageOf(r, l), PlaneGrids(r, l.g), ins, mids,
                 LanesBy(MergeIn(r), ins), LanesBy(MergeMid(r), mids), DescOf(MergeOut(r).t), s);
  }

  // Otherwise it fails, from every store in which the buffer byte that should
  // be the last of the first line differs from that byte of the last plane.
  lemma MergeFailsRun(r: ChannelInfo, l: Layout, ins: seq<nat>, mids: seq<nat>, s: Store)
    requires MergeAsks(r, l) && MergeRoom(r, l) && MergeOrders(r, ins, mids) && 0x100 <= l.n * l.g && 2 <= l.w
    requires Get(s, LastByte(l)) != Get(s, PlaneGrids(r, l.g)[l.n - 1].At(0, l.w - 1, l.g - 1))
    ensures !MergesBy(r, l, ins, mids, s)
  {
    MergeInCarries(r, l, ins);
    MergeMidStrays(r, l, mids);
    MergeOutCarries(r, l);
    StepShort(l);
    MergeFails(l, ImageOf(r, l), PlaneGrids(r, l.g), ins, mids, LanesBy(MergeIn(r), ins), LanesBy(MergeMid(r), mids),
               DescOf(MergeOut(r).t), MergeStep(l.n, l.g), s);
  }

  // Such a store exists: all zero but for that byte.
  lemma Telling(l: Layout, plane: Grid) returns (s: Store)
    requires Fits(l) && InMemory(plane, l.h, l.w, l.g)
    ensures Get(s, LastByte(l)) != Get(s, plane.At(0, l.w - 1, l.g - 1))
  {
    LastByteIs(l);
    var zero: Store := seq(CELLS, i => 0);
    s := zero[LastByte(l) := 1];
    assert 0 <= plane.At(0, l.w - 1, l.g - 1) < MEMORY;
  }

  // A merge request merges, whatever memory holds and in whatever order its
  // lanes run, exactly when its pixels are shorter than 256 bytes or alone on
  // their line.
  lemma MergeExact(r: ChannelInfo, l: Layout, ins: seq<nat>, mids: seq<nat>)
    requires MergeAsks(r, l) && MergeRoom(r, l) && MergeOrders(r, ins, mids)
    ensures (forall s: Store :: MergesBy(r, l, ins, mids, s)) <==> l.n * l.g < 0x100 || l.w == 1
  {
    if l.n * l.g < 0x100 || l.w == 1 {
      forall s: Store
        ensures MergesBy(r, l, ins, mids, s)
      {
        MergeRun(r, l, ins, mids, s);
      }
    } else {
      var s := Telling(l, PlaneGrids(r, l.g)[l.n - 1]);
      MergeFailsRun(r, l, ins, mids, s);
    }
  }

  // Four channels of 64 bytes, one line of four pixels: all four would start at
  // the same place.
  function WideRequest(): ChannelInfo {
    var p := Area(0, 256, 1, 1, 256, 0);
    ChannelInfo(98, 0, Area(0x1000, 1024, 1, 1, 1024, 0), p, p, p, p, 0, 64)
  }

  lemma WideRoom(r: ChannelInfo, l: Layout, p: Grid, image: Grid)
    requires r == WideRequest() && l == Layout(4, 64, 4, 1) && p == ImageGrid(r.p0, 64) && image == ImageGrid(r.image, 256)
    ensures MergeRoom(r, l)
  {
    RowsWithin(p, 1, 4, 64);
    RowsWithin(image, 1, 4, 256);
    RowsInjective(image, 1, 4, 256);
    forall k | 0 <= k < 4
      ensures PlaneGrids(r, 64)[k] == p
    {
      assert PlaneAt(r, k) == r.p0;
    }
  }

  lemma WideMerge(ins: seq<nat>, mids: seq<nat>)
    requires MergeOrders(WideRequest(), ins, mids)
    ensures MergeAsks(WideRequest(), Layout(4, 64, 4, 1)) && MergeRoom(WideRequest(), Layout(4, 64, 4, 1))
    ensures !forall s: Store :: MergesBy(WideRequest(), Layout(4, 64, 4, 1), ins, mids, s)
  {
    var r, l := WideRequest(), Layout(4, 64, 4, 1);
    WideRoom(r, l, ImageGrid(r.p0, 64), ImageGrid(r.image, 256));
    MergeExact(r, l, ins, mids);
  }

  // A split into all channels, its lanes in time, followed by a merge of the
  // same planes copies the image. The pixel size of a split is a byte, so its
  // pixels always fit the step of the merge.
  lemma RoundTrip(r: ChannelInfo, m: ChannelInfo, l: Layout, mids: seq<nat>, outs: seq<nat>, ins: seq<nat>, mids': seq<nat>, s: Store)
    requires SplitAsks(r, l) && MergeAsks(m, l) && PlaneGrids(m, l.g) == PlaneGrids(r, l.g)
    requires Full(r, l.n) && SplitRoom(r, l) && MergeRoom(m, l)
    requires Orders(r, mids, outs) && InTime(l, mids) && MergeOrders(m, ins, mids')
    ensures forall y: nat, x: nat, b: nat :: y < l.h && x < l.w && b < l.n * l.g ==>
              Get(ExecAll(SplitProgram(r, mids, outs) + MergeProgram(m, ins, mids'), s), ImageOf(m, l).At(y, x, b))
              == Get(s, ImageOf(r, l).At(y, x, b))
  {
    var t := ExecAll(SplitProgram(r, mids, outs), s);
    AllChosen(r, l.n);
    SplitAny(r, l, mids, outs, s);
    MergeRun(m, l, ins, mids', t);
    ExecAllConcat(SplitProgram(r, mids, outs), MergeProgram(m, ins, mids'), s);
    SplitThenMerge(l, ImageOf(r, l), PlaneGrids(r, l.g), ImageOf(m, l),
                   s, t, ExecAll(MergeProgram(m, ins, mids'), t));
  }
}
