// The lanes of one descriptor in any order. A split also runs the lanes a mask
// turns on beyond its channels; these write into the pixel lane that the
// channels are read from, so there the order of the lanes matters.
module SplitOrder {
  import opened Words
  import opened Machine
  import opened DescRecord
  import opened MvpuRecord
  import opened LaneCopies
  import opened SplitMerge
  import opened SplitFill

  // ----- where a lane without a channel gets in the way -----

  // Lane k >= n writes the pixel lane of the next line, from byte 256 * (k - n)
  // on. It hits channel j there.
  predicate Meets(l: Layout, j: nat, k: nat) {
    2 <= l.h && if k == l.n then j < l.w else 256 < l.g * j + (l.w - 1) * (l.n * l.g) + l.g
  }

  // A byte of channel j and a byte lane k writes: one line apart, and at the
  // same place of their lines.
  lemma Collision(l: Layout, j: nat, k: nat, y: nat, x: nat, b: nat, y': nat, x': nat, b': nat)
    requires Fits(l) && j < l.n <= k < 4 && x < l.w && b < l.g && x' < l.w && b' < l.g
    requires l.Part(0, j).At(y, x, b) == l.Channel(l.Half(), k).At(y', x', b')
    ensures y == y' + 1 && l.g * j + x * (l.n * l.g) + b == 256 * (k - l.n) + x' * l.g + b'
  {
    PixelByte(l.n, l.g, l.w, j, x, b);
    LineByte(l.g, l.w, x', b');
    CollisionAt(l, j, k, y, x, b, y', x', b', l.g * j + x * (l.n * l.g) + b, x' * l.g + b');
  }

  lemma CollisionAt(l: Layout, j: nat, k: nat, y: nat, x: nat, b: nat, y': nat, x': nat, b': nat, p: int, q: int)
    requires 2 <= l.n <= k < 4 && 0 <= p < 256 * l.n && 0 <= q < 256
    requires p == l.g * j + x * (l.n * l.g) + b && q == x' * l.g + b'
    requires l.Part(0, j).At(y, x, b) == l.Channel(l.Half(), k).At(y', x', b')
    ensures y == y' + 1 && p == 256 * (k - l.n) + q
  {
    NextRow(l.n, k, y, y', p, q);
  }

  lemma NextRow(n: nat, k: nat, y: nat, y': nat, p: int, q: int)
    requires 2 <= n <= k < 4 && 0 <= p < 256 * n && 0 <= q < 256
    requires y * (512 * n) + p == 256 * n + 256 * k + y' * (512 * n) + q
    ensures y == y' + 1 && p == 256 * (k - n) + q
  {
    assert (y' + 1) * (512 * n) == y' * (512 * n) + 512 * n;
    SameLine(512 * n, y, y' + 1, p, 256 * (k - n) + q);
  }

  lemma SameLine(row: nat, y: nat, y': nat, p: int, q: int)
    requires 0 <= p < row && 0 <= q < row && y * row + p == y' * row + q
    ensures y == y' && p == q
  {
    DivModUnique(row, y, p);
    DivModUnique(row, y', q);
  }

  lemma CollisionMeets(l: Layout, j: nat, k: nat, y: nat, x: nat, b: nat, y': nat, x': nat, b': nat)
    requires Fits(l) && j < l.n <= k < 4 && y < l.h && x < l.w && b < l.g && x' < l.w && b' < l.g
    requires l.Part(0, j).At(y, x, b) == l.Channel(l.Half(), k).At(y', x', b')
    ensures Meets(l, j, k)
  {
    Collision(l, j, k, y, x, b, y', x', b');
    if k == l.n {
      LowHit(l.n, l.g, j, x, b, x', b');
    } else {
      MulLe(x, l.w - 1, l.n * l.g);
      MulLe(0, x', l.g);
    }
  }

  lemma LowHit(n: nat, g: nat, j: nat, x: nat, b: nat, x': nat, b': nat)
    requires b < g && b' < g && g * j + x * (n * g) + b == x' * g + b'
    ensures j <= x'
  {
    assert g * j + x * (n * g) == (j + x * n) * g;
    SameLine(g, j + x * n, x', b, b');
  }

  // The first byte hit on the second line, or the last one of the line.
  lemma MeetsAt(l: Layout, j: nat, k: nat) returns (x: nat, b: nat, x': nat, b': nat)
    requires Fits(l) && j < l.n <= k < 4 && Meets(l, j, k)
    ensures x < l.w && b < l.g && x' < l.w && b' < l.g
    ensures l.Part(0, j).At(1, x, b) == l.Channel(l.Half(), k).At(0, x', b')
  {
    if k == l.n {
      x, b, x', b' := 0, 0, j, 0;
    } else {
      x, b := l.w - 1, l.g - 1;
      var last := l.g * j + x * (l.n * l.g) + b - 256;
      LastShort(l, j, last);
      x', b' := Quot(last, l.g), Rem(last, l.g);
      QuotRem(last, l.g);
      if l.w <= x' {
        MulLe(l.w, x', l.g);
      }
    }
  }

  lemma LastShort(l: Layout, j: nat, last: int)
    requires Fits(l) && l.n == 2 && j < l.n && last == l.g * j + (l.w - 1) * (l.n * l.g) + (l.g - 1) - 256
    ensures last < l.g * l.w
  {
    assert (l.w - 1) * (2 * l.g) == 2 * (l.g * l.w) - 2 * l.g;
  }

  lemma MeetsIff(l: Layout, j: nat, k: nat)
    requires Fits(l) && j < l.n <= k < 4
    ensures Apart(l.Part(0, j), l.Channel(l.Half(), k), l.h, l.w, l.g) <==> !Meets(l, j, k)
  {
    if Meets(l, j, k) {
      var x, b, x', b' := MeetsAt(l, j, k);
    } else {
      forall y: nat, x: nat, b: nat, y': nat, x': nat, b': nat |
        y < l.h && x < l.w && b < l.g && y' < l.h && x' < l.w && b' < l.g
        ensures l.Part(0, j).At(y, x, b) != l.Channel(l.Half(), k).At(y', x', b')
      {
        if l.Part(0, j).At(y, x, b) == l.Channel(l.Half(), k).At(y', x', b') {
          CollisionMeets(l, j, k, y, x, b, y', x', b');
        }
      }
    }
  }

  // What lane k leaves alone of channel j.
  lemma LaneApart(l: Layout, k: nat, j: nat)
    requires Fits(l) && k < 4 && j < l.n && k != j
    ensures Apart(l.Channel(l.Half(), k), l.Channel(l.Half(), j), l.h, l.w, l.g)
    ensures k < l.n || !Meets(l, j, k) ==> Apart(l.Part(0, j), l.Channel(l.Half(), k), l.h, l.w, l.g)
  {
    if k < l.n {
      ChannelsApart(l, l.Half(), k, j);
      HalvesApart(l, j, k);
    } else {
      NextLine(l, k, j);
      MeetsIff(l, j, k);
    }
  }

  // ----- the lanes inside the buffer -----

  function MidLane(r: ChannelInfo, k: nat): Desc
    requires 0 < r.pixel && k < 4
  {
    LaneCopy(SplitMid(r), SplitLane(r, k))
  }

  lemma MidAt(r: ChannelInfo, ks: seq<nat>, i: nat)
    requires 0 < r.pixel && i < |ks| && forall k :: k in ks ==> k < 4
    ensures ks[i] < 4 && LanesBy(SplitMid(r), ks)[i] == MidLane(r, ks[i])
  {
    assert ks[i] in ks;
  }

  // Lane k reads its row of the buffer from byte 0 on.
  lemma SourceByte(n: nat, g: nat, w: nat, k: nat, x: nat, b: nat)
    requires 2 <= n <= 4 && n * g < 0x100 && g * w <= 256 && k < 4 && x < w && b < g
    ensures 0 <= g * k + x * (n * g) + b < 512 * n
  {
    MulLe(x, w - 1, n * g);
    MulLe(0, x, n * g);
    MulLe(k, 3, g);
    MulLe(2, n, g);
    MulLe(g * w, 256, n);
    assert (w - 1) * (n * g) == (g * w) * n - n * g;
  }

  // Grids in the rows of the buffer or, past its end, in the address space behind.
  lemma RowsNear(a: Grid, l: Layout)
    requires Fits(l) && a.space == MEMORY && a.row == l.Row() && Column(a, l.w, l.g, 0, 2 * l.Row())
    ensures Within(a, l.h, l.w, l.g, MEMORY, 2 * MEMORY)
  {
    forall y: nat, x: nat, b: nat | y < l.h && x < l.w && b < l.g
      ensures MEMORY <= a.At(y, x, b) < 2 * MEMORY
    {
      assert 0 <= a.At(0, x, b) - a.space < 2 * l.Row();
      MulLe(y, 16, l.Row());
      MulLe(0, y, l.Row());
    }
  }

  lemma MidColumns(l: Layout, k: nat)
    requires Fits(l) && l.n * l.g < 0x100 && k < 4
    ensures Column(l.Part(0, k), l.w, l.g, 0, l.Row())
    ensures Column(l.Channel(l.Half(), k), l.w, l.g, l.Half() + 256 * k, l.Half() + 256 * k + 256)
  {
    ChannelColumn(l, l.Half(), k);
    var a := l.Part(0, k);
    forall x: nat, b: nat | x < l.w && b < l.g
      ensures 0 <= a.At(0, x, b) - a.space < l.Row()
    {
      SourceByte(l.n, l.g, l.w, k, x, b);
    }
  }

  lemma MidStreams(r: ChannelInfo, l: Layout, k: nat, d: Desc)
    requires SplitAsks(r, l) && k < 4 && d == MidLane(r, k)
    ensures Carries(d, Route(l.Part(0, k), l.Channel(l.Half(), k)), l.h, l.w, l.g)
    ensures Within(l.Channel(l.Half(), k), l.h, l.w, l.g, MEMORY, 2 * MEMORY) && Within(l.Part(0, k), l.h, l.w, l.g, MEMORY, 2 * MEMORY)
  {
    SplitNumbers(r, l);
    MidColumns(l, k);
    RowsNear(l.Part(0, k), l);
    RowsNear(l.Channel(l.Half(), k), l);
    PlainPixels(d.src, l.Part(0, k), l.h, l.w, l.g, MEMORY, 2 * MEMORY);
    PlainPixels(d.dst, l.Channel(l.Half(), k), l.h, l.w, l.g, MEMORY, 2 * MEMORY);
  }

  lemma MidMisses(r: ChannelInfo, l: Layout, k: nat, a: int)
    requires SplitAsks(r, l) && k < 4 && !Writes(l.Channel(l.Half(), k), l.h, l.w, l.g, a)
    ensures Runnable(MidLane(r, k)) ==> !WritesCell(MidLane(r, k), a)
  {
    var d := MidLane(r, k);
    MidStreams(r, l, k, d);
    if Runnable(d) {
      StreamMisses(d, l.Channel(l.Half(), k), l.h, l.w, l.g, a);
    }
  }

  // No lane writes memory.
  lemma MidMemory(r: ChannelInfo, l: Layout, ks: seq<nat>, s: Store)
    requires SplitAsks(r, l) && forall k :: k in ks ==> k < 4
    ensures SameMemory(s, ExecAll(LanesBy(SplitMid(r), ks), s))
  {
    var q := LanesBy(SplitMid(r), ks);
    forall a | 0 <= a < MEMORY
      ensures ExecAll(q, s)[a] == s[a]
    {
      forall i | 0 <= i < |q| && Runnable(q[i])
        ensures !WritesCell(q[i], a)
      {
        MidAt(r, ks, i);
        MidStreams(r, l, ks[i], q[i]);
        MidMisses(r, l, ks[i], a);
      }
      ExecAllKeeps(q, s, a);
    }
  }

  // No lane that gets in the way of a channel comes before it.
  predicate InTime(l: Layout, mids: seq<nat>) {
    forall i, j :: 0 <= i < j < |mids| && mids[j] < l.n <= mids[i] ==> !Meets(l, mids[j], mids[i])
  }

  ghost predicate MidOrder(r: ChannelInfo, mids: seq<nat>) {
    Order(Switched(r), mids, 4)
  }

  // Whether lane mids[i] comes before or after place p, it leaves this alone.
  lemma MidBeside(r: ChannelInfo, l: Layout, mids: seq<nat>, p: nat, i: nat, y: nat, x: nat, b: nat)
    requires SplitAsks(r, l) && MidOrder(r, mids) && p < |mids| && mids[p] < l.n && i < |mids| && i != p
    requires y < l.h && x < l.w && b < l.g
    ensures var d := LanesBy(SplitMid(r), mids)[i];
            && (Runnable(d) ==> !WritesCell(d, l.Channel(l.Half(), mids[p]).At(y, x, b)))
            && (Runnable(d) && i < p && InTime(l, mids) ==> !WritesCell(d, l.Part(0, mids[p]).At(y, x, b)))
  {
    MidAt(r, mids, i);
    var k, j := mids[i], mids[p];
    LaneApart(l, k, j);
    MidMisses(r, l, k, l.Channel(l.Half(), j).At(y, x, b));
    if i < p && InTime(l, mids) {
      MidMisses(r, l, k, l.Part(0, j).At(y, x, b));
    }
  }

  lemma MidMoves(r: ChannelInfo, l: Layout, mids: seq<nat>, p: nat, s: Store)
    requires SplitAsks(r, l) && MidOrder(r, mids) && InTime(l, mids) && p < |mids| && mids[p] < l.n
    ensures Moved(Route(l.Part(0, mids[p]), l.Channel(l.Half(), mids[p])), l.h, l.w, l.g, s, ExecAll(LanesBy(SplitMid(r), mids), s))
  {
    var q, j := LanesBy(SplitMid(r), mids), mids[p];
    MidAt(r, mids, p);
    MidStreams(r, l, j, q[p]);
    ChannelsApart(l, l.Half(), j, j);
    HalvesApart(l, j, j);
    forall y: nat, x: nat, b: nat | y < l.h && x < l.w && b < l.g
      ensures Misses(q[..p], l.Part(0, j).At(y, x, b)) && Misses(q[p + 1..], l.Channel(l.Half(), j).At(y, x, b))
    {
      var before, after := q[..p], q[p + 1..];
      forall i | 0 <= i < |before| && Runnable(before[i])
        ensures !WritesCell(before[i], l.Part(0, j).At(y, x, b))
      {
        MidBeside(r, l, mids, p, i, y, x, b);
      }
      forall i | 0 <= i < |after| && Runnable(after[i])
        ensures !WritesCell(after[i], l.Channel(l.Half(), j).At(y, x, b))
      {
        MidBeside(r, l, mids, p, p + 1 + i, y, x, b);
      }
    }
    MovedAmong(q, p, Route(l.Part(0, j), l.Channel(l.Half(), j)), l.h, l.w, l.g, s);
  }

  // ----- the lanes to memory -----

  function OutLane(r: ChannelInfo, k: nat): Desc
    requires k < 4
  {
    LaneCopy(SplitOut(r), PlaneOutLane(r, PlaneAt(r, k), k))
  }

  lemma OutAt(r: ChannelInfo, ks: seq<nat>, i: nat)
    requires i < |ks| && forall k :: k in ks ==> k < 4
    ensures ks[i] < 4 && LanesBy(SplitOut(r), ks)[i] == OutLane(r, ks[i])
  {
    assert ks[i] in ks;
  }

  lemma ChosenIs(r: ChannelInfo, k: nat)
    ensures k in Chosen(r) <==> k < Channels(r.fmt, SPLIT_2) && Active(Switched(r), k)
  {
    var n := Channels(r.fmt, SPLIT_2);
    var pipes := Pipes(n, r.mask);
    ActiveOrder(pipes, 0, n);
    if k < n && Active(pipes, k) {
      ActiveIn(pipes, 0, n, k);
    }
  }

  // The plane of a chosen channel.
  lemma PlaneOf(r: ChannelInfo, l: Layout, j: nat)
    requires SplitAsks(r, l) && SplitRoom(r, l) && j in Chosen(r)
    ensures j < l.n && Carries(OutLane(r, j), Route(l.Channel(l.Half(), j), PlaneGrids(r, l.g)[j]), l.h, l.w, l.g)
    ensures InMemory(PlaneGrids(r, l.g)[j], l.h, l.w, l.g) && Injective(PlaneGrids(r, l.g)[j], l.h, l.w, l.g)
  {
    ChosenIs(r, j);
    var i :| 0 <= i < |Chosen(r)| && Chosen(r)[i] == j;
    PlaneOutCarries(r, l, j, PlaneAt(r, j), PlaneGrids(r, l.g)[j]);
  }

  lemma PlanesDiffer(r: ChannelInfo, l: Layout, j: nat, k: nat)
    requires SplitAsks(r, l) && SplitRoom(r, l) && j in Chosen(r) && k in Chosen(r) && j != k && j < 4 && k < 4
    ensures Apart(PlaneGrids(r, l.g)[j], PlaneGrids(r, l.g)[k], l.h, l.w, l.g)
  {
    var ks, planes := Chosen(r), PlaneGrids(r, l.g);
    var i :| 0 <= i < |ks| && ks[i] == j;
    var i' :| 0 <= i' < |ks| && ks[i'] == k;
    if i < i' {
      assert Apart(planes[ks[i]], planes[ks[i']], l.h, l.w, l.g);
    } else {
      assert Apart(planes[ks[i']], planes[ks[i]], l.h, l.w, l.g);
    }
  }

  // A cell of a chosen plane is not one the other lanes write.
  lemma PlaneClear(r: ChannelInfo, l: Layout, j: nat, y: nat, x: nat, b: nat)
    requires SplitAsks(r, l) && SplitRoom(r, l) && j in Chosen(r) && j < l.n && y < l.h && x < l.w && b < l.g
    ensures Misses(SpareLanes(r), PlaneGrids(r, l.g)[j].At(y, x, b))
  {
    var ks, planes := Chosen(r), PlaneGrids(r, l.g);
    var a := planes[j].At(y, x, b);
    var i :| 0 <= i < |ks| && ks[i] == j;
    assert Writes(OutRoutes(l, planes, ks)[i].to, l.h, l.w, l.g, a);
    assert RoutesWrite(OutRoutes(l, planes, ks), l.h, l.w, l.g, a);
  }

  // Lane k leaves a buffer cell alone, and a memory cell if it is neither in the
  // plane of its channel nor written by a lane without one.
  lemma OutMisses(r: ChannelInfo, l: Layout, k: nat, a: int)
    requires SplitAsks(r, l) && SplitRoom(r, l) && k < 4 && Active(Switched(r), k)
    requires a < MEMORY ==> Misses(SpareLanes(r), a) && (k < l.n ==> !Writes(PlaneGrids(r, l.g)[k], l.h, l.w, l.g, a))
    ensures Runnable(OutLane(r, k)) ==> !WritesCell(OutLane(r, k), a)
  {
    var d := OutLane(r, k);
    if Runnable(d) && a < MEMORY {
      if k < l.n {
        ChosenIs(r, k);
        PlaneOf(r, l, k);
        StreamMisses(d, PlaneGrids(r, l.g)[k], l.h, l.w, l.g, a);
      } else {
        var i := ExtraAt(r, l.n, k);
        assert SpareLanes(r)[i] == d;
      }
    }
  }

  lemma ExtraAt(r: ChannelInfo, n: nat, k: nat) returns (i: nat)
    requires n == Channels(r.fmt, SPLIT_2) && n <= k < 4 && Active(Switched(r), k)
    ensures i < |SpareLanes(r)| && SpareLanes(r)[i] == OutLane(r, k)
  {
    var ks := ActiveFrom(SplitOut(r).pipes, n, 4);
    ActiveIn(SplitOut(r).pipes, n, 4, k);
    LanesAre(SplitOut(r), n, 4);
    i :| i < |ks| && ks[i] == k;
  }

  lemma OutBeside(r: ChannelInfo, l: Layout, outs: seq<nat>, p: nat, i: nat, y: nat, x: nat, b: nat)
    requires SplitAsks(r, l) && SplitRoom(r, l) && MidOrder(r, outs) && p < |outs| && outs[p] < l.n && i < |outs| && i != p
    requires y < l.h && x < l.w && b < l.g
    ensures var d := LanesBy(SplitOut(r), outs)[i];
            && (Runnable(d) ==> !WritesCell(d, PlaneGrids(r, l.g)[outs[p]].At(y, x, b)))
            && (Runnable(d) ==> !WritesCell(d, l.Channel(l.Half(), outs[p]).At(y, x, b)))
  {
    OutAt(r, outs, i);
    OutAt(r, outs, p);
    var k, j := outs[i], outs[p];
    assert k in outs && j in outs;
    ChosenIs(r, j);
    ChosenIs(r, k);
    PlaneClear(r, l, j, y, x, b);
    ChannelsApart(l, l.Half(), j, j);
    if k < l.n {
      PlanesDiffer(r, l, j, k);
    }
    OutMisses(r, l, k, PlaneGrids(r, l.g)[j].At(y, x, b));
    OutMisses(r, l, k, l.Channel(l.Half(), j).At(y, x, b));
  }

  lemma OutAround(r: ChannelInfo, l: Layout, outs: seq<nat>, p: nat, y: nat, x: nat, b: nat)
    requires SplitAsks(r, l) && SplitRoom(r, l) && MidOrder(r, outs) && p < |outs| && outs[p] < l.n
    requires y < l.h && x < l.w && b < l.g
    ensures Misses(LanesBy(SplitOut(r), outs)[..p], l.Channel(l.Half(), outs[p]).At(y, x, b))
    ensures Misses(LanesBy(SplitOut(r), outs)[p + 1..], PlaneGrids(r, l.g)[outs[p]].At(y, x, b))
  {
    var q := LanesBy(SplitOut(r), outs);
    var before, after := q[..p], q[p + 1..];
    forall i | 0 <= i < |before| && Runnable(before[i])
      ensures !WritesCell(before[i], l.Channel(l.Half(), outs[p]).At(y, x, b))
    {
      OutBeside(r, l, outs, p, i, y, x, b);
    }
    forall i | 0 <= i < |after| && Runnable(after[i])
      ensures !WritesCell(after[i], PlaneGrids(r, l.g)[outs[p]].At(y, x, b))
    {
      OutBeside(r, l, outs, p, p + 1 + i, y, x, b);
    }
  }

  lemma OutMoves(r: ChannelInfo, l: Layout, outs: seq<nat>, p: nat, s: Store)
    requires SplitAsks(r, l) && SplitRoom(r, l) && MidOrder(r, outs) && p < |outs| && outs[p] < l.n
    ensures Moved(Route(l.Channel(l.Half(), outs[p]), PlaneGrids(r, l.g)[outs[p]]), l.h, l.w, l.g, s, ExecAll(LanesBy(SplitOut(r), outs), s))
  {
    var q, j := LanesBy(SplitOut(r), outs), outs[p];
    var from, to := l.Channel(l.Half(), j), PlaneGrids(r, l.g)[j];
    OutAt(r, outs, p);
    assert j in outs;
    ChosenIs(r, j);
    PlaneOf(r, l, j);
    ChannelsApart(l, l.Half(), j, j);
    WithinApart(from, to, l.h, l.w, l.g, MEMORY, CELLS, 0, MEMORY);
    forall y: nat, x: nat, b: nat | y < l.h && x < l.w && b < l.g
      ensures Misses(q[..p], from.At(y, x, b)) && Misses(q[p + 1..], to.At(y, x, b))
    {
      OutAround(r, l, outs, p, y, x, b);
    }
    MovedAmong(q, p, Route(from, to), l.h, l.w, l.g, s);
  }

  lemma OutKeeps(r: ChannelInfo, l: Layout, outs: seq<nat>, s: Store, a: nat)
    requires SplitAsks(r, l) && SplitRoom(r, l) && MidOrder(r, outs) && a < MEMORY
    requires !RoutesWrite(OutRoutes(l, PlaneGrids(r, l.g), Chosen(r)), l.h, l.w, l.g, a) && Misses(SpareLanes(r), a)
    ensures ExecAll(LanesBy(SplitOut(r), outs), s)[a] == s[a]
  {
    var q, rs := LanesBy(SplitOut(r), outs), OutRoutes(l, PlaneGrids(r, l.g), Chosen(r));
    forall i | 0 <= i < |q| && Runnable(q[i])
      ensures !WritesCell(q[i], a)
    {
      OutAt(r, outs, i);
      var k := outs[i];
      assert k in outs;
      ChosenIs(r, k);
      if k < l.n {
        var i' :| 0 <= i' < |Chosen(r)| && Chosen(r)[i'] == k;
        assert rs[i'].to == PlaneGrids(r, l.g)[k];
      }
      OutMisses(r, l, k, a);
    }
    ExecAllKeeps(q, s, a);
  }

  // ----- a split with its lanes in any order -----

  ghost predicate Orders(r: ChannelInfo, mids: seq<nat>, outs: seq<nat>) {
    MidOrder(r, mids) && MidOrder(r, outs)
  }

  // The three records with the lanes of the second in the order mids and those
  // of the third in the order outs.
  function SplitProgram(r: ChannelInfo, mids: seq<nat>, outs: seq<nat>): seq<Desc>
    requires 0 < r.pixel && (forall k :: k in mids ==> k < 4) && forall k :: k in outs ==> k < 4
  {
    [DescOf(SplitIn(r).t)] + (LanesBy(SplitMid(r), mids) + LanesBy(SplitOut(r), outs))
  }

  ghost predicate DeliversBy(r: ChannelInfo, l: Layout, mids: seq<nat>, outs: seq<nat>, s: Store)
    requires SplitRoom(r, l) && 0 < r.pixel && Orders(r, mids, outs)
  {
    Delivers(l, ImageOf(r, l), PlaneGrids(r, l.g), Chosen(r), SpareLanes(r), s, ExecAll(SplitProgram(r, mids, outs), s))
  }

  // In time, running the records of a split request delivers every chosen
  // channel, and changes memory only there and where lanes without a channel write.
  lemma SplitAny(r: ChannelInfo, l: Layout, mids: seq<nat>, outs: seq<nat>, s: Store)
    requires SplitAsks(r, l) && SplitRoom(r, l) && Orders(r, mids, outs) && InTime(l, mids)
    ensures DeliversBy(r, l, mids, outs, s)
  {
    var s1 := Exec(DescOf(SplitIn(r).t), s);
    var s2 := ExecAll(LanesBy(SplitMid(r), mids), s1);
    var u := ExecAll(LanesBy(SplitOut(r), outs), s2);
    SplitStages(DescOf(SplitIn(r).t), LanesBy(SplitMid(r), mids), LanesBy(SplitOut(r), outs), s);
    SplitInCarries(r, l);
    ImageIn(l, ImageOf(r, l), DescOf(SplitIn(r).t), s);
    MidMemory(r, l, mids, s1);
    var ks := Chosen(r);
    forall i | 0 <= i < |ks|
      ensures Holds(l, ImageOf(r, l), PlaneGrids(r, l.g)[ks[i]], ks[i], s, u)
    {
      SplitOne(r, l, mids, outs, ks[i], s, s1);
    }
    forall a | 0 <= a < MEMORY && !RoutesWrite(OutRoutes(l, PlaneGrids(r, l.g), ks), l.h, l.w, l.g, a) && Misses(SpareLanes(r), a)
      ensures u[a] == s[a]
    {
      OutKeeps(r, l, outs, s2, a);
    }
  }

  lemma SplitOne(r: ChannelInfo, l: Layout, mids: seq<nat>, outs: seq<nat>, j: nat, s: Store, s1: Store)
    requires SplitAsks(r, l) && SplitRoom(r, l) && Orders(r, mids, outs) && InTime(l, mids) && j in Chosen(r)
    requires forall y: nat, x: nat, b: nat :: y < l.h && x < l.w && b < l.n * l.g ==>
               Get(s1, l.Pixels(0).At(y, x, b)) == Get(s, ImageOf(r, l).At(y, x, b))
    ensures j < l.n && Holds(l, ImageOf(r, l), PlaneGrids(r, l.g)[j], j, s,
                             ExecAll(LanesBy(SplitOut(r), outs), ExecAll(LanesBy(SplitMid(r), mids), s1)))
  {
    var s2 := ExecAll(LanesBy(SplitMid(r), mids), s1);
    ChosenIs(r, j);
    assert j in mids && j in outs;
    var p: nat :| p < |mids| && mids[p] == j;
    var p': nat :| p' < |outs| && outs[p'] == j;
    MidMoves(r, l, mids, p, s1);
    OutMoves(r, l, outs, p', s2);
    PlaneOf(r, l, j);
    SplitChannel(l, ImageOf(r, l), PlaneGrids(r, l.g)[j], j, s, s1, s2, ExecAll(LanesBy(SplitOut(r), outs), s2));
  }

  // ----- out of time -----

  // The first line of the buffer is all zeros.
  ghost predicate FirstBlank(l: Layout, s: Store) {
    Zeros(s, MEMORY, MEMORY + l.Row())
  }

  // The pixel lane of the second line.
  predicate InSecond(l: Layout, c: int) {
    MEMORY + l.Row() <= c < MEMORY + l.Row() + l.Half()
  }

  // What lane k writes to the first line or to the pixel lane of the second, it
  // writes while it reads the first.
  lemma FirstRead(l: Layout, k: nat, y: nat, x: nat, b: nat)
    requires Fits(l) && k < 4 && x < l.w && b < l.g
    requires l.Channel(l.Half(), k).At(y, x, b) < MEMORY + l.Row() + l.Half()
    ensures y == 0
  {
    LineByte(l.g, l.w, x, b);
    if y > 0 {
      MulLe(1, y, l.Row());
      if y > 1 {
        MulLe(2, y, l.Row());
      }
    }
  }

  lemma MidFed(r: ChannelInfo, l: Layout, k: nat, c: int)
    requires SplitAsks(r, l) && k < 4 && InSecond(l, c) && Runnable(MidLane(r, k))
    ensures Fed(MidLane(r, k), MEMORY, MEMORY + l.Row(), c)
  {
    var d := MidLane(r, k);
    MidStreams(r, l, k, d);
    forall n: nat | n < d.dst.Count() && (MEMORY <= d.dst.Cell(n) < MEMORY + l.Row() || d.dst.Cell(n) == c)
      ensures Sources(d)[n].From? && MEMORY <= Sources(d)[n].cell < MEMORY + l.Row()
    {
      var y, x, b := StreamCell(d.dst, l.Channel(l.Half(), k), l.h, l.w, l.g, n);
      FirstRead(l, k, y, x, b);
      SourceByte(l.n, l.g, l.w, k, x, b);
      assert d.src.Cell(n) == l.Part(0, k).At(0, x, b);
    }
  }

  // While the first p lanes run, the second line takes only zeros.
  lemma MidBlank(r: ChannelInfo, l: Layout, mids: seq<nat>, p: nat, s: Store, c: nat)
    requires SplitAsks(r, l) && (forall k :: k in mids ==> k < 4) && p < |mids| && FirstBlank(l, s) && InSecond(l, c) && c < CELLS
    ensures !Misses(LanesBy(SplitMid(r), mids)[..p], c) ==> ExecAll(LanesBy(SplitMid(r), mids)[..p], s)[c] == 0
  {
    var q := LanesBy(SplitMid(r), mids)[..p];
    forall i | 0 <= i < |q| && Runnable(q[i])
      ensures Fed(q[i], MEMORY, MEMORY + l.Row(), c)
    {
      MidAt(r, mids, i);
      MidFed(r, l, mids[i], c);
    }
    ExecAllZone(q, s, MEMORY, MEMORY + l.Row(), c);
  }

  lemma MidHits(r: ChannelInfo, l: Layout, k: nat, x: nat, b: nat)
    requires SplitAsks(r, l) && k < 4 && x < l.w && b < l.g
    ensures Runnable(MidLane(r, k)) && WritesCell(MidLane(r, k), l.Channel(l.Half(), k).At(0, x, b))
  {
    var d := MidLane(r, k);
    MidStreams(r, l, k, d);
    LinBound(l.w, l.h, l.g, 0, x, b);
    assert d.dst.Cell(Lin(l.w, l.g, 0, x, b)) == l.Channel(l.Half(), k).At(0, x, b);
  }

  lemma HitBefore(r: ChannelInfo, l: Layout, mids: seq<nat>, i: nat, p: nat, x: nat, b: nat)
    requires SplitAsks(r, l) && (forall k :: k in mids ==> k < 4) && i < p < |mids| && x < l.w && b < l.g
    ensures !Misses(LanesBy(SplitMid(r), mids)[..p], l.Channel(l.Half(), mids[i]).At(0, x, b))
  {
    var q := LanesBy(SplitMid(r), mids)[..p];
    MidAt(r, mids, i);
    MidHits(r, l, mids[i], x, b);
    assert q[i] == MidLane(r, mids[i]);
  }

  lemma SecondByte(l: Layout, j: nat, x: nat, b: nat)
    requires Fits(l) && j < l.n && 2 <= l.h && x < l.w && b < l.g
    ensures InSecond(l, l.Part(0, j).At(1, x, b)) && l.Part(0, j).At(1, x, b) < CELLS
  {
    PixelByte(l.n, l.g, l.w, j, x, b);
  }

  // When lane mids[p] starts, the byte c it should copy is gone.
  lemma SourceGone(r: ChannelInfo, l: Layout, mids: seq<nat>, i: nat, p: nat, x: nat, b: nat, x': nat, b': nat, s: Store, c: nat)
    requires SplitAsks(r, l) && (forall k :: k in mids ==> k < 4) && i < p < |mids| && mids[p] < l.n && 2 <= l.h
    requires x < l.w && b < l.g && x' < l.w && b' < l.g && FirstBlank(l, s)
    requires c == l.Part(0, mids[p]).At(1, x, b) == l.Channel(l.Half(), mids[i]).At(0, x', b')
    ensures c < CELLS && ExecAll(LanesBy(SplitMid(r), mids)[..p], s)[c] == 0
  {
    SecondByte(l, mids[p], x, b);
    HitBefore(r, l, mids, i, p, x', b');
    MidBlank(r, l, mids, p, s, c);
  }

  // Its channel lane takes the zero, and keeps it.
  lemma ChannelTakes(r: ChannelInfo, l: Layout, j: nat, x: nat, b: nat, t: Store, c: nat)
    requires SplitAsks(r, l) && j < l.n && 2 <= l.h && x < l.w && b < l.g
    requires c == l.Part(0, j).At(1, x, b) && c < CELLS && t[c] == 0
    ensures MEMORY <= l.Channel(l.Half(), j).At(1, x, b) < CELLS && Exec(MidLane(r, j), t)[l.Channel(l.Half(), j).At(1, x, b)] == 0
  {
    var from, to := l.Part(0, j), l.Channel(l.Half(), j);
    MidStreams(r, l, j, MidLane(r, j));
    ChannelsApart(l, l.Half(), j, j);
    HalvesApart(l, j, j);
    PixelMove(MidLane(r, j), t, from, to, l.h, l.w, l.g);
    assert MEMORY <= to.At(1, x, b) < CELLS;
  }

  lemma ChannelKeeps(r: ChannelInfo, l: Layout, mids: seq<nat>, p: nat, x: nat, b: nat, t: Store, a: nat)
    requires SplitAsks(r, l) && MidOrder(r, mids) && p < |mids| && mids[p] < l.n && 2 <= l.h && x < l.w && b < l.g
    requires a == l.Channel(l.Half(), mids[p]).At(1, x, b) && a < CELLS
    ensures ExecAll(LanesBy(SplitMid(r), mids)[p + 1..], t)[a] == t[a]
  {
    var after := LanesBy(SplitMid(r), mids)[p + 1..];
    forall i | 0 <= i < |after| && Runnable(after[i])
      ensures !WritesCell(after[i], a)
    {
      MidBeside(r, l, mids, p, p + 1 + i, 1, x, b);
    }
    ExecAllKeeps(after, t, a);
  }

  lemma ChannelGone(r: ChannelInfo, l: Layout, mids: seq<nat>, p: nat, x: nat, b: nat, s: Store, c: nat)
    requires SplitAsks(r, l) && MidOrder(r, mids) && p < |mids| && mids[p] < l.n && 2 <= l.h && x < l.w && b < l.g
    requires c == l.Part(0, mids[p]).At(1, x, b) && c < CELLS && ExecAll(LanesBy(SplitMid(r), mids)[..p], s)[c] == 0
    ensures Get(ExecAll(LanesBy(SplitMid(r), mids), s), l.Channel(l.Half(), mids[p]).At(1, x, b)) == 0
  {
    var q := LanesBy(SplitMid(r), mids);
    var t := ExecAll(q[..p], s);
    MidAt(r, mids, p);
    ChannelTakes(r, l, mids[p], x, b, t, c);
    ChannelKeeps(r, l, mids, p, x, b, Exec(q[p], t), l.Channel(l.Half(), mids[p]).At(1, x, b));
    Around(q, p, s);
  }

  // The first line of an image of which only byte (1, x, b) is not zero.
  lemma FirstZero(r: ChannelInfo, l: Layout, x: nat, b: nat, s: Store, y': nat, x': nat, b': nat)
    requires SplitAsks(r, l) && InMemory(ImageOf(r, l), l.h, l.w, l.n * l.g) && Injective(ImageOf(r, l), l.h, l.w, l.n * l.g)
    requires 2 <= l.h && x < l.w && b < l.n * l.g && y' < l.h && x' < l.w && b' < l.n * l.g
    requires forall a :: 0 <= a < CELLS && a != ImageOf(r, l).At(1, x, b) ==> s[a] == 0
    requires l.Pixels(0).At(y', x', b') < MEMORY + l.Row()
    ensures Get(s, ImageOf(r, l).At(y', x', b')) == 0
  {
    var img := ImageOf(r, l);
    if y' > 0 {
      MulLe(1, y', l.Row());
      MulLe(0, x', l.n * l.g);
    }
    assert img.At(0, x', b') != img.At(1, x, b);
    assert 0 <= img.At(0, x', b') < MEMORY;
  }

  lemma FirstLineZero(r: ChannelInfo, l: Layout, x: nat, b: nat, s: Store)
    requires SplitAsks(r, l) && InMemory(ImageOf(r, l), l.h, l.w, l.n * l.g) && Injective(ImageOf(r, l), l.h, l.w, l.n * l.g)
    requires 2 <= l.h && x < l.w && b < l.n * l.g
    requires forall a :: 0 <= a < CELLS && a != ImageOf(r, l).At(1, x, b) ==> s[a] == 0
    ensures FirstBlank(l, Exec(DescOf(SplitIn(r).t), s))
  {
    var d, img, to := DescOf(SplitIn(r).t), ImageOf(r, l), l.Pixels(0);
    SplitInCarries(r, l);
    PixelsFit(l, 0);
    WithinApart(img, to, l.h, l.w, l.n * l.g, 0, MEMORY, MEMORY, CELLS);
    PixelMove(d, s, img, to, l.h, l.w, l.n * l.g);
    forall a | MEMORY <= a < MEMORY + l.Row()
      ensures Get(Exec(d, s), a) == 0
    {
      if Writes(to, l.h, l.w, l.n * l.g, a) {
        var y: nat, x0: nat, b0: nat :| y < l.h && x0 < l.w && b0 < l.n * l.g && to.At(y, x0, b0) == a;
        FirstZero(r, l, x, b, s, y, x0, b0);
      } else {
        assert 0 <= img.At(1, x, b) < MEMORY;
      }
    }
  }

  lemma NotHeldAt(l: Layout, img: Grid, plane: Grid, k: nat, s: Store, u: Store, y: nat, x: nat, b: nat)
    requires y < l.h && x < l.w && b < l.g && Get(u, plane.At(y, x, b)) != Get(s, img.At(y, x, l.g * k + b))
    ensures !Holds(l, img, plane, k, s, u)
  {
  }

  lemma PlaneGets(r: ChannelInfo, l: Layout, outs: seq<nat>, j: nat, x: nat, b: nat, s: Store)
    requires SplitAsks(r, l) && SplitRoom(r, l) && MidOrder(r, outs) && j in outs && j < l.n && 2 <= l.h && x < l.w && b < l.g
    ensures Get(ExecAll(LanesBy(SplitOut(r), outs), s), PlaneGrids(r, l.g)[j].At(1, x, b)) == Get(s, l.Channel(l.Half(), j).At(1, x, b))
  {
    var p: nat :| p < |outs| && outs[p] == j;
    ChosenIs(r, j);
    OutMoves(r, l, outs, p, s);
    PlaneOf(r, l, j);
    assert PlaneGrids(r, l.g)[j].At(1, x, b) < MEMORY;
  }

  lemma NotDelivered(r: ChannelInfo, l: Layout, mids: seq<nat>, outs: seq<nat>, j: nat, x: nat, b: nat, s: Store, s1: Store)
    requires SplitAsks(r, l) && SplitRoom(r, l) && Orders(r, mids, outs) && j in mids && j < l.n && 2 <= l.h && x < l.w && b < l.g
    requires s1 == Exec(DescOf(SplitIn(r).t), s) && Get(s, ImageOf(r, l).At(1, x, l.g * j + b)) == 1
    requires Get(ExecAll(LanesBy(SplitMid(r), mids), s1), l.Channel(l.Half(), j).At(1, x, b)) == 0
    ensures !DeliversBy(r, l, mids, outs, s)
  {
    var s2 := ExecAll(LanesBy(SplitMid(r), mids), s1);
    ChosenIs(r, j);
    PlaneGets(r, l, outs, j, x, b, s2);
    SplitStages(DescOf(SplitIn(r).t), LanesBy(SplitMid(r), mids), LanesBy(SplitOut(r), outs), s);
    NotHeldAt(l, ImageOf(r, l), PlaneGrids(r, l.g)[j], j, s, ExecAll(LanesBy(SplitOut(r), outs), s2), 1, x, b);
    var i :| 0 <= i < |Chosen(r)| && Chosen(r)[i] == j;
  }

  // All zeros but for one byte of the second line of the image.
  lemma OneByte(r: ChannelInfo, l: Layout, x: nat, b: nat) returns (s: Store)
    requires SplitAsks(r, l) && InMemory(ImageOf(r, l), l.h, l.w, l.n * l.g) && Injective(ImageOf(r, l), l.h, l.w, l.n * l.g)
    requires 2 <= l.h && x < l.w && b < l.n * l.g
    ensures Get(s, ImageOf(r, l).At(1, x, b)) == 1 && FirstBlank(l, Exec(DescOf(SplitIn(r).t), s))
  {
    var a := ImageOf(r, l).At(1, x, b);
    assert 0 <= a < MEMORY;
    var zero: Store := seq(CELLS, n => 0);
    s := zero[a := 1];
    FirstLineZero(r, l, x, b, s);
  }

  // Out of time, such a store is split wrong.
  lemma LateFails(r: ChannelInfo, l: Layout, mids: seq<nat>, outs: seq<nat>) returns (s: Store)
    requires SplitAsks(r, l) && SplitRoom(r, l) && Injective(ImageOf(r, l), l.h, l.w, l.n * l.g)
    requires Orders(r, mids, outs) && !InTime(l, mids)
    ensures !DeliversBy(r, l, mids, outs, s)
  {
    var i, p :| 0 <= i < p < |mids| && mids[p] < l.n <= mids[i] && Meets(l, mids[p], mids[i]);
    assert mids[i] in mids && mids[p] in mids;
    s := LateAt(r, l, mids, outs, i, p, mids[i], mids[p]);
  }

  lemma LateAt(r: ChannelInfo, l: Layout, mids: seq<nat>, outs: seq<nat>, i: nat, p: nat, k: nat, j: nat) returns (s: Store)
    requires SplitAsks(r, l) && SplitRoom(r, l) && Injective(ImageOf(r, l), l.h, l.w, l.n * l.g)
    requires Orders(r, mids, outs) && i < p < |mids| && k == mids[i] && j == mids[p] && j < l.n <= k < 4 && Meets(l, j, k)
    ensures !DeliversBy(r, l, mids, outs, s)
  {
    var x, b, x', b' := MeetsAt(l, j, k);
    ChannelByte(l, j, b);
    s := OneByte(r, l, x, l.g * j + b);
    var s1 := Exec(DescOf(SplitIn(r).t), s);
    SecondByte(l, j, x, b);
    SourceGone(r, l, mids, i, p, x, b, x', b', s1, l.Part(0, j).At(1, x, b));
    ChannelGone(r, l, mids, p, x, b, s1, l.Part(0, j).At(1, x, b));
    NotDelivered(r, l, mids, outs, j, x, b, s, s1);
  }

  // The lanes of a request in a given order deliver its channels, whatever
  // memory holds, exactly when none comes before a channel that it gets in the
  // way of. The lines of the image must not overlap, or the bytes written over
  // those of the next line could happen to be the right ones.
  lemma OrderExact(r: ChannelInfo, l: Layout, mids: seq<nat>, outs: seq<nat>)
    requires SplitAsks(r, l) && SplitRoom(r, l) && Injective(ImageOf(r, l), l.h, l.w, l.n * l.g) && Orders(r, mids, outs)
    ensures (forall s: Store :: DeliversBy(r, l, mids, outs, s)) <==> InTime(l, mids)
  {
    if InTime(l, mids) {
      forall s: Store
        ensures DeliversBy(r, l, mids, outs, s)
      {
        SplitAny(r, l, mids, outs, s);
      }
    } else {
      var s := LateFails(r, l, mids, outs);
    }
  }

  // ----- every order, and nothing else -----

  // No lane that is on gets in the way of a channel that is on.
  predicate Clear(r: ChannelInfo, l: Layout) {
    forall j, k :: 0 <= j < l.n <= k < 4 && Active(Switched(r), j) && Active(Switched(r), k) ==> !Meets(l, j, k)
  }

  lemma ClearInTime(r: ChannelInfo, l: Layout, mids: seq<nat>)
    requires MidOrder(r, mids) && Clear(r, l)
    ensures InTime(l, mids)
  {
    forall i, j | 0 <= i < j < |mids| && mids[j] < l.n <= mids[i]
      ensures !Meets(l, mids[j], mids[i])
    {
      assert mids[i] in mids && mids[j] in mids;
    }
  }

  lemma Above(ks: seq<nat>, j: nat, k: nat) returns (i: nat, p: nat)
    requires j in ks && k in ks && j < k && forall i, j :: 0 <= i < j < |ks| ==> ks[i] > ks[j]
    ensures i < p < |ks| && ks[i] == k && ks[p] == j
  {
    i :| i < |ks| && ks[i] == k;
    p :| p < |ks| && ks[p] == j;
  }

  // From the last lane down is the worst order.
  lemma DownLate(r: ChannelInfo, l: Layout, mids: seq<nat>)
    requires mids == ActiveDown(Switched(r), 4) && !Clear(r, l)
    ensures MidOrder(r, mids) && !InTime(l, mids)
  {
    Descending(Switched(r), 4);
    var j, k :| 0 <= j < l.n <= k < 4 && Active(Switched(r), j) && Active(Switched(r), k) && Meets(l, j, k);
    assert j in mids && k in mids;
    var i, p := Above(mids, j, k);
  }

  // The lanes from 0 up are always in time; that is the order of Meanings.
  lemma UpInTime(r: ChannelInfo, l: Layout, ks: seq<nat>)
    requires 0 < r.pixel && ks == ActiveFrom(Switched(r), 0, 4)
    ensures Orders(r, ks, ks) && InTime(l, ks) && SplitProgram(r, ks, ks) == Meanings(SplitRecords(r))
  {
    Ascending(SplitMid(r));
    Ascending(SplitOut(r));
    ActiveOrder(Switched(r), 0, 4);
    ThreeMeanings(SplitIn(r), SplitMid(r), SplitOut(r));
  }

  ghost predicate AlwaysDelivers(r: ChannelInfo, l: Layout)
    requires SplitRoom(r, l) && 0 < r.pixel
  {
    forall mids: seq<nat>, outs: seq<nat>, s: Store :: Orders(r, mids, outs) ==> DeliversBy(r, l, mids, outs, s)
  }

  // Every order delivers exactly when no lane gets in the way of a channel.
  lemma EveryOrder(r: ChannelInfo, l: Layout)
    requires SplitAsks(r, l) && SplitRoom(r, l) && Injective(ImageOf(r, l), l.h, l.w, l.n * l.g)
    ensures AlwaysDelivers(r, l) <==> Clear(r, l)
  {
    if Clear(r, l) {
      forall mids: seq<nat>, outs: seq<nat>, s: Store | Orders(r, mids, outs)
        ensures DeliversBy(r, l, mids, outs, s)
      {
        ClearInTime(r, l, mids);
        SplitAny(r, l, mids, outs, s);
      }
    } else {
      var mids := ActiveDown(Switched(r), 4);
      DownLate(r, l, mids);
      var s := LateFails(r, l, mids, mids);
    }
  }

  ghost predicate SplitsBy(r: ChannelInfo, l: Layout, mids: seq<nat>, outs: seq<nat>, s: Store)
    requires SplitRoom(r, l) && 0 < r.pixel && Orders(r, mids, outs)
  {
    SplitDone(l, ImageOf(r, l), PlaneGrids(r, l.g), Chosen(r), s, ExecAll(SplitProgram(r, mids, outs), s))
  }

  // In time, and with the planes of the other lanes empty, nothing else is written.
  lemma SplitRun(r: ChannelInfo, l: Layout, mids: seq<nat>, outs: seq<nat>, s: Store)
    requires SplitAsks(r, l) && SplitRoom(r, l) && Orders(r, mids, outs) && InTime(l, mids) && Idle(r)
    ensures SplitsBy(r, l, mids, outs, s)
  {
    SplitAny(r, l, mids, outs, s);
    forall a | 0 <= a < MEMORY
      ensures Misses(SpareLanes(r), a)
    {
      IdleMisses(r, a);
    }
  }

  lemma ByBuffer(rec: Record, ks: seq<nat>)
    requires rec.Routed? && rec.readTmp && forall k :: k in ks ==> k < |rec.lanes|
    ensures FromBuffer(LanesBy(rec, ks))
  {
  }

  // A lane without a channel but with a plane writes memory that no lane reads.
  lemma BusyLane(r: ChannelInfo, l: Layout, outs: seq<nat>) returns (a: nat)
    requires SplitAsks(r, l) && SplitRoom(r, l) && MidOrder(r, outs) && !Idle(r)
    ensures a < MEMORY && !Misses(LanesBy(SplitOut(r), outs), a) && !Writes(ImageOf(r, l), l.h, l.w, l.n * l.g, a)
    ensures !RoutesWrite(OutRoutes(l, PlaneGrids(r, l.g), Chosen(r)), l.h, l.w, l.g, a)
  {
    var k :| l.n <= k < 4 && Active(Switched(r), k) && !Nothing(PlaneAt(r, k));
    var d := OutLane(r, k);
    ExtraLane(r, k, d);
    a := d.dst.Cell(0);
    var i := ExtraAt(r, l.n, k);
    assert !Misses(SpareLanes(r), a);
    assert k in outs;
    var p :| 0 <= p < |outs| && outs[p] == k;
    OutAt(r, outs, p);
  }

  lemma SplitBusy(r: ChannelInfo, l: Layout, mids: seq<nat>, outs: seq<nat>) returns (s: Store)
    requires SplitAsks(r, l) && SplitRoom(r, l) && Orders(r, mids, outs) && !Idle(r)
    ensures !SplitsBy(r, l, mids, outs, s)
  {
    var a := BusyLane(r, l, outs);
    var d, mid, out := DescOf(SplitIn(r).t), LanesBy(SplitMid(r), mids), LanesBy(SplitOut(r), outs);
    ByBuffer(SplitMid(r), mids);
    ByBuffer(SplitOut(r), outs);
    SplitInCarries(r, l);
    s := SplitFails(l, ImageOf(r, l), PlaneGrids(r, l.g), Chosen(r), d, mid, out, a);
  }

  // A request, its lanes run in a given order, splits and does nothing else,
  // whatever memory holds, exactly when the order is in time and every lane that
  // is on without a channel has an empty plane.
  lemma SplitExact(r: ChannelInfo, l: Layout, mids: seq<nat>, outs: seq<nat>)
    requires SplitAsks(r, l) && SplitRoom(r, l) && Injective(ImageOf(r, l), l.h, l.w, l.n * l.g) && Orders(r, mids, outs)
    ensures (forall s: Store :: SplitsBy(r, l, mids, outs, s)) <==> InTime(l, mids) && Idle(r)
  {
    if !Idle(r) {
      var s := SplitBusy(r, l, mids, outs);
    } else if !InTime(l, mids) {
      var s := LateFails(r, l, mids, outs);
      assert !SplitsBy(r, l, mids, outs, s);
    } else {
      forall s: Store
        ensures SplitsBy(r, l, mids, outs, s)
      {
        SplitRun(r, l, mids, outs, s);
      }
    }
  }

  ghost predicate AlwaysSplits(r: ChannelInfo, l: Layout)
    requires SplitRoom(r, l) && 0 < r.pixel
  {
    forall mids: seq<nat>, outs: seq<nat>, s: Store :: Orders(r, mids, outs) ==> SplitsBy(r, l, mids, outs, s)
  }

  // In every order: exactly when besides no lane gets in the way.
  lemma EveryExact(r: ChannelInfo, l: Layout)
    requires SplitAsks(r, l) && SplitRoom(r, l) && Injective(ImageOf(r, l), l.h, l.w, l.n * l.g)
    ensures AlwaysSplits(r, l) <==> Clear(r, l) && Idle(r)
  {
    if !Clear(r, l) || !Idle(r) {
      var mids := ActiveDown(Switched(r), 4);
      Descending(Switched(r), 4);
      if !Clear(r, l) {
        DownLate(r, l, mids);
      }
      SplitExact(r, l, mids, mids);
    } else {
      forall mids: seq<nat>, outs: seq<nat>, s: Store | Orders(r, mids, outs)
        ensures SplitsBy(r, l, mids, outs, s)
      {
        ClearInTime(r, l, mids);
        SplitRun(r, l, mids, outs, s);
      }
    }
  }

  // A lane is on exactly if its bit of the mask is set, or there is no mask and it
  // has a channel; the channels to deliver are those below n.
  lemma ChosenExact(r: ChannelInfo, n: nat, k: nat)
    requires n == Channels(r.fmt, SPLIT_2) && 2 <= n && k < 4
    ensures Active(Switched(r), k) <==> if r.mask % 16 == 0 then k < n else BitOf(r.mask, k)
    ensures k in Chosen(r) <==> k < n && (r.mask % 16 == 0 || BitOf(r.mask, k))
  {
    MaskedPipe(n, r.mask, k);
    ChosenIs(r, k);
  }

  // No mask, or one with a bit for every channel.
  predicate Full(r: ChannelInfo, n: nat) {
    r.mask % 16 == 0 || forall k: nat :: k < n ==> BitOf(r.mask, k)
  }

  lemma AllChosen(r: ChannelInfo, n: nat)
    requires n == Channels(r.fmt, SPLIT_2) && 2 <= n && Full(r, n)
    ensures Chosen(r) == All(n)
  {
    forall k | 0 <= k < n
      ensures Active(Pipes(n, r.mask), k)
    {
      ChosenExact(r, n, k);
    }
    ActiveRun(Pipes(n, r.mask), 0, n, n);
    assert seq(n - 0, i => 0 + i) == All(n);
  }

  // A mask of four ones chooses every channel. In every order they are delivered
  // exactly when there are four or only one line, and nothing else is written
  // exactly when besides the planes without a channel are empty.
  lemma AllOnes(r: ChannelInfo, l: Layout)
    requires SplitAsks(r, l) && SplitRoom(r, l) && Injective(ImageOf(r, l), l.h, l.w, l.n * l.g) && r.mask % 16 == 15
    ensures Chosen(r) == All(l.n)
    ensures AlwaysDelivers(r, l) <==> l.n == 4 || l.h == 1
    ensures AlwaysSplits(r, l) <==> (l.n == 4 || l.h == 1) && forall k :: l.n <= k < 4 ==> Nothing(PlaneAt(r, k))
  {
    forall k: nat | k < 4
      ensures BitOf(r.mask, k) && Active(Switched(r), k)
    {
      assert BitOf(15, 0) && BitOf(15, 1) && BitOf(15, 2) && BitOf(15, 3);
      LowMask(r.mask, k);
      MaskLanes(15, k);
    }
    AllChosen(r, l.n);
    if l.n < 4 && 1 < l.h {
      assert Meets(l, 0, l.n);
    }
    EveryOrder(r, l);
    EveryExact(r, l);
  }
}
