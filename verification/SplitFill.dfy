// The split and merge requests of the MVPU interface: three descriptors each,
// written in place, and the routes their lanes carry.
module SplitFill {
  import opened Words
  import opened Machine
  import opened DescRecord
  import opened MvpuRecord
  import opened LaneCopies
  import opened SplitMerge

  const SPLIT_2: Byte := 93
  const MERGE_2: Byte := 96

  // Sizes and pitches along x are in bytes, sizes along y in lines.
  datatype Area = Area(addr: Word, x: Word, y: Word, z: Word, pitchX: Word, pitchY: Word)

  // One image and up to four planes. A split goes from image to planes, a merge
  // back; its pixel size is that of the source: whole pixels when splitting,
  // channels when merging, which also takes no mask.
  datatype ChannelInfo = ChannelInfo(fmt: Byte, id: Byte, image: Area, p0: Area, p1: Area, p2: Area, p3: Area,
                                     mask: Byte, pixel: Byte)

  // Channels of a format, counted from the two-channel one; 1 for any other.
  function Channels(fmt: Byte, two: Byte): (n: nat)
    ensures 1 <= n <= 4
  {
    if two <= fmt <= two + 2 then fmt - two + 2 else 1
  }

  // Bytes of the pixel lane and of a channel lane.
  function PixelLane(n: nat): nat {
    if n == 1 then 1 else 256 * n
  }

  function ChannelLane(n: nat): nat {
    if n == 1 then 1 else 256
  }

  function LineCount(n: nat): nat {
    if n == 1 then 1 else Lines(n)
  }

  // Reader and writer bits of the lanes: the mask, or every channel.
  function Pipes(n: nat, mask: Byte): Byte
    requires 1 <= n <= 4
  {
    if n == 1 then 0
    else if mask % 16 != 0 then mask % 16 * 17
    else if n == 2 then 0x33 else if n == 3 then 0x77 else 0xff
  }

  function FourLaned(id: Byte, atomic: nat, readTmp: bool, writeTmp: bool, pipes: Byte, a: Lane, b: Lane, c: Lane, d: Lane): Record {
    Routed(id, 1, atomic, readTmp, writeTmp, 0x8421, 0, 1, pipes, [a, b, c, d])
  }

  // ----- split -----

  function SplitIn(r: ChannelInfo): Record {
    var n := Channels(r.fmt, SPLIT_2);
    var (xs, ys, zs) := (Field16(r.image.x), Field16(r.image.y), Field16(r.image.z));
    Plain(Type0(0, r.id, 0, 1, 1, false, true, 0, r.image.addr, 0, r.image.pitchX, 2 * PixelLane(n), r.image.pitchY, LineCount(n),
                xs, xs, ys, ys, zs, zs))
  }

  // Channel k of the pixel lane to channel lane k.
  function SplitLane(r: ChannelInfo, k: nat): Lane
    requires 0 < r.pixel && k < 4
  {
    var n := Channels(r.fmt, SPLIT_2);
    var g, xs, zs := Quot(r.pixel, n), Field16(Quot(r.image.x, r.pixel)), Field16(r.image.y);
    QuotSmall(r.pixel, n);
    Lane(g * k, PixelLane(n) + ChannelLane(n) * k, r.pixel, g, 2 * PixelLane(n), 2 * PixelLane(n), g, g, xs, xs, zs, zs)
  }

  lemma QuotSmall(a: nat, b: nat)
    requires 0 < b
    ensures Quot(a, b) <= a
  {
    QuotRem(a, b);
    MulLe(1, b, Quot(a, b));
  }

  function SplitMid(r: ChannelInfo): Record
    requires 0 < r.pixel
  {
    FourLaned(r.id, 1, true, true, Pipes(Channels(r.fmt, SPLIT_2), r.mask),
              SplitLane(r, 0), SplitLane(r, 1), SplitLane(r, 2), SplitLane(r, 3))
  }

  // Channel lane k to a plane.
  function PlaneOutLane(r: ChannelInfo, p: Area, k: nat): Lane
    requires k < 4
  {
    var n := Channels(r.fmt, SPLIT_2);
    Lane(PixelLane(n) + ChannelLane(n) * k, p.addr, 2 * PixelLane(n), p.pitchX, 1, p.pitchY,
         Field16(p.x), Field16(p.x), Field16(p.y), Field16(p.y), 1, 1)
  }

  function SplitOut(r: ChannelInfo): Record {
    FourLaned(r.id, 0, true, false, Pipes(Channels(r.fmt, SPLIT_2), r.mask),
              PlaneOutLane(r, r.p0, 0), PlaneOutLane(r, r.p1, 1), PlaneOutLane(r, r.p2, 2), PlaneOutLane(r, r.p3, 3))
  }

  function SplitRecords(r: ChannelInfo): seq<Record>
    requires 0 < r.pixel
  {
    [SplitIn(r), SplitMid(r), SplitOut(r)]
  }

  // ----- merge -----

  // A plane to channel lane k. The line pitch of lane 2 is the source's x pitch
  // where the others have the y pitch; no lane has a second slab to use it.
  function PlaneInLane(r: ChannelInfo, p: Area, k: nat): Lane
    requires k < 4
  {
    var n := Channels(r.fmt, MERGE_2);
    Lane(p.addr, ChannelLane(n) * k, p.pitchX, 2 * PixelLane(n), if k == 2 then p.pitchX else p.pitchY, 1,
         Field16(p.x), Field16(p.x), Field16(p.y), Field16(p.y), 1, 1)
  }

  function MergeIn(r: ChannelInfo): Record {
    FourLaned(r.id, 1, false, true, Pipes(Channels(r.fmt, MERGE_2), 0),
              PlaneInLane(r, r.p0, 0), PlaneInLane(r, r.p1, 1), PlaneInLane(r, r.p2, 2), PlaneInLane(r, r.p3, 3))
  }

  // Bytes from one merged pixel to the next, kept in an unsigned char.
  function MergeStep(n: nat, g: nat): (step: nat)
    ensures step < 0x100
  {
    g * n % 0x100
  }

  // Channel lane k to channel k of the pixel lane.
  function MergeLane(r: ChannelInfo, k: nat): Lane
    requires 0 < r.pixel && k < 4
  {
    var n, g := Channels(r.fmt, MERGE_2), r.pixel;
    var xs, zs := Field16(Quot(r.p0.x, g)), Field16(r.p0.y);
    Lane(ChannelLane(n) * k, ChannelLane(n) * n + g * k, g, MergeStep(n, g), 2 * PixelLane(n), 2 * PixelLane(n), g, g, xs, xs, zs, zs)
  }

  function MergeMid(r: ChannelInfo): Record
    requires 0 < r.pixel
  {
    FourLaned(r.id, 1, true, true, Pipes(Channels(r.fmt, MERGE_2), 0),
              MergeLane(r, 0), MergeLane(r, 1), MergeLane(r, 2), MergeLane(r, 3))
  }

  function MergeOut(r: ChannelInfo): Record {
    var n := Channels(r.fmt, MERGE_2);
    var (xs, ys, zs) := (Field16(r.image.x), Field16(r.image.y), Field16(r.image.z));
    Plain(Type0(0, r.id, 0, 1, 0, true, false, 0, ChannelLane(n) * n, r.image.addr, 2 * PixelLane(n), r.image.pitchX, 1, r.image.pitchY,
                xs, xs, ys, ys, zs, zs))
  }

  function MergeRecords(r: ChannelInfo): seq<Record>
    requires 0 < r.pixel
  {
    [MergeIn(r), MergeMid(r), MergeOut(r)]
  }

  // ----- writing them -----

  method SplitSizes(fmt: Byte, mask: Byte) returns (tileX: nat, tileY: nat, out: nat, channels: nat, pipes: Byte)
    ensures var n := Channels(fmt, SPLIT_2);
            tileX == PixelLane(n) && tileY == LineCount(n) && out == ChannelLane(n) && channels == n && pipes == Pipes(n, mask)
  {
    var low := mask % 16;
    match fmt {
      case 93 => tileX, tileY, out, channels, pipes := 512, 16, 256, 2, 0x33;
      case 94 => tileX, tileY, out, channels, pipes := 768, 10, 256, 3, 0x77;
      case 95 => tileX, tileY, out, channels, pipes := 1024, 8, 256, 4, 0xff;
      case _ => tileX, tileY, out, channels, pipes := 1, 1, 1, 1, 0;
    }
    if channels != 1 && low != 0 {
      pipes := low * 16 + low;
    }
  }

  method FillDescSplitNIn(r: ChannelInfo, descs: array<Record>, i: nat)
    requires i < descs.Length
    modifies descs
    ensures descs[..] == old(descs[..])[i := SplitIn(r)]
  {
    var tileX, tileY, _, _, _ := SplitSizes(r.fmt, 0);
    var xs, ys, zs := Field16(r.image.x), Field16(r.image.y), Field16(r.image.z);
    descs[i] := Plain(Type0(0, r.id, 0, 1, 1, false, true, 0, r.image.addr, 0, r.image.pitchX, 2 * tileX, r.image.pitchY, tileY,
                            xs, xs, ys, ys, zs, zs));
  }

  method FillDescSplitN(r: ChannelInfo, descs: array<Record>, i: nat)
    requires i < descs.Length && 0 < r.pixel
    modifies descs
    ensures descs[..] == old(descs[..])[i := SplitMid(r)]
  {
    var tileX, _, out, channels, pipes := SplitSizes(r.fmt, r.mask);
    var size, pixels, lines := r.pixel / channels, Field16(Quot(r.image.x, r.pixel)), Field16(r.image.y);
    descs[i] := Routed(r.id, 1, 1, true, true, 0x8421, 0, 1, pipes,
                       [Lane(0, tileX, r.pixel, size, 2 * tileX, 2 * tileX, size, size, pixels, pixels, lines, lines),
                        Lane(size, tileX + out, r.pixel, size, 2 * tileX, 2 * tileX, size, size, pixels, pixels, lines, lines),
                        Lane(size * 2, tileX + out * 2, r.pixel, size, 2 * tileX, 2 * tileX, size, size, pixels, pixels, lines, lines),
                        Lane(size * 3, tileX + out * 3, r.pixel, size, 2 * tileX, 2 * tileX, size, size, pixels, pixels, lines, lines)]);
  }

  method FillDescSplitNOut(r: ChannelInfo, descs: array<Record>, i: nat)
    requires i < descs.Length
    modifies descs
    ensures descs[..] == old(descs[..])[i := SplitOut(r)]
  {
    var tileX, _, out, _, pipes := SplitSizes(r.fmt, r.mask);
    var row := 2 * tileX;
    var x0, x1, x2, x3 := Field16(r.p0.x), Field16(r.p1.x), Field16(r.p2.x), Field16(r.p3.x);
    var y0, y1, y2, y3 := Field16(r.p0.y), Field16(r.p1.y), Field16(r.p2.y), Field16(r.p3.y);
    descs[i] := Routed(r.id, 1, 0, true, false, 0x8421, 0, 1, pipes,
                       [Lane(tileX, r.p0.addr, row, r.p0.pitchX, 1, r.p0.pitchY, x0, x0, y0, y0, 1, 1),
                        Lane(tileX + out, r.p1.addr, row, r.p1.pitchX, 1, r.p1.pitchY, x1, x1, y1, y1, 1, 1),
                        Lane(tileX + out * 2, r.p2.addr, row, r.p2.pitchX, 1, r.p2.pitchY, x2, x2, y2, y2, 1, 1),
                        Lane(tileX + out * 3, r.p3.addr, row, r.p3.pitchX, 1, r.p3.pitchY, x3, x3, y3, y3, 1, 1)]);
  }

  // A pixel must have a byte for every channel.
  method FillDescSplit(r: ChannelInfo, descs: array<Record>, at: nat)
    requires at + 3 <= descs.Length && Channels(r.fmt, SPLIT_2) <= r.pixel
    modifies descs
    ensures descs[..] == old(descs[..at]) + SplitRecords(r) + old(descs[at + 3..])
    // Both lane descriptors turn on the lanes of the mask, or those of all channels.
    ensures descs[at + 1].Routed? && descs[at + 2].Routed? && descs[at + 2].pipes == descs[at + 1].pipes
    ensures !(93 <= r.fmt <= 95) ==> descs[at + 1].pipes == 0
    ensures 93 <= r.fmt <= 95 ==> forall k :: 0 <= k < 4 ==>
              && (BitOf(descs[at + 1].pipes, k) <==> if r.mask % 16 == 0 then k < r.fmt - 91 else BitOf(r.mask, k))
              && BitOf(descs[at + 1].pipes, k + 4) == BitOf(descs[at + 1].pipes, k)
  {
    FillDescSplitNIn(r, descs, at);
    FillDescSplitN(r, descs, at + 1);
    FillDescSplitNOut(r, descs, at + 2);
    if 93 <= r.fmt <= 95 {
      MaskedPipes(r.fmt - 91, r.mask, descs[at + 1].pipes);
    }
  }

  method MergeSizes(fmt: Byte) returns (tileX: nat, out: nat, channels: nat, pipes: Byte)
    ensures var n := Channels(fmt, MERGE_2);
            tileX == ChannelLane(n) && out == PixelLane(n) && channels == n && pipes == Pipes(n, 0)
  {
    match fmt {
      case 96 => tileX, out, channels, pipes := 256, 512, 2, 0x33;
      case 97 => tileX, out, channels, pipes := 256, 768, 3, 0x77;
      case 98 => tileX, out, channels, pipes := 256, 1024, 4, 0xff;
      case _ => tileX, out, channels, pipes := 1, 1, 1, 0;
    }
  }

  method FillDescMergeNIn(r: ChannelInfo, descs: array<Record>, i: nat)
    requires i < descs.Length
    modifies descs
    ensures descs[..] == old(descs[..])[i := MergeIn(r)]
  {
    var tileX, out, _, pipes := MergeSizes(r.fmt);
    var row := 2 * out;
    var x0, x1, x2, x3 := Field16(r.p0.x), Field16(r.p1.x), Field16(r.p2.x), Field16(r.p3.x);
    var y0, y1, y2, y3 := Field16(r.p0.y), Field16(r.p1.y), Field16(r.p2.y), Field16(r.p3.y);
    descs[i] := Routed(r.id, 1, 1, false, true, 0x8421, 0, 1, pipes,
                       [Lane(r.p0.addr, 0, r.p0.pitchX, row, r.p0.pitchY, 1, x0, x0, y0, y0, 1, 1),
                        Lane(r.p1.addr, tileX, r.p1.pitchX, row, r.p1.pitchY, 1, x1, x1, y1, y1, 1, 1),
                        Lane(r.p2.addr, tileX * 2, r.p2.pitchX, row, r.p2.pitchX, 1, x2, x2, y2, y2, 1, 1),
                        Lane(r.p3.addr, tileX * 3, r.p3.pitchX, row, r.p3.pitchY, 1, x3, x3, y3, y3, 1, 1)]);
  }

  method FillDescMergeN(r: ChannelInfo, descs: array<Record>, i: nat)
    requires i < descs.Length && 0 < r.pixel
    modifies descs
    ensures descs[..] == old(descs[..])[i := MergeMid(r)]
  {
    var tileX, out, channels, pipes := MergeSizes(r.fmt);
    var size: nat := r.pixel;
    var pixels, lines := Field16(Quot(r.p0.x, r.pixel)), Field16(r.p0.y);
    var head, whole, row := tileX * channels, size * channels % 0x100, 2 * out;
    descs[i] := Routed(r.id, 1, 1, true, true, 0x8421, 0, 1, pipes,
                       [Lane(0, head, size, whole, row, row, size, size, pixels, pixels, lines, lines),
                        Lane(tileX, head + size, size, whole, row, row, size, size, pixels, pixels, lines, lines),
                        Lane(tileX * 2, head + size * 2, size, whole, row, row, size, size, pixels, pixels, lines, lines),
                        Lane(tileX * 3, head + size * 3, size, whole, row, row, size, size, pixels, pixels, lines, lines)]);
  }

  method FillDescMergeNOut(r: ChannelInfo, descs: array<Record>, i: nat)
    requires i < descs.Length
    modifies descs
    ensures descs[..] == old(descs[..])[i := MergeOut(r)]
  {
    var tileX, out, channels, _ := MergeSizes(r.fmt);
    var xs, ys, zs := Field16(r.image.x), Field16(r.image.y), Field16(r.image.z);
    descs[i] := Plain(Type0(0, r.id, 0, 1, 0, true, false, 0, tileX * channels, r.image.addr, 2 * out, r.image.pitchX, 1, r.image.pitchY,
                            xs, xs, ys, ys, zs, zs));
  }

  method FillDescMerge(r: ChannelInfo, descs: array<Record>, at: nat)
    requires at + 3 <= descs.Length && 0 < r.pixel
    modifies descs
    ensures descs[..] == old(descs[..at]) + MergeRecords(r) + old(descs[at + 3..])
    ensures descs[at].Routed? && descs[at + 1].Routed? && descs[at + 1].pipes == descs[at].pipes
    ensures descs[at].pipes == if r.fmt == 96 then 0x33 else if r.fmt == 97 then 0x77 else if r.fmt == 98 then 0xff else 0
  {
    FillDescMergeNIn(r, descs, at);
    FillDescMergeN(r, descs, at + 1);
    FillDescMergeNOut(r, descs, at + 2);
  }

  // ----- what they do -----

  function ImageGrid(a: Area, c: nat): Grid {
    Grid(0, a.addr, a.pitchX, c)
  }

  function PlaneAt(r: ChannelInfo, k: nat): Area {
    if k == 0 then r.p0 else if k == 1 then r.p1 else if k == 2 then r.p2 else r.p3
  }

  function PlaneGrids(r: ChannelInfo, g: nat): (planes: seq<Grid>)
    ensures |planes| == 4
    ensures forall k :: 0 <= k < 4 ==> planes[k] == ImageGrid(PlaneAt(r, k), g)
  {
    [ImageGrid(r.p0, g), ImageGrid(r.p1, g), ImageGrid(r.p2, g), ImageGrid(r.p3, g)]
  }

  // The image of a request.
  function ImageOf(r: ChannelInfo, l: Layout): Grid {
    ImageGrid(r.image, l.n * l.g)
  }

  // The area holds h lines of w items of c bytes.
  predicate Shows(a: Area, h: nat, w: nat, c: nat) {
    a.x == c * w && a.y == h
  }

  // Sides whose base and strides are a grid's own.
  lemma PlainRows(s: Side, a: Grid, h: nat, w: nat, c: nat, lo: int, hi: int)
    requires s.xs == c * w && s.ys == h && s.zs == 1 && 0 < c && 0 < w && 0 < h
    requires s.Space() == a.space && a.col == c && s.base == a.base && s.pitch == a.row
    requires Within(a, h, w, c, lo, hi) && a.space <= lo && hi <= a.space + MEMORY
    ensures Streams(s, a, h, w, c)
  {
    WithinSpace(a, h, w, c, lo, hi);
    WrapSmall(a.base);
    WrapSmall(a.row);
    StreamsRows(s, a, h, w, c);
  }

  lemma PlainPixels(s: Side, a: Grid, h: nat, w: nat, c: nat, lo: int, hi: int)
    requires s.xs == c && s.ys == w && s.zs == h && 0 < c && 0 < w
    requires s.Space() == a.space && s.base == a.base && s.pitch == a.col && s.slab == a.row
    requires Within(a, h, w, c, lo, hi) && a.space <= lo && hi <= a.space + MEMORY
    ensures Streams(s, a, h, w, c)
  {
    WithinSpace(a, h, w, c, lo, hi);
    WrapSmall(a.base);
    WrapSmall(a.row);
    WrapSmall(a.col);
    StreamsPixels(s, a, h, w, c);
  }

  lemma LanesIn(l: Layout, k: nat, at: nat)
    requires Fits(l) && k < l.n && at <= l.Half()
    ensures Within(l.Part(at, k), l.h, l.w, l.g, MEMORY, CELLS) && Within(l.Channel(at, k), l.h, l.w, l.g, MEMORY, CELLS)
  {
    ChannelsApart(l, at, k, k);
    PartColumn(l, at, k);
    ColumnWithin(l.Part(at, k), l, at, at + l.Half());
  }

  // One lane between a channel lane and a plane of that channel.
  lemma PlaneLane(l: Layout, d: Desc, from: Grid, to: Grid, plane: Grid, k: nat, at: nat)
    requires Fits(l) && k < l.n && at <= l.Half() && plane.space == 0 && plane.col == l.g && InMemory(plane, l.h, l.w, l.g)
    requires (from == plane && to == l.Channel(at, k)) || (from == l.Channel(at, k) && to == plane)
    requires d.Copy? && !d.swap && d.src.Space() == from.space && d.dst.Space() == to.space
    requires d.src.base == from.base && d.src.pitch == from.row && d.dst.base == to.base && d.dst.pitch == to.row
    requires d.src.xs == l.g * l.w && d.src.ys == l.h && d.src.zs == 1 && d.dst.xs == l.g * l.w && d.dst.ys == l.h && d.dst.zs == 1
    ensures Carries(d, Route(from, to), l.h, l.w, l.g)
  {
    LanesIn(l, k, at);
    PlainRows(d.src, from, l.h, l.w, l.g, from.space, from.space + (if from.space == 0 then MEMORY else TMP_BYTES));
    PlainRows(d.dst, to, l.h, l.w, l.g, to.space, to.space + (if to.space == 0 then MEMORY else TMP_BYTES));
  }

  // The whole image, between memory and the pixel lane.
  lemma ImageLane(l: Layout, d: Desc, from: Grid, to: Grid, img: Grid, at: nat)
    requires Fits(l) && at <= l.Half() && img.space == 0 && img.col == l.n * l.g && InMemory(img, l.h, l.w, l.n * l.g)
    requires (from == img && to == l.Pixels(at)) || (from == l.Pixels(at) && to == img)
    requires d.Copy? && !d.swap && d.src.Space() == from.space && d.dst.Space() == to.space
    requires d.src.base == from.base && d.src.pitch == from.row && d.dst.base == to.base && d.dst.pitch == to.row
    requires d.src.xs == l.n * l.g * l.w && d.src.ys == l.h && d.src.zs == 1
    requires d.dst.xs == l.n * l.g * l.w && d.dst.ys == l.h && d.dst.zs == 1
    ensures Carries(d, Route(from, to), l.h, l.w, l.n * l.g)
  {
    PixelsFit(l, at);
    PlainRows(d.src, from, l.h, l.w, l.n * l.g, from.space, from.space + (if from.space == 0 then MEMORY else TMP_BYTES));
    PlainRows(d.dst, to, l.h, l.w, l.n * l.g, to.space, to.space + (if to.space == 0 then MEMORY else TMP_BYTES));
  }

  // The lanes a split has on.
  function Switched(r: ChannelInfo): Byte {
    Pipes(Channels(r.fmt, SPLIT_2), r.mask)
  }

  // The channels a split is to deliver: those there are, of those that are on.
  function Chosen(r: ChannelInfo): seq<nat> {
    ActiveFrom(Switched(r), 0, Channels(r.fmt, SPLIT_2))
  }

  // Each chosen plane has the size of its channel. The mask may turn on lanes
  // that have no channel.
  predicate SplitAsks(r: ChannelInfo, l: Layout) {
    && SPLIT_2 <= r.fmt <= SPLIT_2 + 2 && l.n == Channels(r.fmt, SPLIT_2) && Fits(l) && 0 < r.pixel == l.n * l.g
    && Shows(r.image, l.h, l.w, l.n * l.g) && r.image.z == 1
    && forall i :: 0 <= i < |Chosen(r)| ==> Shows(PlaneAt(r, Chosen(r)[i]), l.h, l.w, l.g)
  }

  lemma Halved(a: nat, b: nat)
    ensures (2 * a + b) / 2 == a + b / 2 && (2 * a + b) % 2 == b % 2
  {
  }

  // The low and the high half of a byte.
  lemma LowNibble(a: nat, b: nat, k: nat)
    requires k < 4
    ensures BitOf(16 * a + b, k) == BitOf(b, k)
  {
    Halved(8 * a, b);
    Halved(4 * a, b / 2);
    Halved(2 * a, b / 2 / 2);
    Halved(a, b / 2 / 2 / 2);
    if k == 1 {
      assert BitOf(b, 1) == BitOf(b / 2, 0) && BitOf(16 * a + b, 1) == BitOf(8 * a + b / 2, 0);
    } else if k == 2 {
      assert BitOf(b, 2) == BitOf(b / 2, 1) == BitOf(b / 2 / 2, 0);
      assert BitOf(16 * a + b, 2) == BitOf(8 * a + b / 2, 1) == BitOf(4 * a + b / 2 / 2, 0);
    } else if k == 3 {
      assert BitOf(b, 3) == BitOf(b / 2, 2) == BitOf(b / 2 / 2, 1) == BitOf(b / 2 / 2 / 2, 0);
      assert BitOf(16 * a + b, 3) == BitOf(8 * a + b / 2, 2) == BitOf(4 * a + b / 2 / 2, 1) == BitOf(2 * a + b / 2 / 2 / 2, 0);
    }
  }

  lemma HighNibble(a: nat, b: nat, k: nat)
    requires b < 16
    ensures BitOf(16 * a + b, k + 4) == BitOf(a, k)
  {
    Halved(8 * a, b);
    Halved(4 * a, b / 2);
    Halved(2 * a, b / 2 / 2);
    Halved(a, b / 2 / 2 / 2);
    assert BitOf(16 * a + b, k + 4) == BitOf(8 * a + b / 2, k + 3) == BitOf(4 * a + b / 2 / 2, k + 2);
    assert BitOf(4 * a + b / 2 / 2, k + 2) == BitOf(2 * a + b / 2 / 2 / 2, k + 1) == BitOf(a, k);
  }

  // A mask turns on the reader and the writer of the same lanes.
  lemma MaskLanes(m: nat, k: nat)
    requires m < 16 && k < 4
    ensures Active(m * 17, k) <==> BitOf(m, k)
  {
    LowNibble(m, m, k);
    HighNibble(m, m, k);
  }

  lemma LowMask(mask: Byte, k: nat)
    requires k < 4
    ensures BitOf(mask % 16, k) == BitOf(mask, k)
  {
    LowNibble(mask / 16, mask % 16, k);
  }

  // The reader and the writer of each lane below four, for every mask.
  lemma MaskedPipe(n: nat, mask: Byte, k: nat)
    requires 2 <= n <= 4 && k < 4
    ensures BitOf(Pipes(n, mask), k) <==> if mask % 16 == 0 then k < n else BitOf(mask, k)
    ensures BitOf(Pipes(n, mask), k + 4) == BitOf(Pipes(n, mask), k)
  {
    var m := if mask % 16 != 0 then mask % 16 else if n == 2 then 3 else if n == 3 then 7 else 15;
    LowNibble(m, m, k);
    HighNibble(m, m, k);
    LowMask(mask, k);
    assert BitOf(3, 0) && BitOf(3, 1) && !BitOf(3, 2) && !BitOf(3, 3);
    assert BitOf(7, 0) && BitOf(7, 1) && BitOf(7, 2) && !BitOf(7, 3);
    assert BitOf(15, 0) && BitOf(15, 1) && BitOf(15, 2) && BitOf(15, 3);
  }

  lemma MaskedPipes(n: nat, mask: Byte, pipes: Byte)
    requires 2 <= n <= 4 && pipes == Pipes(n, mask)
    ensures forall k :: 0 <= k < 4 ==>
              (BitOf(pipes, k) <==> if mask % 16 == 0 then k < n else BitOf(mask, k)) && BitOf(pipes, k + 4) == BitOf(pipes, k)
  {
    forall k: nat | k < 4
      ensures (BitOf(pipes, k) <==> if mask % 16 == 0 then k < n else BitOf(mask, k)) && BitOf(pipes, k + 4) == BitOf(pipes, k)
    {
      MaskedPipe(n, mask, k);
    }
  }

  // No mask is a mask with every channel.
  lemma NoMask(n: nat, k: nat)
    requires 2 <= n <= 4 && k < 4
    ensures Active(Pipes(n, 0), k) <==> k < n
  {
    MaskLanes(if n == 2 then 3 else if n == 3 then 7 else 15, k);
    assert BitOf(3, 0) && BitOf(3, 1) && !BitOf(3, 2) && !BitOf(3, 3);
    assert BitOf(7, 0) && BitOf(7, 1) && BitOf(7, 2) && !BitOf(7, 3);
    assert BitOf(15, 0) && BitOf(15, 1) && BitOf(15, 2) && BitOf(15, 3);
  }

  lemma Division(a: nat, d: nat, q: nat)
    requires 0 < d && a == d * q
    ensures Quot(a, d) == q
  {
    DivModUnique(d, q, 0);
  }

  lemma LayoutSmall(l: Layout)
    requires Fits(l)
    ensures l.w <= 256 && l.g <= 256 && l.h <= 16 && l.n * l.g * l.w <= 1024 && l.g * l.w <= 256 && 0 < l.n * l.g
  {
    MulLe(1, l.g, l.w);
    MulLe(1, l.w, l.g);
    MulLe(l.g * l.w, 256, l.n);
    MulLe(1, l.n, l.g);
    assert l.n * l.g * l.w == (l.g * l.w) * l.n;
  }

  lemma SplitNumbers(r: ChannelInfo, l: Layout)
    requires SplitAsks(r, l)
    ensures Quot(r.pixel, l.n) == l.g && Field16(Quot(r.image.x, r.pixel)) == l.w && Field16(r.image.y) == l.h
    ensures Field16(r.image.x) == l.n * l.g * l.w && Field16(r.image.z) == 1
  {
    LayoutSmall(l);
    Division(r.pixel, l.n, l.g);
    Division(r.image.x, r.pixel, l.w);
    SmallField(l.w);
    SmallField(l.h);
    SmallField(r.image.x);
    SmallField(1);
  }

  lemma SplitInCarries(r: ChannelInfo, l: Layout)
    requires SplitAsks(r, l) && InMemory(ImageOf(r, l), l.h, l.w, l.n * l.g)
    ensures Carries(DescOf(SplitIn(r).t), Route(ImageOf(r, l), l.Pixels(0)), l.h, l.w, l.n * l.g)
  {
    var img := ImageOf(r, l);
    SplitNumbers(r, l);
    ImageLane(l, DescOf(SplitIn(r).t), img, l.Pixels(0), img, 0);
  }

  // The lanes to memory that are on beyond the channels.
  function SpareLanes(r: ChannelInfo): seq<Desc> {
    LanesTo(SplitOut(r), Channels(r.fmt, SPLIT_2), 4)
  }

  lemma PlaneOutCarries(r: ChannelInfo, l: Layout, k: nat, p: Area, plane: Grid)
    requires l.n == Channels(r.fmt, SPLIT_2) && Fits(l) && k < l.n && Shows(p, l.h, l.w, l.g)
    requires plane == ImageGrid(p, l.g) && InMemory(plane, l.h, l.w, l.g)
    ensures Carries(LaneCopy(SplitOut(r), PlaneOutLane(r, p, k)), Route(l.Channel(l.Half(), k), plane), l.h, l.w, l.g)
  {
    LayoutSmall(l);
    SmallField(p.x);
    SmallField(p.y);
    PlaneLane(l, LaneCopy(SplitOut(r), PlaneOutLane(r, p, k)), l.Channel(l.Half(), k), plane, plane, k, l.Half());
  }

  // ----- lanes that have no channel -----

  // Lane k >= n writes the pixel lane of the next line.
  lemma NextLine(l: Layout, k: nat, j: nat)
    requires Fits(l) && l.n <= k < 4 && j < l.n
    ensures Apart(l.Channel(l.Half(), k), l.Channel(l.Half(), j), l.h, l.w, l.g)
  {
    var a, b := l.Channel(l.Half(), k), l.Channel(l.Half(), j);
    ChannelColumn(l, l.Half(), k);
    ChannelColumn(l, l.Half(), j);
    forall y: nat, x: nat, i: nat, y': nat, x': nat, i': nat |
      y < l.h && x < l.w && i < l.g && y' < l.h && x' < l.w && i' < l.g
      ensures a.At(y, x, i) != b.At(y', x', i')
    {
      var p, q := a.At(0, x, i) - MEMORY, b.At(0, x', i') - MEMORY;
      LinesApart(l.Row(), l.Half(), y, y', p - l.Row(), q);
    }
  }

  lemma LinesApart(row: nat, half: nat, y: nat, y': nat, p: int, q: int)
    requires 0 <= p < half <= q < row
    ensures y * row + row + p != y' * row + q
  {
    assert (y + 1) * row == y * row + row;
    if y * row + row + p == y' * row + q {
      DivModUnique(row, y + 1, p);
      DivModUnique(row, y', q);
    }
  }

  ghost predicate SplitRoom(r: ChannelInfo, l: Layout) {
    Room(l, ImageOf(r, l), PlaneGrids(r, l.g), Chosen(r), SpareLanes(r))
  }

  // No byte to copy.
  predicate Nothing(a: Area) {
    Field16(a.x) == 0 || Field16(a.y) == 0
  }

  predicate Idle(r: ChannelInfo) {
    var n := Channels(r.fmt, SPLIT_2);
    forall k :: n <= k < 4 && Active(Switched(r), k) ==> Nothing(PlaneAt(r, k))
  }

  lemma ExtraLane(r: ChannelInfo, k: nat, d: Desc)
    requires k < 4 && d == LaneCopy(SplitOut(r), PlaneOutLane(r, PlaneAt(r, k), k))
    ensures Runnable(d) <==> !Nothing(PlaneAt(r, k))
    ensures Runnable(d) ==> WritesCell(d, d.dst.Cell(0)) && d.dst.Cell(0) < MEMORY
  {
    var p := PlaneAt(r, k);
    assert d.dst.Count() == Field16(p.x) * Field16(p.y) * 1;
    if !Nothing(p) {
      MulLe(1, Field16(p.x), Field16(p.y));
    }
  }

  lemma IdleMisses(r: ChannelInfo, a: int)
    requires Idle(r)
    ensures Misses(SpareLanes(r), a)
  {
    var n := Channels(r.fmt, SPLIT_2);
    var ks := ActiveFrom(SplitOut(r).pipes, n, 4);
    LanesAre(SplitOut(r), n, 4);
    ActiveOrder(SplitOut(r).pipes, n, 4);
    forall i | 0 <= i < |ks|
      ensures !Runnable(SpareLanes(r)[i])
    {
      assert SplitOut(r).lanes[ks[i]] == PlaneOutLane(r, PlaneAt(r, ks[i]), ks[i]);
      ExtraLane(r, ks[i], SpareLanes(r)[i]);
    }
  }
}
