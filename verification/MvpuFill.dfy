// The rotation request of the MVPU interface: three descriptors written in
// place, and what running them does.
module MvpuFill {
  import opened Words
  import opened Machine
  import opened DescRecord
  import opened MvpuRecord
  import opened MvpuRotation

  const ROTATE_90: Byte := 90
  const ROTATE_180: Byte := 91
  const ROTATE_270: Byte := 92

  // Sizes and pitches along x are in bytes, sizes along y in lines.
  datatype RotateInfo = RotateInfo(
    fmt: Byte, id: Byte, src: Word, srcX: Word, srcY: Word, srcPitchX: Word, srcPitchY: Word,
    dst: Word, dstX: Word, dstY: Word, dstPitchX: Word, pixel: Byte)

  // ----- the descriptors -----

  // Memory to the first half.
  function InRecord(r: RotateInfo): Record {
    Plain(Type0(0, r.id, 0, 1, 1, false, true, 0, r.src, 0, r.srcPitchX, TileX(r.pixel), r.srcPitchY, 1,
                Field16(r.srcX), Field16(r.srcX), Field16(r.srcY), Field16(r.srcY), 1, 1))
  }

  // Pixels per line, for a byte count that is rounded up.
  function Pixels(bytes: Word, size: nat): (n: nat)
    requires 0 < size
  {
    Field16(Quot(Wrap(bytes + size - 1), size))
  }

  // The quarter turns move one pixel per line from half to half.
  function QuarterRecord(r: RotateInfo, dst: Word, dstX: Word, dstY: Word): Record
    requires 0 < r.pixel
  {
    var n := Pixels(r.srcX, r.pixel);
    Plain(Type0(0, r.id, 0, 1, 1, true, true, 0, 0, dst, r.pixel, dstX, TileX(r.pixel), dstY,
                r.pixel, r.pixel, n, n, Field16(r.srcY), Field16(r.srcY)))
  }

  function Rotate90Record(r: RotateInfo): Record
    requires 0 < r.pixel
  {
    QuarterRecord(r, Wrap(Half(r.pixel) + r.srcY * r.pixel - r.pixel), TileY(r.pixel) * r.pixel, Wrap(Neg(r.pixel)))
  }

  function Rotate270Record(r: RotateInfo): Record
    requires 0 < r.pixel
  {
    var y := TileY(r.pixel) * r.pixel;
    QuarterRecord(r, Wrap(Half(r.pixel) + y * (r.dstY - 1)), Wrap(Neg(y)), r.pixel)
  }

  // Bytes the half turn moves at once.
  function WorkSize(r: RotateInfo): nat {
    if r.pixel == 1 && r.srcX % 4 == 0 then 4 else r.pixel
  }

  function Rotate180Record(r: RotateInfo): Record
    requires 0 < r.pixel
  {
    var x, k := TileX(r.pixel), WorkSize(r);
    var fast := r.pixel == 1 && r.srcX % 4 == 0;
    var lane := Lane(0, Wrap(Half(r.pixel) + x * (r.dstY - 1) + r.dstX - k), x, Wrap(Neg(k)), TileY(r.pixel), Wrap(Neg(x)),
                     Field16(r.srcX), k, Field16(r.srcY), Pixels(r.dstX, k), 1, Field16(r.dstY));
    Routed(r.id, 1, 1, true, true, if fast then 0x1248 else 0x8421, if fast then 3 else 0, if fast then 0 else 1, 0x11,
           [lane, UNUSED, UNUSED, UNUSED])
  }

  // The second half to memory.
  function OutRecord(r: RotateInfo): Record {
    Plain(Type0(0, r.id, 0, 1, 0, true, false, 0, Half(r.pixel), r.dst,
                if r.fmt == ROTATE_180 then TileX(r.pixel) else TileY(r.pixel) * r.pixel, r.dstPitchX, 1, 1,
                Field16(r.dstX), Field16(r.dstX), Field16(r.dstY), Field16(r.dstY), 1, 1))
  }

  // The word at 0x24, in either layout.
  function ReadPitch(r: Record): Word {
    if r.Plain? then r.t.srcX else if r.lanes == [] then 0 else r.lanes[0].srcX
  }

  // The record for any other format, written over was.
  function Unpitched(r: RotateInfo, was: Record): Record {
    Plain(OutRecord(r).t.(srcX := ReadPitch(was)))
  }

  predicate Supported(fmt: Byte) {
    ROTATE_90 <= fmt <= ROTATE_270
  }

  function TurnRecord(r: RotateInfo): Record
    requires Supported(r.fmt) && 0 < r.pixel
  {
    if r.fmt == ROTATE_90 then Rotate90Record(r)
    else if r.fmt == ROTATE_180 then Rotate180Record(r)
    else Rotate270Record(r)
  }

  function Records(r: RotateInfo): (rs: seq<Record>)
    requires Supported(r.fmt) && 0 < r.pixel
  {
    [InRecord(r), TurnRecord(r), OutRecord(r)]
  }

  // ----- writing them -----

  method TileSize(pixel: Byte) returns (x: nat, y: nat)
    ensures x == TileX(pixel) && y == TileY(pixel)
  {
    x, y := 1, 1;
    match pixel {
      case 1 => x, y := 128, 64;
      case 2 => x, y := 256, 32;
      case 3 => x, y := 255, 32;
      case 4 => x, y := 256, 32;
      case _ =>
    }
  }

  method FillDescRotOutBufIn(r: RotateInfo, descs: array<Record>, k: nat)
    requires k < descs.Length
    modifies descs
    ensures descs[..] == old(descs[..])[k := InRecord(r)]
  {
    var tileX, tileY := TileSize(r.pixel);
    var xs, ys := Field16(r.srcX), Field16(r.srcY);
    descs[k] := Plain(Type0(0, r.id, 0, 1, 1, false, true, 0, r.src, 0, r.srcPitchX, tileX, r.srcPitchY, 1, xs, xs, ys, ys, 1, 1));
  }

  method FillDescRotate90(r: RotateInfo, descs: array<Record>, k: nat)
    requires k < descs.Length && 0 < r.pixel
    modifies descs
    ensures descs[..] == old(descs[..])[k := Rotate90Record(r)]
  {
    var tileX, tileY := TileSize(r.pixel);
    var dst := Wrap(tileX * tileY + r.srcY * r.pixel - r.pixel);
    var ys, zs := Field16(Wrap(r.srcX + r.pixel - 1) / r.pixel), Field16(r.srcY);
    descs[k] := Plain(Type0(0, r.id, 0, 1, 1, true, true, 0, 0, dst, r.pixel, tileY * r.pixel, tileX, Wrap(Neg(r.pixel)),
                            r.pixel, r.pixel, ys, ys, zs, zs));
  }

  method FillDescRotate270(r: RotateInfo, descs: array<Record>, k: nat)
    requires k < descs.Length && 0 < r.pixel
    modifies descs
    ensures descs[..] == old(descs[..])[k := Rotate270Record(r)]
  {
    var tileX, tileY := TileSize(r.pixel);
    var pitch := tileY * r.pixel;
    var dst := Wrap(tileX * tileY + pitch * (r.dstY - 1));
    var ys, zs := Field16(Wrap(r.srcX + r.pixel - 1) / r.pixel), Field16(r.srcY);
    descs[k] := Plain(Type0(0, r.id, 0, 1, 1, true, true, 0, 0, dst, r.pixel, Wrap(Neg(pitch)), tileX, r.pixel,
                            r.pixel, r.pixel, ys, ys, zs, zs));
  }

  method FillDescRotate180(r: RotateInfo, descs: array<Record>, k: nat)
    requires k < descs.Length && 0 < r.pixel
    modifies descs
    ensures descs[..] == old(descs[..])[k := Rotate180Record(r)]
  {
    var tileX, tileY := TileSize(r.pixel);
    var workPixel, workSize := 1, r.pixel;
    if r.pixel == 1 && r.srcX % 4 == 0 {
      workPixel, workSize := 4, 4;
    }
    var matrix, swapper, router := 0x8421, 0, 1;
    if workPixel == 4 {
      matrix, swapper, router := 0x1248, 3, 0;
    }
    var dst := Wrap(tileX * tileY + tileX * (r.dstY - 1) + r.dstX - workSize);
    var ys := Field16(Wrap(r.dstX + workSize - 1) / workSize);
    var lane := Lane(0, dst, tileX, Wrap(Neg(workSize)), tileY, Wrap(Neg(tileX)),
                     Field16(r.srcX), workSize, Field16(r.srcY), ys, 1, Field16(r.dstY));
    descs[k] := Routed(r.id, 1, 1, true, true, matrix, swapper, router, 0x11, [lane, UNUSED, UNUSED, UNUSED]);
  }

  // Any other format leaves the read pitch as it was.
  method FillDescRotInBufOut(r: RotateInfo, descs: array<Record>, k: nat)
    requires k < descs.Length
    modifies descs
    ensures Supported(r.fmt) ==> descs[..] == old(descs[..])[k := OutRecord(r)]
    ensures !(90 <= r.fmt <= 92) ==> descs[..] == old(descs[..])[k := Unpitched(r, old(descs[k]))]
  {
    var tileX, tileY := TileSize(r.pixel);
    var pitch := ReadPitch(descs[k]);
    match r.fmt {
      case 90 => pitch := tileY * r.pixel;
      case 91 => pitch := tileX;
      case 92 => pitch := tileY * r.pixel;
      case _ =>
    }
    var xs, ys := Field16(r.dstX), Field16(r.dstY);
    descs[k] := Plain(Type0(0, r.id, 0, 1, 0, true, false, 0, tileX * tileY, r.dst, pitch, r.dstPitchX, 1, 1, xs, xs, ys, ys, 1, 1));
  }

  lemma ThreeUpdates(s: seq<Record>, at: nat, a: Record, b: Record, c: Record)
    requires at + 3 <= |s|
    ensures s[at := a][at + 1 := b][at + 2 := c] == s[..at] + [a, b, c] + s[at + 3..]
  {
  }

  // The three records of one request, behind whatever the list holds already;
  // an unknown format writes nothing.
  method FillDesc(r: RotateInfo, descs: array<Record>, at: nat)
    requires at + 3 <= descs.Length && 0 < r.pixel
    modifies descs
    ensures 90 <= r.fmt <= 92 ==> descs[..] == old(descs[..at]) + Records(r) + old(descs[at + 3..])
    ensures !(90 <= r.fmt <= 92) ==> descs[..] == old(descs[..])
  {
    if !Supported(r.fmt) {
      return;
    }
    ghost var was := descs[..];
    FillDescRotOutBufIn(r, descs, at);
    match r.fmt {
      case 90 => FillDescRotate90(r, descs, at + 1);
      case 91 => FillDescRotate180(r, descs, at + 1);
      case _ => FillDescRotate270(r, descs, at + 1);
    }
    FillDescRotInBufOut(r, descs, at + 2);
    ThreeUpdates(was, at, InRecord(r), TurnRecord(r), OutRecord(r));
  }

  // ----- what they do -----

  // The request is for this turn.
  predicate Asks(r: RotateInfo, t: Turn) {
    && 90 <= r.fmt <= 92 && t.angle == r.fmt - 89 && t.c == r.pixel && TurnFits(t)
    && t.src == r.src && t.srcPitch == r.srcPitchX && t.dst == r.dst && t.dstPitch == r.dstPitchX
    && r.srcX == t.c * t.w && r.srcY == t.h && r.dstX == t.c * t.W() && r.dstY == t.H()
  }

  lemma Sizes(r: RotateInfo, t: Turn)
    requires Asks(r, t)
    ensures r.srcX == r.pixel * t.w && r.srcX <= 256 && r.srcY <= 64 && r.dstX <= 256 && r.dstY <= 256
    ensures Field16(r.srcX) == r.srcX && Field16(r.srcY) == r.srcY && Field16(r.dstX) == r.dstX && Field16(r.dstY) == r.dstY
  {
    MulLe(1, r.pixel, t.w);
    MulLe(r.srcY, TileY(r.pixel), r.pixel);
    SmallField(r.srcX);
    SmallField(r.srcY);
    SmallField(r.dstX);
    SmallField(r.dstY);
  }

  lemma WholePixels(bytes: Word, size: nat, n: nat)
    requires 0 < size <= 4 && bytes == size * n && bytes <= 256
    ensures Pixels(bytes, size) == n
  {
    WrapSmall(bytes + size - 1);
    DivModUnique(size, n, size - 1);
    MulLe(1, size, n);
  }

  // Both grids of the middle stage lie in the buffer.
  lemma MiddleSpace(t: Turn)
    requires TurnFits(t)
    ensures InSpace(t.First(), t.h, t.w, t.c) && InSpace(Turned(t), t.h, t.w, t.c)
  {
    FirstFits(t);
    TurnedFits(t);
    HalvesFit(t.c);
    WithinSpace(t.First(), t.h, t.w, t.c, MEMORY, MEMORY + Half(t.c));
    WithinSpace(Turned(t), t.h, t.w, t.c, MEMORY + Half(t.c), MEMORY + 2 * Half(t.c));
  }

  lemma InSides(t: Turn, src: Side, dst: Side)
    requires TurnFits(t)
    requires !src.tmp && src.base == t.src && src.pitch == t.srcPitch && src.xs == t.c * t.w && src.ys == t.h && src.zs == 1
    requires dst.tmp && dst.base == 0 && dst.pitch == TileX(t.c) && dst.xs == t.c * t.w && dst.ys == t.h && dst.zs == 1
    ensures Streams(src, t.In(), t.h, t.w, t.c) && Streams(dst, t.First(), t.h, t.w, t.c)
  {
    RowsWithin(t.In(), t.h, t.w, t.c);
    WithinSpace(t.In(), t.h, t.w, t.c, t.src, t.src + (t.h - 1) * t.srcPitch + t.c * t.w);
    MiddleSpace(t);
    StreamsRows(src, t.In(), t.h, t.w, t.c);
    StreamsRows(dst, t.First(), t.h, t.w, t.c);
  }

  lemma InCopies(r: RotateInfo, t: Turn)
    requires Asks(r, t)
    ensures CopiesIn(t, DescOf(InRecord(r).t))
  {
    Sizes(r, t);
    InSides(t, DescOf(InRecord(r).t).src, DescOf(InRecord(r).t).dst);
  }

  lemma SecondReads(t: Turn, src: Side)
    requires TurnFits(t)
    requires src.tmp && src.base == Half(t.c) && src.pitch == t.Pitch() && src.xs == t.c * t.W() && src.ys == t.H() && src.zs == 1
    ensures Streams(src, t.Second(), t.H(), t.W(), t.c)
  {
    SecondFits(t);
    HalvesFit(t.c);
    WithinSpace(t.Second(), t.H(), t.W(), t.c, MEMORY + Half(t.c), MEMORY + 2 * Half(t.c));
    StreamsRows(src, t.Second(), t.H(), t.W(), t.c);
  }

  lemma OutWrites(t: Turn, dst: Side)
    requires TurnFits(t)
    requires !dst.tmp && dst.base == t.dst && dst.pitch == t.dstPitch && dst.xs == t.c * t.W() && dst.ys == t.H() && dst.zs == 1
    ensures Streams(dst, t.Out(), t.H(), t.W(), t.c)
  {
    RowsWithin(t.Out(), t.H(), t.W(), t.c);
    WithinSpace(t.Out(), t.H(), t.W(), t.c, t.dst, t.dst + (t.H() - 1) * t.dstPitch + t.c * t.W());
    StreamsRows(dst, t.Out(), t.H(), t.W(), t.c);
  }

  lemma OutCopies(r: RotateInfo, t: Turn)
    requires Asks(r, t)
    ensures CopiesOut(t, DescOf(OutRecord(r).t))
  {
    Sizes(r, t);
    SecondReads(t, DescOf(OutRecord(r).t).src);
    OutWrites(t, DescOf(OutRecord(r).t).dst);
  }

  // Lines of one pixel, read down the first half and written to the turned places.
  lemma PixelSides(t: Turn, src: Side, dst: Side)
    requires TurnFits(t)
    requires src.tmp && src.base == 0 && src.pitch == t.c && src.slab == TileX(t.c) && src.xs == t.c && src.ys == t.w && src.zs == t.h
    requires dst.tmp && dst.xs == t.c && dst.ys == t.w && dst.zs == t.h
    requires dst.base == Wrap(Turned(t).base) && dst.pitch == Wrap(Turned(t).col) && dst.slab == Wrap(Turned(t).row)
    ensures Streams(src, t.First(), t.h, t.w, t.c) && Streams(dst, Turned(t), t.h, t.w, t.c)
  {
    MiddleSpace(t);
    StreamsPixels(src, t.First(), t.h, t.w, t.c);
    StreamsPixels(dst, Turned(t), t.h, t.w, t.c);
  }

  // A quarter turn that starts at the turned place of pixel (0, 0) and steps
  // along the turned columns and rows.
  lemma QuarterTurns(r: RotateInfo, t: Turn, dst: Word, dstX: Word, dstY: Word)
    requires Asks(r, t)
    requires dst == Wrap(Turned(t).base) && dstX == Wrap(Turned(t).col) && dstY == Wrap(Turned(t).row)
    ensures TurnsPixels(t, DescOf(QuarterRecord(r, dst, dstX, dstY).t))
  {
    var d := DescOf(QuarterRecord(r, dst, dstX, dstY).t);
    Sizes(r, t);
    WholePixels(r.srcX, r.pixel, t.w);
    PixelSides(t, d.src, d.dst);
  }

  lemma Turns90(r: RotateInfo, t: Turn)
    requires Asks(r, t) && r.fmt == ROTATE_90
    ensures TurnsPixels(t, DescOf(Rotate90Record(r).t))
  {
    QuarterTurns(r, t, Wrap(Half(r.pixel) + r.srcY * r.pixel - r.pixel), TileY(r.pixel) * r.pixel, Wrap(Neg(r.pixel)));
  }

  lemma Turns270(r: RotateInfo, t: Turn)
    requires Asks(r, t) && r.fmt == ROTATE_270
    ensures TurnsPixels(t, DescOf(Rotate270Record(r).t))
  {
    var y := TileY(r.pixel) * r.pixel;
    QuarterTurns(r, t, Wrap(Half(r.pixel) + y * (r.dstY - 1)), Wrap(Neg(y)), r.pixel);
  }

  // Whole lines of the first half, written pixel by pixel to the turned places.
  lemma LineSides(t: Turn, src: Side, dst: Side)
    requires TurnFits(t)
    requires src.tmp && src.base == 0 && src.pitch == TileX(t.c) && src.xs == t.c * t.w && src.ys == t.h && src.zs == 1
    requires dst.tmp && dst.xs == t.c && dst.ys == t.w && dst.zs == t.h
    requires dst.base == Wrap(Turned(t).base) && dst.pitch == Wrap(Turned(t).col) && dst.slab == Wrap(Turned(t).row)
    ensures Streams(src, t.First(), t.h, t.w, t.c) && Streams(dst, Turned(t), t.h, t.w, t.c)
  {
    MiddleSpace(t);
    StreamsRows(src, t.First(), t.h, t.w, t.c);
    StreamsPixels(dst, Turned(t), t.h, t.w, t.c);
  }

  // The one copy a half turn makes.
  function HalfDesc(r: RotateInfo): Desc
    requires 0 < r.pixel
  {
    LaneCopy(Rotate180Record(r), Rotate180Record(r).lanes[0])
  }

  lemma OneLane(a: Record)
    requires a.Routed? && a.pipes == 0x11 && |a.lanes| == 4
    ensures Meaning(a) == [LaneCopy(a, a.lanes[0])]
  {
    assert Active(0x11, 0);
    assert !Active(0x11, 1) && !Active(0x11, 2) && !Active(0x11, 3);
    LanesStop(a, 1, 4);
  }

  lemma HalfTurns(r: RotateInfo, t: Turn)
    requires Asks(r, t) && r.fmt == ROTATE_180 && !Fast(t)
    ensures TurnsPixels(t, HalfDesc(r))
  {
    Sizes(r, t);
    WholePixels(r.dstX, r.pixel, t.w);
    LineSides(t, HalfDesc(r).src, HalfDesc(r).dst);
  }

  // Four bytes per line, written to the mirrored places of each group.
  lemma FourSides(t: Turn, src: Side, dst: Side)
    requires TurnFits(t) && Fast(t)
    requires src.tmp && src.base == 0 && src.pitch == TileX(1) && src.xs == t.w && src.ys == t.h && src.zs == 1
    requires dst.tmp && dst.xs == 4 && dst.ys == t.w / 4 && dst.zs == t.h
    requires dst.base == Wrap(Turned4(t).base) && dst.pitch == Wrap(Turned4(t).col) && dst.slab == Wrap(Turned4(t).row)
    ensures Streams(src, First4(t), t.h, t.w / 4, 4) && Streams(dst, Turned4(t), t.h, t.w / 4, 4)
  {
    FoursFit(t);
    HalvesFit(1);
    WithinSpace(First4(t), t.h, t.w / 4, 4, MEMORY, MEMORY + Half(1));
    WithinSpace(Turned4(t), t.h, t.w / 4, 4, MEMORY + Half(1), MEMORY + 2 * Half(1));
    StreamsRows(src, First4(t), t.h, t.w / 4, 4);
    StreamsPixels(dst, Turned4(t), t.h, t.w / 4, 4);
  }

  lemma FastTurns(r: RotateInfo, t: Turn)
    requires Asks(r, t) && Fast(t)
    ensures TurnsFours(t, HalfDesc(r))
  {
    Sizes(r, t);
    WholePixels(r.dstX, 4, t.w / 4);
    FourSides(t, HalfDesc(r).src, HalfDesc(r).dst);
  }

  lemma TurnMeans(r: RotateInfo, t: Turn) returns (d: Desc)
    requires Asks(r, t)
    ensures Meaning(TurnRecord(r)) == [d]
    ensures TurnsPixels(t, d) || (Fast(t) && TurnsFours(t, d))
  {
    if r.fmt == ROTATE_90 {
      d := DescOf(Rotate90Record(r).t);
      Turns90(r, t);
    } else if r.fmt == ROTATE_270 {
      d := DescOf(Rotate270Record(r).t);
      Turns270(r, t);
    } else {
      d := HalfDesc(r);
      OneLane(Rotate180Record(r));
      if Fast(t) {
        FastTurns(r, t);
      } else {
        HalfTurns(r, t);
      }
    }
  }

  // Running the three records turns the tile.
  lemma RotateCorrect(r: RotateInfo, t: Turn, s: Store)
    requires Asks(r, t)
    ensures TileTurned(t, s, ExecAll(Meanings(Records(r)), s))
  {
    InCopies(r, t);
    OutCopies(r, t);
    var d := TurnMeans(r, t);
    ThreeMeanings(InRecord(r), TurnRecord(r), OutRecord(r));
    assert Meanings(Records(r)) == [DescOf(InRecord(r).t), d, DescOf(OutRecord(r).t)];
    TurnCorrect(t, Meanings(Records(r)), s);
  }
}
