// fillDescPad: the descriptors of one padding request, written in place, and
// the address fields it records for later patching.
module PadFill {
  import opened Words
  import opened Machine
  import opened DescRecord
  import opened PadSpec
  import opened PadEdge
  import opened PadConstant

  const CONSTANT_PADDING: Byte := 0
  const EDGE_PADDING: Byte := 1

  // EdmaMemoryBindings: byte offsets of address fields, and for each the address
  // within its object.
  class Bindings {
    var offsets: seq<nat>
    var inObject: seq<nat>

    constructor ()
      ensures Valid() && offsets == [] && inObject == []
    {
      offsets, inObject := [], [];
    }

    predicate Valid()
      reads this
    {
      |offsets| == |inObject|
    }

    method AppendNormal(offset: nat, address: Word)
      requires Valid()
      modifies this
      ensures Valid() && offsets == old(offsets) + [offset] && inObject == old(inObject) + [address]
    {
      offsets := offsets + [offset];
      inObject := inObject + [address];
    }
  }

  // ----- the descriptors of each mode -----

  function StartOf(p: PadInfo): Word {
    Wrap(p.top * p.dstStrideX + p.left)
  }

  function InPitch(p: PadInfo): Word {
    Wrap(p.srcStrideX * p.elem)
  }

  function OutPitch(p: PadInfo): Word {
    Wrap(p.dstStrideX * p.elem)
  }

  // Bytes of an output row, and output rows, in their 16-bit fields.
  function OutWide(p: PadInfo): nat {
    Field16(Wrap(p.W()) * p.elem)
  }

  function OutHigh(p: PadInfo): nat {
    Field16(Wrap(p.H()))
  }

  // Both modes copy the image to the middle of the output.
  function Middle(p: PadInfo, id: nat, atomic: nat): Type0 {
    var xs := Field16(p.sx * p.elem);
    Type0(2, id % 0x100, 0, 1, atomic, false, false, 0,
          p.src, Wrap(p.dst + StartOf(p) * p.elem), InPitch(p), OutPitch(p),
          Wrap(InPitch(p) * p.srcStrideY), Wrap(OutPitch(p) * p.dstStrideY),
          xs, xs, Field16(p.sy), Field16(p.sy), 1, 1)
  }

  function Background(p: PadInfo): Type0 {
    Type0(2, p.descId, 1, 1, 0, false, false, FillWord(p.elem, p.constant),
          0, p.dst, 0, OutPitch(p), 0, Wrap(OutPitch(p) * p.dstStrideY),
          0, OutWide(p), 0, OutHigh(p), 0, 1)
  }

  // A side without padding moves one byte inside the internal buffer instead.
  function OrIdle(t: Type0, n: Word): Type0 {
    if n == 0 then Type0(t.user, t.id, t.format, t.safe, t.atomic, true, true, t.fill, t.src, t.dst, t.srcX, t.dstX, t.srcY, t.dstY,
                      1, 1, 1, 1, 1, 1)
    else t
  }

  function ColumnOf(id: nat, src: Word, dst: Word, pitch: Word, elem: Byte, high: nat, n: Word): Type0 {
    OrIdle(Type0(2, id % 0x100, 0, 1, 1, false, false, 0, src, dst, pitch, pitch, 0, elem, elem, elem, high, high, Field16(n), Field16(n)), n)
  }

  function RowOf(id: nat, atomic: nat, src: Word, dst: Word, pitch: Word, wide: nat, n: Word): Type0 {
    OrIdle(Type0(2, id % 0x100, 0, 1, atomic, false, false, 0, src, dst, 1, 1, 0, pitch, wide, wide, 1, 1, Field16(n), Field16(n)), n)
  }

  function ColumnSide(p: PadInfo, id: nat, src: Word, dst: Word, n: Word): Type0 {
    ColumnOf(id, src, dst, OutPitch(p), p.elem, OutHigh(p), n)
  }

  function RowSide(p: PadInfo, id: nat, atomic: nat, src: Word, dst: Word, n: Word): Type0 {
    RowOf(id, atomic, src, dst, OutPitch(p), OutWide(p), n)
  }

  // Address of output column x, and of output row y.
  function ColumnAddr(p: PadInfo, x: int): Word {
    Wrap(p.dst + x * p.elem)
  }

  function RowAddr(p: PadInfo, y: int): Word {
    Wrap(p.dst + y * p.Row())
  }

  function LeftOf(p: PadInfo): Type0 {
    ColumnSide(p, p.descId + 1, ColumnAddr(p, p.left), p.dst, p.left)
  }

  function RightOf(p: PadInfo): Type0 {
    ColumnSide(p, p.descId + 2, ColumnAddr(p, p.left + p.sx - 1), ColumnAddr(p, p.left + p.sx), p.right)
  }

  function TopOf(p: PadInfo): Type0 {
    RowSide(p, p.descId + 3, 1, RowAddr(p, p.top), p.dst, p.top)
  }

  function BottomOf(p: PadInfo): Type0 {
    RowSide(p, p.descId + 4, 0, RowAddr(p, p.top + p.sy - 1), RowAddr(p, p.top + p.sy), p.bottom)
  }

  function Records(p: PadInfo): seq<Type0> {
    if p.mode == CONSTANT_PADDING then [Background(p), Middle(p, p.descId + 1, 0)]
    else if p.mode == EDGE_PADDING then [Middle(p, p.descId, 1), LeftOf(p), RightOf(p), TopOf(p), BottomOf(p)]
    else []
  }

  // ----- what the records mean -----

  lemma SmallOut(p: PadInfo)
    requires Fits(p)
    ensures OutWide(p) == p.elem * p.W() && OutHigh(p) == p.H()
  {
    MulLe(1, p.elem, p.W());
    WideField(p.W(), p.elem, p.W() * p.elem);
    WrapSmall(p.H());
    SmallField(p.H());
  }

  lemma SmallIn(p: PadInfo)
    requires Fits(p)
    ensures Field16(p.sx * p.elem) == p.elem * p.sx && Field16(p.sy) == p.sy
  {
    MulLe(p.sx, p.W(), p.elem);
    SmallSize(p.sx, p.elem, p.sx * p.elem);
    SmallField(p.sy);
  }

  lemma SmallSides(p: PadInfo)
    requires Fits(p)
    ensures Field16(p.left) == p.left && Field16(p.right) == p.right && Field16(p.top) == p.top && Field16(p.bottom) == p.bottom
  {
    SidesSmall(p);
  }

  lemma WideField(w: nat, e: Byte, wide: nat)
    requires wide == w * e < 0x1_0000 && w < 0x1_0000
    ensures Field16(Wrap(w) * e) == e * w
  {
    WrapSmall(w);
    SmallField(wide);
  }

  lemma SmallSize(n: nat, e: Byte, bytes: nat)
    requires bytes == n * e < 0x1_0000
    ensures Field16(n * e) == e * n
  {
    SmallField(bytes);
  }

  lemma WrapScaled(a: int, b: int, k: int)
    ensures Wrap(a + Wrap(b) * k) == Wrap(a + b * k)
  {
    var q := b / 0x1_0000_0000;
    assert Wrap(b) == b - q * 0x1_0000_0000;
    assert (b - q * 0x1_0000_0000) * k == b * k + (-(q * k)) * 0x1_0000_0000;
    WrapShift(a + b * k, -(q * k));
  }

  lemma MiddleReads(p: PadInfo, id: nat, atomic: nat)
    requires Fits(p)
    ensures Streams(DescOf(Middle(p, id, atomic)).src, p.In(), p.sy, p.sx, p.elem)
  {
    SmallOut(p);
    SmallIn(p);
    SmallSides(p);
    FitsLaid(p);
    WrapSmall(p.src);
    StreamsRows(DescOf(Middle(p, id, atomic)).src, p.In(), p.sy, p.sx, p.elem);
  }

  lemma MiddleBase(p: PadInfo)
    ensures Wrap(p.dst + StartOf(p) * p.elem) == Wrap(Inner(p).base)
  {
    WrapScaled(p.dst, p.top * p.dstStrideX + p.left, p.elem);
  }

  lemma InnerSide(p: PadInfo, d: Side, g: Grid, wide: nat)
    requires Laid(p) && g == Inner(p) && wide == p.elem * p.sx && !d.tmp
    requires d.base == Wrap(g.base) && d.pitch == Wrap(g.row) && d.xs == wide && d.ys == p.sy && d.zs == 1
    ensures Streams(d, g, p.sy, p.sx, p.elem)
  {
    InnerIn(p);
    StreamsRows(d, g, p.sy, p.sx, p.elem);
  }

  lemma MiddleWrites(p: PadInfo, id: nat, atomic: nat)
    requires Fits(p)
    ensures Streams(DescOf(Middle(p, id, atomic)).dst, Inner(p), p.sy, p.sx, p.elem)
  {
    SmallOut(p);
    SmallIn(p);
    SmallSides(p);
    FitsLaid(p);
    MiddleBase(p);
    InnerSide(p, DescOf(Middle(p, id, atomic)).dst, Inner(p), p.elem * p.sx);
  }

  lemma MiddleCopies(p: PadInfo, id: nat, atomic: nat)
    requires Fits(p)
    ensures CopiesInner(p, DescOf(Middle(p, id, atomic)))
  {
    MiddleReads(p, id, atomic);
    MiddleWrites(p, id, atomic);
  }

  lemma BackgroundFills(p: PadInfo)
    requires Fits(p)
    ensures Streams(DescOf(Background(p)).dst, p.Out(), p.H(), p.W(), p.elem)
  {
    SmallOut(p);
    SmallIn(p);
    SmallSides(p);
    FitsLaid(p);
    WrapSmall(p.dst);
    StreamsRows(DescOf(Background(p)).dst, p.Out(), p.H(), p.W(), p.elem);
  }

  lemma ColumnSideIs(p: PadInfo, id: nat, j: nat, k: nat, n: Word)
    requires OutHigh(p) == p.H() && 0 < n && Field16(n) == n
    ensures DescOf(ColumnSide(p, id, ColumnAddr(p, j), ColumnAddr(p, k), n)) == Columns(p, j, k, n)
  {
  }

  lemma RowSideIs(p: PadInfo, id: nat, atomic: nat, j: nat, k: nat, n: Word)
    requires OutWide(p) == p.W() * p.elem && 0 < n && Field16(n) == n
    ensures DescOf(RowSide(p, id, atomic, RowAddr(p, j), RowAddr(p, k), n)) == Rows(p, j, k, n)
  {
  }

  lemma ColumnSideCopies(p: PadInfo, id: nat, j: nat, k: nat, n: Word, src: Word, dst: Word)
    requires Fits(p) && src == ColumnAddr(p, j) && dst == ColumnAddr(p, k) && n < 0x1_0000
    requires j < p.W() && k + n <= p.W() && (n == 0 || j < k || k + n <= j)
    ensures ColumnStage(p, DescOf(ColumnSide(p, id, src, dst, n)), j, k, n)
  {
    if n > 0 {
      SmallOut(p);
      SmallIn(p);
      SmallSides(p);
      SmallField(n);
      FitsLaid(p);
      ColumnsCopy(p, j, k, n);
      ColumnSideIs(p, id, j, k, n);
    }
  }

  lemma RowSideCopies(p: PadInfo, id: nat, atomic: nat, j: nat, k: nat, n: Word, src: Word, dst: Word)
    requires Fits(p) && src == RowAddr(p, j) && dst == RowAddr(p, k) && n < 0x1_0000
    requires j < p.H() && k + n <= p.H() && (n == 0 || j < k || k + n <= j)
    ensures RowStage(p, DescOf(RowSide(p, id, atomic, src, dst, n)), j, k, n)
  {
    if n > 0 {
      SmallOut(p);
      SmallIn(p);
      SmallSides(p);
      SmallField(n);
      FitsLaid(p);
      RowsCopy(p, j, k, n);
      RowSideIs(p, id, atomic, j, k, n);
    }
  }

  lemma FirstAddr(p: PadInfo)
    ensures ColumnAddr(p, 0) == p.dst == RowAddr(p, 0)
  {
    assert 0 * p.elem == 0 && 0 * p.Row() == 0;
    WrapSmall(p.dst);
  }

  lemma SidesSmall(p: PadInfo)
    requires Fits(p)
    ensures p.left < 0x1_0000 && p.right < 0x1_0000 && p.top < 0x1_0000 && p.bottom < 0x1_0000
  {
    MulLe(1, p.elem, p.W());
  }

  lemma EdgeColumns(p: PadInfo)
    requires Fits(p)
    ensures ColumnStage(p, DescOf(LeftOf(p)), p.left, 0, p.left)
    ensures ColumnStage(p, DescOf(RightOf(p)), p.left + p.sx - 1, p.left + p.sx, p.right)
  {
    FirstAddr(p);
    SidesSmall(p);
    ColumnSideCopies(p, p.descId + 1, p.left, 0, p.left, ColumnAddr(p, p.left), p.dst);
    ColumnSideCopies(p, p.descId + 2, p.left + p.sx - 1, p.left + p.sx, p.right, ColumnAddr(p, p.left + p.sx - 1), ColumnAddr(p, p.left + p.sx));
  }

  lemma EdgeRows(p: PadInfo)
    requires Fits(p)
    ensures RowStage(p, DescOf(TopOf(p)), p.top, 0, p.top)
    ensures RowStage(p, DescOf(BottomOf(p)), p.top + p.sy - 1, p.top + p.sy, p.bottom)
  {
    FirstAddr(p);
    SidesSmall(p);
    RowSideCopies(p, p.descId + 3, 1, p.top, 0, p.top, RowAddr(p, p.top), p.dst);
    RowSideCopies(p, p.descId + 4, 0, p.top + p.sy - 1, p.top + p.sy, p.bottom, RowAddr(p, p.top + p.sy - 1), RowAddr(p, p.top + p.sy));
  }

  lemma ProgramFive(a: Type0, b: Type0, c: Type0, d: Type0, e: Type0)
    ensures Program([a, b, c, d, e]) == [DescOf(a), DescOf(b), DescOf(c), DescOf(d), DescOf(e)]
  {
    var ts := [a, b, c, d, e];
    ProgramAt(ts, 0);
    ProgramAt(ts, 1);
    ProgramAt(ts, 2);
    ProgramAt(ts, 3);
    ProgramAt(ts, 4);
  }

  lemma EdgeFive(p: PadInfo, a: Type0, b: Type0, c: Type0, d: Type0, e: Type0)
    requires 0 < p.sx && 0 < p.sy && CopiesInner(p, DescOf(a))
    requires ColumnStage(p, DescOf(b), p.left, 0, p.left)
    requires ColumnStage(p, DescOf(c), p.left + p.sx - 1, p.left + p.sx, p.right)
    requires RowStage(p, DescOf(d), p.top, 0, p.top)
    requires RowStage(p, DescOf(e), p.top + p.sy - 1, p.top + p.sy, p.bottom)
    ensures EdgeProgram(p, Program([a, b, c, d, e]))
  {
    ProgramFive(a, b, c, d, e);
  }

  lemma EdgeRecords(p: PadInfo)
    requires Fits(p) && p.mode == EDGE_PADDING
    ensures EdgeProgram(p, Program(Records(p)))
  {
    MiddleCopies(p, p.descId, 1);
    EdgeColumns(p);
    EdgeRows(p);
    EdgeFive(p, Middle(p, p.descId, 1), LeftOf(p), RightOf(p), TopOf(p), BottomOf(p));
  }

  lemma ConstantRecords(p: PadInfo)
    requires Fits(p) && p.mode == CONSTANT_PADDING
    ensures ConstantProgram(p, Program(Records(p)))
  {
    var ts := Records(p);
    ProgramAt(ts, 0);
    ProgramAt(ts, 1);
    MiddleCopies(p, p.descId + 1, 0);
    BackgroundFills(p);
  }

  // Running what fillDescPad wrote pads the image, in either mode.
  lemma PadCorrect(p: PadInfo, s: Store)
    requires Fits(p)
    ensures p.mode == 1 ==> EdgePadded(p, s, ExecAll(Program(Records(p)), s))
    ensures p.mode == 0 && BorderAligned(p) ==> ConstantPadded(p, s, ExecAll(Program(Records(p)), s))
  {
    FitsLaid(p);
    if p.mode == EDGE_PADDING {
      EdgeRecords(p);
      EdgeCorrect(p, Program(Records(p)), s);
    } else if p.mode == CONSTANT_PADDING && BorderAligned(p) {
      ConstantRecords(p);
      ConstantCorrect(p, Program(Records(p)), s);
    }
  }

  // The request with another constant.
  function Constant(p: PadInfo, c: Word): PadInfo {
    p.(constant := c)
  }

  ghost predicate Pads(p: PadInfo, s: Store) {
    ConstantPadded(p, s, ExecAll(Program(Records(p)), s))
  }

  lemma MisalignedFails(p: PadInfo, s: Store)
    requires Fits(p) && p.mode == CONSTANT_PADDING && !BorderAligned(p) && p.constant == 0x0302_0100
    ensures !Pads(p, s)
  {
    FitsLaid(p);
    ConstantRecords(p);
    ConstantFails(p, Program(Records(p)), s);
  }

  // A request pads with every constant, whatever memory holds, exactly when its
  // elements have one or two bytes or every border pixel starts at a multiple of
  // four bytes from the first.
  lemma ConstantExact(p: PadInfo)
    requires Fits(p) && p.mode == CONSTANT_PADDING
    ensures (forall c: Word, s: Store :: Pads(Constant(p, c), s)) <==> BorderAligned(p)
  {
    if BorderAligned(p) {
      forall c: Word, s: Store
        ensures Pads(Constant(p, c), s)
      {
        assert BorderAligned(Constant(p, c)) by {
          SameBorder(p, Constant(p, c));
        }
        PadCorrect(Constant(p, c), s);
      }
    } else {
      var c: Word, zero: Store := 0x0302_0100, seq(CELLS, i => 0);
      SameBorder(p, Constant(p, c));
      MisalignedFails(Constant(p, c), zero);
    }
  }

  lemma SameBorder(p: PadInfo, q: PadInfo)
    requires q == p.(constant := q.constant)
    ensures BorderAligned(q) <==> BorderAligned(p)
  {
    forall y: nat, x: nat
      ensures Aligned(q, y, x) == Aligned(p, y, x) && InImage(q, y, x) == InImage(p, y, x)
    {
    }
  }

  // One three-byte pixel with one more to its right: that starts at byte 3.
  function ThreeByteRequest(): PadInfo {
    PadInfo(CONSTANT_PADDING, 0, 3, 1, 1, 0, 1, 0, 0, 1, 1, 2, 1, 0, 0, 0x100)
  }

  lemma ThreeByteFits(p: PadInfo)
    requires p == ThreeByteRequest()
    ensures Fits(p) && p.mode == CONSTANT_PADDING
  {
    OneRowFits(p, 2, 6, 3);
  }

  lemma OneRowFits(p: PadInfo, w: nat, out: nat, inp: nat)
    requires p.sy == 1 && p.top == 0 == p.bottom && 0 < p.elem && 0 < p.sx && w == p.W() && out == p.elem * w && inp == p.elem * p.sx
    requires out < 0x1_0000 && w <= p.dstStrideX && p.dst + out <= MEMORY && p.src + inp <= MEMORY
    requires p.dst + out <= p.src || p.src + inp <= p.dst
    ensures Fits(p)
  {
    assert p.H() == 1 && p.OutEnd() == p.dst + out && p.InEnd() == p.src + inp;
    assert w * p.elem == out;
  }

  lemma ThreeByteBorder(p: PadInfo)
    requires p == ThreeByteRequest()
    ensures !BorderAligned(p)
  {
    assert !InImage(p, 0, 1);
    assert !Aligned(p, 0, 1);
  }

  lemma ThreeBytes(p: PadInfo)
    requires p == ThreeByteRequest()
    ensures Fits(p) && p.mode == CONSTANT_PADDING && !forall c: Word, s: Store :: Pads(Constant(p, c), s)
  {
    ThreeByteFits(p);
    ThreeByteBorder(p);
    ConstantExact(p);
  }

  // ----- filling -----

  // The fields recorded for a request whose records start at slot `at`: their
  // byte offsets from the head of the list, and the addresses they hold.
  function Offset(at: nat, k: nat, field: nat): nat {
    (at + k) * 64 + field
  }

  function InOffsets(p: PadInfo, at: nat): seq<nat> {
    if p.mode == CONSTANT_PADDING then [Offset(at, 1, SRC_FIELD)]
    else if p.mode == EDGE_PADDING then
      [Offset(at, 0, SRC_FIELD), Offset(at, 1, SRC_FIELD), Offset(at, 2, SRC_FIELD), Offset(at, 3, SRC_FIELD), Offset(at, 4, SRC_FIELD)]
    else []
  }

  function InAddrs(p: PadInfo): seq<Word> {
    var ts := Records(p);
    if p.mode == CONSTANT_PADDING then [ts[1].src]
    else if p.mode == EDGE_PADDING then [ts[0].src, ts[1].src, ts[2].src, ts[3].src, ts[4].src]
    else []
  }

  function OutOffsets(p: PadInfo, at: nat): seq<nat> {
    if p.mode == CONSTANT_PADDING then [Offset(at, 0, DST_FIELD), Offset(at, 1, DST_FIELD)]
    else if p.mode == EDGE_PADDING then
      [Offset(at, 0, DST_FIELD), Offset(at, 1, DST_FIELD), Offset(at, 2, DST_FIELD), Offset(at, 3, DST_FIELD), Offset(at, 4, DST_FIELD)]
    else []
  }

  function OutAddrs(p: PadInfo): seq<Word> {
    var ts := Records(p);
    if p.mode == CONSTANT_PADDING then [ts[0].dst, ts[1].dst]
    else if p.mode == EDGE_PADDING then [ts[0].dst, ts[1].dst, ts[2].dst, ts[3].dst, ts[4].dst]
    else []
  }

  method WriteMiddle(descs: array<Type0>, k: nat, p: PadInfo, id: nat, atomic: nat)
    requires k < descs.Length
    modifies descs
    ensures descs[..] == old(descs[..])[k := Middle(p, id, atomic)]
  {
    var start := Wrap(p.top * p.dstStrideX + p.left);
    var inPitch, outPitch := Wrap(p.srcStrideX * p.elem), Wrap(p.dstStrideX * p.elem);
    var xs := Field16(p.sx * p.elem);
    descs[k] := Type0(2, id % 0x100, 0, 1, atomic, false, false, 0,
                      p.src, Wrap(p.dst + start * p.elem), inPitch, outPitch,
                      Wrap(inPitch * p.srcStrideY), Wrap(outPitch * p.dstStrideY),
                      xs, xs, Field16(p.sy), Field16(p.sy), 1, 1);
  }

  // A side with nothing to cover is turned into an idle descriptor.
  method WriteSide(descs: array<Type0>, k: nat, t: Type0, n: Word)
    requires k < descs.Length
    modifies descs
    ensures descs[..] == old(descs[..])[k := OrIdle(t, n)]
  {
    descs[k] := t;
    if n == 0 {
      descs[k] := Type0(t.user, t.id, t.format, t.safe, t.atomic, true, true, t.fill, t.src, t.dst, t.srcX, t.dstX, t.srcY, t.dstY,
                        1, 1, 1, 1, 1, 1);
    }
  }

  method WriteColumn(descs: array<Type0>, k: nat, p: PadInfo, id: nat, src: Word, dst: Word, n: Word)
    requires k < descs.Length
    modifies descs
    ensures descs[..] == old(descs[..])[k := ColumnSide(p, id, src, dst, n)]
  {
    var pitch, high := Wrap(p.dstStrideX * p.elem), Field16(Wrap(p.sy + p.top + p.bottom));
    WriteSide(descs, k, Type0(2, id % 0x100, 0, 1, 1, false, false, 0, src, dst, pitch, pitch, 0, p.elem,
                              p.elem, p.elem, high, high, Field16(n), Field16(n)), n);
  }

  method WriteRow(descs: array<Type0>, k: nat, p: PadInfo, id: nat, atomic: nat, src: Word, dst: Word, n: Word)
    requires k < descs.Length
    modifies descs
    ensures descs[..] == old(descs[..])[k := RowSide(p, id, atomic, src, dst, n)]
  {
    var pitch, wide := Wrap(p.dstStrideX * p.elem), Field16(Wrap(p.sx + p.left + p.right) * p.elem);
    WriteSide(descs, k, Type0(2, id % 0x100, 0, 1, atomic, false, false, 0, src, dst, 1, 1, 0, pitch,
                              wide, wide, 1, 1, Field16(n), Field16(n)), n);
  }

  method WriteBackground(descs: array<Type0>, k: nat, p: PadInfo)
    requires k < descs.Length
    modifies descs
    ensures descs[..] == old(descs[..])[k := Background(p)]
  {
    var pitch := Wrap(p.dstStrideX * p.elem);
    descs[k] := Type0(2, p.descId, 1, 1, 0, false, false, FillWord(p.elem, p.constant), 0, p.dst, 0, pitch, 0,
                      Wrap(pitch * p.dstStrideY), 0, Field16(Wrap(p.sx + p.left + p.right) * p.elem), 0,
                      Field16(Wrap(p.sy + p.top + p.bottom)), 0, 1);
  }

  // Both lists, or neither.
  method Record(ins: Bindings?, outs: Bindings?, at: nat, k: nat, t: Type0)
    requires ins != null && outs != null ==> ins.Valid() && outs.Valid() && ins != outs
    modifies ins, outs
    ensures ins != null && outs != null ==>
              && ins.Valid() && ins.offsets == old(ins.offsets) + [Offset(at, k, SRC_FIELD)] && ins.inObject == old(ins.inObject) + [t.src]
              && outs.Valid() && outs.offsets == old(outs.offsets) + [Offset(at, k, DST_FIELD)] && outs.inObject == old(outs.inObject) + [t.dst]
    ensures ins == null || outs == null ==> (ins != null ==> unchanged(ins)) && (outs != null ==> unchanged(outs))
  {
    if ins != null && outs != null {
      ins.AppendNormal(Offset(at, k, SRC_FIELD), t.src);
      outs.AppendNormal(Offset(at, k, DST_FIELD), t.dst);
    }
  }

  // The lists grew by these.
  twostate predicate Grew(b: Bindings, offsets: seq<nat>, addrs: seq<Word>)
    reads b
  {
    b.Valid() && b.offsets == old(b.offsets) + offsets && b.inObject == old(b.inObject) + addrs
  }

  method FillConstant(descs: array<Type0>, at: nat, p: PadInfo, ins: Bindings?, outs: Bindings?)
    requires p.mode == CONSTANT_PADDING && at + 2 <= descs.Length
    requires ins != null && outs != null ==> ins.Valid() && outs.Valid() && ins != outs
    modifies descs, ins, outs
    ensures descs[..] == old(descs[..at]) + Records(p) + old(descs[at + 2..])
    ensures ins != null && outs != null ==> Grew(ins, InOffsets(p, at), InAddrs(p)) && Grew(outs, OutOffsets(p, at), OutAddrs(p))
    ensures ins == null || outs == null ==> (ins != null ==> unchanged(ins)) && (outs != null ==> unchanged(outs))
  {
    WriteBackground(descs, at, p);
    if ins != null && outs != null {
      outs.AppendNormal(Offset(at, 0, DST_FIELD), descs[at].dst);
    }
    WriteMiddle(descs, at + 1, p, p.descId + 1, 0);
    Record(ins, outs, at, 1, descs[at + 1]);
  }

  // Write one side and record its two fields.
  method FillColumn(descs: array<Type0>, at: nat, k: nat, p: PadInfo, id: nat, src: Word, dst: Word, n: Word, ins: Bindings?, outs: Bindings?)
    requires at + k < descs.Length
    requires ins != null && outs != null ==> ins.Valid() && outs.Valid() && ins != outs
    modifies descs, ins, outs
    ensures descs[..] == old(descs[..])[at + k := ColumnSide(p, id, src, dst, n)]
    ensures ins != null && outs != null ==> Grew(ins, [Offset(at, k, SRC_FIELD)], [src]) && Grew(outs, [Offset(at, k, DST_FIELD)], [dst])
    ensures ins == null || outs == null ==> (ins != null ==> unchanged(ins)) && (outs != null ==> unchanged(outs))
  {
    WriteColumn(descs, at + k, p, id, src, dst, n);
    Record(ins, outs, at, k, descs[at + k]);
  }

  method FillRow(descs: array<Type0>, at: nat, k: nat, p: PadInfo, id: nat, atomic: nat, src: Word, dst: Word, n: Word,
                 ins: Bindings?, outs: Bindings?)
    requires at + k < descs.Length
    requires ins != null && outs != null ==> ins.Valid() && outs.Valid() && ins != outs
    modifies descs, ins, outs
    ensures descs[..] == old(descs[..])[at + k := RowSide(p, id, atomic, src, dst, n)]
    ensures ins != null && outs != null ==> Grew(ins, [Offset(at, k, SRC_FIELD)], [src]) && Grew(outs, [Offset(at, k, DST_FIELD)], [dst])
    ensures ins == null || outs == null ==> (ins != null ==> unchanged(ins)) && (outs != null ==> unchanged(outs))
  {
    WriteRow(descs, at + k, p, id, atomic, src, dst, n);
    Record(ins, outs, at, k, descs[at + k]);
  }

  method FillColumns(descs: array<Type0>, at: nat, p: PadInfo, ins: Bindings?, outs: Bindings?)
    requires at + 3 <= descs.Length
    requires ins != null && outs != null ==> ins.Valid() && outs.Valid() && ins != outs
    modifies descs, ins, outs
    ensures descs[..] == old(descs[..])[at + 1 := LeftOf(p)][at + 2 := RightOf(p)]
    ensures ins != null && outs != null ==>
              && Grew(ins, [Offset(at, 1, SRC_FIELD), Offset(at, 2, SRC_FIELD)], [LeftOf(p).src, RightOf(p).src])
              && Grew(outs, [Offset(at, 1, DST_FIELD), Offset(at, 2, DST_FIELD)], [LeftOf(p).dst, RightOf(p).dst])
    ensures ins == null || outs == null ==> (ins != null ==> unchanged(ins)) && (outs != null ==> unchanged(outs))
  {
    FillColumn(descs, at, 1, p, p.descId + 1, ColumnAddr(p, p.left), p.dst, p.left, ins, outs);
    FillColumn(descs, at, 2, p, p.descId + 2, ColumnAddr(p, p.left + p.sx - 1), ColumnAddr(p, p.left + p.sx), p.right, ins, outs);
  }

  method FillRows(descs: array<Type0>, at: nat, p: PadInfo, ins: Bindings?, outs: Bindings?)
    requires at + 5 <= descs.Length
    requires ins != null && outs != null ==> ins.Valid() && outs.Valid() && ins != outs
    modifies descs, ins, outs
    ensures descs[..] == old(descs[..])[at + 3 := TopOf(p)][at + 4 := BottomOf(p)]
    ensures ins != null && outs != null ==>
              && Grew(ins, [Offset(at, 3, SRC_FIELD), Offset(at, 4, SRC_FIELD)], [TopOf(p).src, BottomOf(p).src])
              && Grew(outs, [Offset(at, 3, DST_FIELD), Offset(at, 4, DST_FIELD)], [TopOf(p).dst, BottomOf(p).dst])
    ensures ins == null || outs == null ==> (ins != null ==> unchanged(ins)) && (outs != null ==> unchanged(outs))
  {
    FillRow(descs, at, 3, p, p.descId + 3, 1, RowAddr(p, p.top), p.dst, p.top, ins, outs);
    FillRow(descs, at, 4, p, p.descId + 4, 0, RowAddr(p, p.top + p.sy - 1), RowAddr(p, p.top + p.sy), p.bottom, ins, outs);
  }

  lemma FiveUpdates(s: seq<Type0>, at: nat, a: Type0, b: Type0, c: Type0, d: Type0, e: Type0)
    requires at + 5 <= |s|
    ensures s[at := a][at + 1 := b][at + 2 := c][at + 3 := d][at + 4 := e] == s[..at] + [a, b, c, d, e] + s[at + 5..]
  {
  }

  method FillEdge(descs: array<Type0>, at: nat, p: PadInfo, ins: Bindings?, outs: Bindings?)
    requires p.mode == EDGE_PADDING && at + 5 <= descs.Length
    requires ins != null && outs != null ==> ins.Valid() && outs.Valid() && ins != outs
    modifies descs, ins, outs
    ensures descs[..] == old(descs[..at]) + Records(p) + old(descs[at + 5..])
    ensures ins != null && outs != null ==> Grew(ins, InOffsets(p, at), InAddrs(p)) && Grew(outs, OutOffsets(p, at), OutAddrs(p))
    ensures ins == null || outs == null ==> (ins != null ==> unchanged(ins)) && (outs != null ==> unchanged(outs))
  {
    WriteMiddle(descs, at, p, p.descId, 1);
    Record(ins, outs, at, 0, descs[at]);
    FillColumns(descs, at, p, ins, outs);
    FillRows(descs, at, p, ins, outs);
    FiveUpdates(old(descs[..]), at, Middle(p, p.descId, 1), LeftOf(p), RightOf(p), TopOf(p), BottomOf(p));
  }

  // The slot is the number of records edma_queryPadDNum announces.
  function QueryPadDNum(mode: Byte): (n: nat) {
    if mode == CONSTANT_PADDING then 2 else if mode == EDGE_PADDING then 5 else 0
  }

  method FillDescPad(p: PadInfo, descs: array<Type0>, at: nat, ins: Bindings?, outs: Bindings?) returns (ret: int)
    requires at + QueryPadDNum(p.mode) <= descs.Length
    requires ins != null && outs != null ==> ins.Valid() && outs.Valid() && ins != outs
    modifies descs, ins, outs
    ensures ret == if p.mode == 0 || p.mode == 1 then 0 else -1
    ensures descs[..] == old(descs[..at]) + Records(p) + old(descs[at + QueryPadDNum(p.mode)..])
    ensures ins != null && outs != null ==> Grew(ins, InOffsets(p, at), InAddrs(p)) && Grew(outs, OutOffsets(p, at), OutAddrs(p))
    ensures ins == null || outs == null ==> (ins != null ==> unchanged(ins)) && (outs != null ==> unchanged(outs))
  {
    if p.mode == CONSTANT_PADDING {
      FillConstant(descs, at, p, ins, outs);
    } else if p.mode == EDGE_PADDING {
      FillEdge(descs, at, p, ins, outs);
    } else {
      return -1;
    }
    ret := 0;
  }
}
