// A rotation request of the standard interface: the call of the generator it
// turns into, and the slot announced for it.
module RotationSlot {
  import opened Words
  import opened Machine
  import opened Descriptor
  import opened RotationGen
  import opened RotationSpec
  import opened Rotation

  const ARGB_8: Byte := 9
  const YUV422_8B: Byte := 29

  datatype Shape = Shape(inFormat: Byte, sizeX: Word, sizeY: Word, src: Word, dst: Word)

  function TileW(s: Shape): Word {
    if s.inFormat == YUV422_8B then 128 else 64
  }

  // The call of edma_gen_rotation the request turns into: the width comes from
  // the byte size of a line for four-byte pixels only.
  function JobOf(s: Shape, angle: Angle, buf: Buffer): Job {
    Job(angle, buf, TileW(s), 64, s.src, s.dst, if s.inFormat == YUV422_8B then 2 else 4,
        if s.inFormat == ARGB_8 then s.sizeX / 4 else s.sizeY, s.sizeY)
  }

  // The image the request means: sizeY lines of sizeX bytes, in whole pixels.
  function PixelBytes(s: Shape): Word {
    if s.inFormat == YUV422_8B then 2 else 4
  }

  function ImageJob(s: Shape, angle: Angle, buf: Buffer): Job {
    Job(angle, buf, TileW(s), 64, s.src, s.dst, PixelBytes(s), s.sizeX / PixelBytes(s), s.sizeY)
  }

  // Any format but ARGB_8 is rotated as a square of sizeY pixels.
  predicate Taken(s: Shape) {
    if s.inFormat == ARGB_8 then s.sizeX % 4 == 0 else s.sizeX == PixelBytes(s) * s.sizeY
  }

  // The generator is called for the image the request means, its lines packed
  // as the request has them, exactly then.
  lemma TakenIff(s: Shape, angle: Angle, buf: Buffer)
    ensures JobOf(s, angle, buf) == ImageJob(s, angle, buf) && JobOf(s, angle, buf).c * JobOf(s, angle, buf).w == s.sizeX <==> Taken(s)
  {
  }

  const ROTATE_180: Byte := 91
  const ROTATE_270: Byte := 92

  function AngleOf(outFormat: Byte): Angle {
    if outFormat == ROTATE_180 then 2 else if outFormat == ROTATE_270 then 3 else 1
  }

  // Tiles go through TCM, or through the internal buffer if built that way.
  function BufferOf(internal: bool): Buffer {
    if internal then Buffer(false, 0) else Buffer(true, 0x1d00_0000)
  }

  // The type field, and the user fields below it, of the first word.
  function Typed(w: Word, iommu: bool): Word {
    w / 0x100 * 0x100 + if iommu then 0xaf else 0x0f
  }

  lemma TypedLow(w: Word, iommu: bool)
    ensures Typed(w, iommu) % 16 == 15
    ensures Typed(w, iommu) / 16 % 4 == Typed(w, iommu) / 64 % 4 == if iommu then 2 else 0
  {
    LowByte(w / 0x100, if iommu then 0xaf else 0x0f);
  }

  lemma LowByte(q: nat, low: nat)
    requires low < 0x100
    ensures (q * 0x100 + low) % 16 == low % 16
    ensures (q * 0x100 + low) / 16 % 4 == low / 16 % 4 && (q * 0x100 + low) / 64 % 4 == low / 64 % 4
  {
    assert (q * 0x100 + low) / 16 == q * 16 + low / 16;
    assert (q * 0x100 + low) / 64 == q * 4 + low / 64;
  }

  lemma TypedFrame(ws: seq<Word>, us: seq<Word>, w: Word)
    requires Frame(ws) && ws[0] % 16 == 15 == w % 16 && us == ws[0 := w]
    ensures Frame(us) && FrameLength(us) == FrameLength(ws) && Decode(us) == Decode(ws)
  {
  }

  lemma TypedKeeps(ws: seq<Word>, p: seq<Desc>, iommu: bool)
    requires Reads(ws, p) && p != [] && ws[0] % 16 == 15
    ensures Reads(ws[0 := Typed(ws[0], iommu)], p)
  {
    var w := Typed(ws[0], iommu);
    TypedLow(ws[0], iommu);
    TypedFrame(ws, ws[0 := w], w);
    assert ws[0 := w][FrameLength(ws)..] == ws[FrameLength(ws)..];
  }

  // The fields of the first word, set once more: the program stays what it was.
  method Retype(iommu: bool, desList: array<Word>, ghost n: nat, ghost p: seq<Desc>)
    requires 0 < n <= desList.Length && desList[0] % 16 == 15
    modifies desList
    ensures old(Reads(desList[..n], p)) && p != [] ==> DecodeAll(desList[..n]) == p
    ensures forall k :: n <= k < desList.Length ==> desList[k] == old(desList[k])
    ensures desList[0] % 16 == 15 && desList[0] / 16 % 4 == desList[0] / 64 % 4 == if iommu then 2 else 0
    ensures old(desList[0]) < 0x100 ==> desList[..] == old(desList[..])[0 := if iommu then 0xaf else 0x0f]
  {
    TypedLow(desList[0], iommu);
    ghost var ws := desList[..n];
    desList[0] := Typed(desList[0], iommu);
    assert desList[..n] == ws[0 := Typed(ws[0], iommu)];
    if Reads(ws, p) && p != [] {
      TypedKeeps(ws, p, iommu);
      ReadsDecodes(desList[..n], p);
    }
  }

  // The rotation branch of the standard fill: what is left in the list rotates
  // the image of the generator's job, which is the request's own when it is taken.
  method FillRotation(iommu: bool, internal: bool, s: Shape, outFormat: Byte, desList: array<Word>)
    requires JobOf(s, AngleOf(outFormat), BufferOf(internal)).Sized()
    requires 80 * JobOf(s, AngleOf(outFormat), BufferOf(internal)).Tiles() <= desList.Length
    modifies desList
    ensures var job := Job(if outFormat == 91 then 2 else if outFormat == 92 then 3 else 1,
                           if internal then Buffer(false, 0) else Buffer(true, 0x1d00_0000),
                           if s.inFormat == 29 then 128 else 64, 64, s.src, s.dst, if s.inFormat == 29 then 2 else 4,
                           if s.inFormat == 9 then s.sizeX / 4 else s.sizeY, s.sizeY);
            && (forall k :: 80 * job.Tiles() <= k < desList.Length ==> desList[k] == old(desList[k]))
            && (job.Ok() ==> Rotates(job, DecodeAll(desList[..80 * job.Tiles()])))
            && (job.Ok() && Taken(s) ==> Rotates(job.(w := s.sizeX / job.c), DecodeAll(desList[..80 * job.Tiles()])))
    // The type, and the user fields above it, in every tile.
    ensures TagsHold(iommu, if s.inFormat == 29 then 2 else 4, desList[..], JobOf(s, AngleOf(outFormat), BufferOf(internal)).Tiles())
    ensures desList.Length > 0 && desList[0] % 16 == 15
    ensures desList[0] / 16 % 4 == desList[0] / 64 % 4 == if iommu then 2 else 0
  {
    var angle, buf := AngleOf(outFormat), BufferOf(internal);
    var width := if s.inFormat == ARGB_8 then s.sizeX / 4 else s.sizeY;
    var job := Job(angle, buf, TileW(s), 64, s.src, s.dst, if s.inFormat == YUV422_8B then 2 else 4, width, s.sizeY);
    EdmaGenRotation(iommu, job, desList);
    TakenIff(s, angle, buf);
    ghost var n := 80 * job.Tiles();
    ghost var before := desList[..];
    Retype(iommu, desList, n, DecodeAll(desList[..n]));
    assert desList[..] == before;
  }

  // edma_rotate_descNum: both dimensions from sizeY.
  function DescNum(s: Shape): Word {
    Wrap((Wrap(s.sizeY - 1) / TileW(s) + 1) * (Wrap(s.sizeY - 1) / 64 + 1))
  }

  // Bytes of the slot, and bytes the generator fills.
  function SlotBytes(s: Shape): nat {
    320 * DescNum(s)
  }

  function FilledBytes(job: Job): nat
    requires job.Sized()
  {
    320 * job.Tiles()
  }

  lemma Announced(s: Shape, x: nat, y: nat)
    requires 0 < s.sizeY && x == Quot(s.sizeY - 1, TileW(s)) + 1 && y == Quot(s.sizeY - 1, 64) + 1
    requires x * y < 0x1_0000_0000
    ensures DescNum(s) == x * y
  {
    WrapSmall(s.sizeY - 1);
    WrapSmall(x * y);
  }

  lemma Grow(x: nat, y: nat, k: nat)
    requires 0 < k
    ensures 320 * (k * x) <= 320 * (k * y) <==> x <= y
    ensures 320 * (k * x) == 320 * (k * y) <==> x == y
  {
    if x < y {
      MulLe(x + 1, y, k);
    } else if y < x {
      MulLe(y + 1, x, k);
    }
  }

  // Tile columns of a height taken for a width.
  lemma SquareTiles(s: Shape, y: nat) returns (x: nat)
    requires 0 < s.sizeY && y == Quot(s.sizeY - 1, 64) + 1 && y * y < 0x1_0000_0000
    ensures x == Quot(s.sizeY - 1, TileW(s)) + 1 && DescNum(s) == x * y == y * x
  {
    x := Quot(s.sizeY - 1, TileW(s)) + 1;
    MulLe(x, y, y);
    Announced(s, x, y);
  }

  // The generator stays in its slot exactly when the image has no more tile
  // columns than tile rows, and fills it exactly when it has as many; formats
  // other than four-byte pixels take their width from the height and always do.
  lemma SlotHolds(s: Shape, angle: Angle, buf: Buffer)
    requires JobOf(s, angle, buf).Sized() && (Quot(s.sizeY - 1, 64) + 1) * (Quot(s.sizeY - 1, 64) + 1) < 0x1_0000_0000
    ensures var job := JobOf(s, angle, buf);
            && (FilledBytes(job) <= SlotBytes(s) <==> (s.inFormat == ARGB_8 ==> job.XTiles() <= job.YTiles()))
            && (FilledBytes(job) == SlotBytes(s) <==> (s.inFormat == ARGB_8 ==> job.XTiles() == job.YTiles()))
    ensures SlotBytes(s) == 320 * ((Quot(s.sizeY - 1, if s.inFormat == 29 then 128 else 64) + 1) * (Quot(s.sizeY - 1, 64) + 1))
  {
    var job := JobOf(s, angle, buf);
    var x := SquareTiles(s, job.YTiles());
    Grow(job.XTiles(), x, job.YTiles());
  }

  // 512 by 64 pixels of four bytes: eight tiles in a slot for one.
  lemma WideImage(angle: Angle, buf: Buffer)
    ensures var s := Shape(ARGB_8, 2048, 64, 0, 0x10_0000);
            FilledBytes(JobOf(s, angle, buf)) == 8 * SlotBytes(s)
  {
  }
}
