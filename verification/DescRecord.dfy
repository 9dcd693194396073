// Type 0 descriptors as records of fields, and the programs they stand for.
module DescRecord {
  import opened Words
  import opened Machine

  // Byte offsets of the two address fields of lane 0.
  const SRC_FIELD: nat := 0x1c
  const DST_FIELD: nat := 0x20

  // One type 0 descriptor; fields no generator here sets are left out.
  datatype Type0 = Type0(
    user: nat, id: nat, format: nat, safe: nat, atomic: nat, readTmp: bool, writeTmp: bool, fill: Word,
    src: Word, dst: Word, srcX: Word, dstX: Word, srcY: Word, dstY: Word,
    srcXs: nat, dstXs: nat, srcYs: nat, dstYs: nat, srcZs: nat, dstZs: nat)

  // What the hardware makes of it.
  function DescOf(t: Type0): Desc {
    var dst := Side(t.writeTmp, t.dst, t.dstX, t.dstY, t.dstXs, t.dstYs, t.dstZs);
    if t.format == 1 then Fill(t.fill, dst)
    else Copy(Side(t.readTmp, t.src, t.srcX, t.srcY, t.srcXs, t.srcYs, t.srcZs), dst, false)
  }

  function Program(ts: seq<Type0>): (q: seq<Desc>)
    ensures |q| == |ts|
  {
    if ts == [] then [] else [DescOf(ts[0])] + Program(ts[1..])
  }

  lemma {:induction false} ProgramAt(ts: seq<Type0>, i: nat)
    requires i < |ts|
    ensures Program(ts)[i] == DescOf(ts[i])
  {
    if i == 0 {
    } else {
      ProgramAt(ts[1..], i - 1);
    }
  }
}
