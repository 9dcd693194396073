// The offsets a list of MVPU infos records for later address patching, and the
// slots its descriptors occupy.
module ReplaceOffsets {
  import opened Words
  import opened DescRecord
  import opened MvpuRecord
  import opened MvpuFill
  import opened SplitFill

  datatype Kind = Direct | Type1 | ColorCvt | Rotate | SplitN | MergeN | Unpack | Swap2 | From565 | Pack

  datatype Info = Info(kind: Kind, fmt: Byte)

  const RGB_8_TO_RGBA_8: Byte := 7

  // Descriptors with one, two and four lanes; lane k keeps its addresses 0x40
  // bytes after those of lane k - 1.
  datatype Shape = Small | Double | Wide

  function Size(s: Shape): nat {
    if s.Small? then 64 else if s.Double? then 128 else 256
  }

  // ----- what an info turns into -----

  predicate Rotates(fmt: Byte) {
    90 <= fmt <= 92
  }

  // The descriptors EdmaDesGMVPU::fillDesc writes, back to back.
  function Emitted(i: Info): seq<Shape> {
    match i.kind
    case Direct => [Small]
    case Type1 => [Small]
    case ColorCvt => if i.fmt == RGB_8_TO_RGBA_8 then [Small] else [Double]
    case Rotate => if i.fmt == 91 then [Small, Wide, Small] else if Rotates(i.fmt) then [Small, Small, Small] else []
    case SplitN => [Small, Wide, Wide]
    case MergeN => [Wide, Wide, Small]
    case Unpack => [Small]
    case Swap2 => [Wide]
    case From565 => [Wide]
    case Pack => [Wide]
  }

  // edma_queryMVPUDSize.
  function QueryDSize(i: Info): nat {
    match i.kind
    case Direct => 64
    case Type1 => 64
    case ColorCvt => if i.fmt == RGB_8_TO_RGBA_8 then 64 else 128
    case Rotate => 64 * 2 + if i.fmt == 90 || i.fmt == 92 then 64 else if i.fmt == 91 then 256 else 0
    case SplitN => 64 + 256 * 2
    case MergeN => 64 + 256 * 2
    case Unpack => 64
    case Swap2 => 256
    case From565 => 256
    case Pack => 256
  }

  // edma_queryMVPURPNum.
  function QueryRPNum(i: Info): nat {
    match i.kind
    case ColorCvt => 4
    case SplitN => 5
    case MergeN => 5
    case _ => 2
  }

  function Bytes(ss: seq<Shape>): nat {
    if ss == [] then 0 else Size(ss[0]) + Bytes(ss[1..])
  }

  lemma ThreeBytes(a: Shape, b: Shape, c: Shape)
    ensures Bytes([a]) == Size(a) && Bytes([a, b]) == Size(a) + Size(b) && Bytes([a, b, c]) == Size(a) + Size(b) + Size(c)
  {
    assert Bytes([a]) == Size(a) && Bytes([b]) == Size(b) && Bytes([c]) == Size(c);
    assert [a, b][1..] == [b] && [b, c][1..] == [c] && [a, b, c][1..] == [b, c];
    assert Bytes([b, c]) == Size(b) + Size(c);
  }

  // A slot is exactly what its info fills, unless it asks for an unknown turn.
  lemma SlotExact(i: Info)
    ensures Bytes(Emitted(i)) == QueryDSize(i) <==> (i.kind.Rotate? ==> Rotates(i.fmt))
  {
    var e := Emitted(i);
    if |e| == 1 {
      ThreeBytes(e[0], Small, Small);
      assert e == [e[0]];
    } else if |e| == 3 {
      ThreeBytes(e[0], e[1], e[2]);
      assert e == [e[0], e[1], e[2]];
    }
  }

  // Bytes and offsets announced for each kind of info.
  lemma Announced(fmt: Byte)
    ensures QueryDSize(Info(Direct, fmt)) == QueryDSize(Info(Type1, fmt)) == QueryDSize(Info(Unpack, fmt)) == 64
    ensures QueryDSize(Info(ColorCvt, fmt)) == if fmt == 7 then 64 else 128
    ensures QueryDSize(Info(Rotate, fmt)) == if fmt == 90 || fmt == 92 then 192 else if fmt == 91 then 384 else 128
    ensures QueryDSize(Info(SplitN, fmt)) == QueryDSize(Info(MergeN, fmt)) == 576
    ensures QueryDSize(Info(Swap2, fmt)) == QueryDSize(Info(From565, fmt)) == QueryDSize(Info(Pack, fmt)) == 256
    ensures QueryRPNum(Info(ColorCvt, fmt)) == 4 && QueryRPNum(Info(SplitN, fmt)) == QueryRPNum(Info(MergeN, fmt)) == 5
    ensures QueryRPNum(Info(Direct, fmt)) == QueryRPNum(Info(Type1, fmt)) == QueryRPNum(Info(Rotate, fmt)) == 2
    ensures QueryRPNum(Info(Unpack, fmt)) == QueryRPNum(Info(Swap2, fmt)) == QueryRPNum(Info(From565, fmt)) == QueryRPNum(Info(Pack, fmt)) == 2
  {
  }

  // ----- the address fields -----

  // Field `field` of lanes k to n - 1 of the descriptor at offset d.
  function LaneFields(d: nat, field: nat, k: nat, n: nat): (s: seq<nat>)
    ensures |s| == if k < n then n - k else 0
    decreases n - k
  {
    if k >= n then [] else [d + field + 0x40 * k] + LaneFields(d, field, k + 1, n)
  }

  // Both fields of each lane.
  function BothFields(d: nat, k: nat, n: nat): (s: seq<nat>)
    ensures |s| == if k < n then 2 * (n - k) else 0
    decreases n - k
  {
    if k >= n then [] else [d + SRC_FIELD + 0x40 * k, d + DST_FIELD + 0x40 * k] + BothFields(d, k + 1, n)
  }

  // Planes read and planes written.
  function Sources(i: Info): nat {
    if i.kind.MergeN? then 4 else if i.kind.ColorCvt? && i.fmt != RGB_8_TO_RGBA_8 then 2 else 1
  }

  function Sinks(i: Info): nat {
    if i.kind.SplitN? then 4 else if i.kind.ColorCvt? && i.fmt != RGB_8_TO_RGBA_8 then 2 else 1
  }

  predicate Known(i: Info) {
    i.kind.Rotate? ==> Rotates(i.fmt)
  }

  // The memory addresses of an info at offset d: those its first descriptor
  // reads and those its last one writes.
  function Wanted(i: Info, d: nat): seq<nat>
    requires Known(i)
  {
    var e := Emitted(i);
    if |e| == 1 then BothFields(d, 0, Sources(i))
    else LaneFields(d, SRC_FIELD, 0, Sources(i)) + LaneFields(d + Bytes(e[..|e| - 1]), DST_FIELD, 0, Sinks(i))
  }

  // How far fillRPOffset steps over the middle descriptor of a rotation.
  function Step(fmt: Byte): nat {
    if fmt == 90 || fmt == 92 then 0x40 else if fmt == 91 then 0x100 else 0
  }

  // What fillRPOffset records. For a rotation it looks at the format of the
  // first info of the list, not at the info's own.
  function Recorded(first: Byte, i: Info, d: nat): seq<nat> {
    match i.kind
    case ColorCvt => [d + 0x1c, d + 0x20, d + 0x5c, d + 0x60]
    case Rotate => [d + 0x1c, d + 0x40 + Step(first) + 0x20]
    case SplitN => [d + 0x1c, d + 0x140 + 0x20, d + 0x140 + 0x60, d + 0x140 + 0xa0, d + 0x140 + 0xe0]
    case MergeN => [d + 0x1c, d + 0x5c, d + 0x9c, d + 0xdc, d + 0x200 + 0x20]
    case _ => [d + 0x1c, d + 0x20]
  }

  predicate Right(first: Byte, i: Info) {
    && (i.kind.Rotate? ==> Step(first) == Step(i.fmt))
    && (i.kind.ColorCvt? ==> i.fmt != RGB_8_TO_RGBA_8)
  }

  lemma Fields(d: nat, field: nat)
    ensures LaneFields(d, field, 0, 1) == [d + field]
    ensures LaneFields(d, field, 0, 4) == [d + field, d + field + 0x40, d + field + 0x80, d + field + 0xc0]
    ensures BothFields(d, 0, 1) == [d + SRC_FIELD, d + DST_FIELD]
    ensures BothFields(d, 0, 2) == [d + SRC_FIELD, d + DST_FIELD, d + SRC_FIELD + 0x40, d + DST_FIELD + 0x40]
  {
  }

  // The last descriptor of three starts behind the other two.
  lemma WantedThree(i: Info, d: nat)
    requires Known(i) && |Emitted(i)| == 3
    ensures var e := Emitted(i);
            Wanted(i, d) == LaneFields(d, SRC_FIELD, 0, Sources(i)) + LaneFields(d + Size(e[0]) + Size(e[1]), DST_FIELD, 0, Sinks(i))
  {
    var e := Emitted(i);
    assert e[..2] == [e[0], e[1]];
    ThreeBytes(e[0], e[1], e[2]);
  }

  lemma WantedIs(i: Info, d: nat)
    requires Known(i)
    ensures i.kind.Rotate? ==> Wanted(i, d) == [d + 0x1c, d + 0x40 + Step(i.fmt) + 0x20]
    ensures i.kind.SplitN? ==> Wanted(i, d) == [d + 0x1c, d + 0x140 + 0x20, d + 0x140 + 0x60, d + 0x140 + 0xa0, d + 0x140 + 0xe0]
    ensures i.kind.MergeN? ==> Wanted(i, d) == [d + 0x1c, d + 0x5c, d + 0x9c, d + 0xdc, d + 0x200 + 0x20]
    ensures i.kind.ColorCvt? && i.fmt != RGB_8_TO_RGBA_8 ==> Wanted(i, d) == [d + 0x1c, d + 0x20, d + 0x5c, d + 0x60]
    ensures |Emitted(i)| == 1 && Sources(i) == 1 ==> Wanted(i, d) == [d + 0x1c, d + 0x20]
  {
    Fields(d, SRC_FIELD);
    if |Emitted(i)| == 3 {
      var e := Emitted(i);
      WantedThree(i, d);
      Fields(d + Size(e[0]) + Size(e[1]), DST_FIELD);
    }
  }

  lemma RecordedRight(first: Byte, i: Info, d: nat)
    requires Known(i)
    ensures |Recorded(first, i, d)| == QueryRPNum(i)
    ensures |Wanted(i, d)| <= |Recorded(first, i, d)|
    ensures Recorded(first, i, d) == Wanted(i, d) <==> Right(first, i)
  {
    WantedIs(i, d);
    if i.kind.Rotate? && Step(first) != Step(i.fmt) {
      assert Recorded(first, i, d)[1] != Wanted(i, d)[1];
    }
  }

  // What is recorded when it is not what is wanted. A rotation gets the offsets it
  // would have with the first info's format; behind an info that is no rotation
  // the second one is the destination of the middle descriptor. A conversion from
  // RGB to RGBA gets its two fields and two more, of a second lane it has not.
  lemma RecordedAs(first: Byte, i: Info, d: nat)
    ensures i.kind.Rotate? && Rotates(first) ==> Recorded(first, i, d) == Wanted(Info(Rotate, first), d)
    ensures i.kind.Rotate? && !Rotates(first) ==> Recorded(first, i, d) == [d + 0x1c, d + 0x40 + 0x20]
    ensures i.kind.ColorCvt? && i.fmt == RGB_8_TO_RGBA_8 ==>
              Recorded(first, i, d) == Wanted(i, d) + [d + 0x5c, d + 0x60] && Wanted(i, d) == [d + 0x1c, d + 0x20]
  {
    if i.kind.Rotate? && Rotates(first) {
      WantedIs(Info(Rotate, first), d);
    }
    if i.kind.ColorCvt? {
      WantedIs(i, d);
    }
  }

  // ----- a whole list -----

  function RecordedAll(first: Byte, task: seq<Info>, d: nat): seq<nat> {
    if task == [] then [] else Recorded(first, task[0], d) + RecordedAll(first, task[1..], d + QueryDSize(task[0]))
  }

  function WantedAll(task: seq<Info>, d: nat): seq<nat>
    requires forall i :: 0 <= i < |task| ==> Known(task[i])
  {
    if task == [] then [] else Wanted(task[0], d) + WantedAll(task[1..], d + QueryDSize(task[0]))
  }

  // queryReplaceNum.
  function QueryReplaceNum(task: seq<Info>): nat {
    if task == [] then 0 else QueryRPNum(task[0]) + QueryReplaceNum(task[1..])
  }

  lemma {:induction false} WantedShorter(first: Byte, task: seq<Info>, d: nat)
    requires forall i :: 0 <= i < |task| ==> Known(task[i])
    ensures |WantedAll(task, d)| <= |RecordedAll(first, task, d)|
    decreases |task|
  {
    if task == [] {
    } else {
      RecordedRight(first, task[0], d);
      WantedShorter(first, task[1..], d + QueryDSize(task[0]));
    }
  }

  lemma SplitEqual(a: seq<nat>, b: seq<nat>, p: seq<nat>, q: seq<nat>)
    requires |p| <= |a| && |q| <= |b|
    ensures a + b == p + q <==> a == p && b == q
  {
    if a + b == p + q {
      assert |a + b| == |p + q|;
      assert a == (a + b)[..|a|] && p == (p + q)[..|p|];
      assert b == (a + b)[|a|..] && q == (p + q)[|p|..];
    }
  }

  // The recorded offsets are the wanted ones exactly when every rotation turns
  // through a middle descriptor of the size the first info's format suggests and
  // no colour conversion is from RGB to RGBA.
  lemma {:induction false} RecordedExactly(first: Byte, task: seq<Info>, d: nat)
    requires forall i :: 0 <= i < |task| ==> Known(task[i])
    ensures RecordedAll(first, task, d) == WantedAll(task, d) <==> forall i :: 0 <= i < |task| ==> Right(first, task[i])
    decreases |task|
  {
    if task == [] {
    } else {
      var next := d + QueryDSize(task[0]);
      RecordedRight(first, task[0], d);
      RecordedExactly(first, task[1..], next);
      WantedShorter(first, task[1..], next);
      SplitEqual(Recorded(first, task[0], d), RecordedAll(first, task[1..], next), Wanted(task[0], d), WantedAll(task[1..], next));
      assert forall i :: 0 <= i < |task| - 1 ==> task[1..][i] == task[i + 1];
      assert (forall i :: 0 <= i < |task| ==> Right(first, task[i])) <==>
             Right(first, task[0]) && forall i :: 0 <= i < |task| - 1 ==> Right(first, task[1..][i]);
    }
  }

  // A half turn behind a quarter turn: its output address is looked for at
  // 0xa0 of its slot, inside the middle descriptor.
  lemma MixedTurns()
    ensures var task := [Info(Rotate, 90), Info(Rotate, 91)];
            && WantedAll(task, 0) == [0x1c, 0xa0, 0xdc, 0x220]
            && RecordedAll(90, task, 0) == [0x1c, 0xa0, 0xdc, 0x160]
  {
    var a, b := Info(Rotate, 90), Info(Rotate, 91);
    var task := [a, b];
    assert task[1..] == [b] && [b][1..] == [];
    RecordedRight(90, a, 0);
    Fields(192, SRC_FIELD);
    Fields(192 + 64 + 256, DST_FIELD);
    ThreeBytes(Small, Wide, Small);
    assert Emitted(b)[..2] == [Small, Wide];
    assert Wanted(b, 192) == [192 + 0x1c, 192 + 320 + 0x20];
    assert WantedAll([b], 192) == Wanted(b, 192) + WantedAll([], 192 + QueryDSize(b));
    assert RecordedAll(90, [b], 192) == Recorded(90, b, 192) + RecordedAll(90, [], 192 + QueryDSize(b));
  }

  // ----- recording them -----

  method FillRPOffset(first: Byte, i: Info, id: nat, rpOffset: array<nat>, descOffset: nat) returns (next: nat)
    requires id + QueryRPNum(i) <= rpOffset.Length
    modifies rpOffset
    ensures next == id + QueryRPNum(i) == id + |Recorded(first, i, descOffset)|
    ensures forall k :: 0 <= k < rpOffset.Length ==>
              rpOffset[k] == if id <= k < next then Recorded(first, i, descOffset)[k - id] else old(rpOffset[k])
  {
    var d := descOffset;
    next := id;
    rpOffset[next] := d + 0x1c;
    next := next + 1;
    match i.kind {
      case ColorCvt =>
        rpOffset[next], rpOffset[next + 1], rpOffset[next + 2] := d + 0x20, d + 0x5c, d + 0x60;
        next := next + 3;
      case Rotate =>
        d := d + 0x40;
        if first == 90 || first == 92 {
          d := d + 0x40;
        } else if first == 91 {
          d := d + 0x100;
        }
        rpOffset[next] := d + 0x20;
        next := next + 1;
      case SplitN =>
        d := d + 0x40;
        d := d + 0x100;
        rpOffset[next], rpOffset[next + 1], rpOffset[next + 2], rpOffset[next + 3] := d + 0x20, d + 0x60, d + 0xa0, d + 0xe0;
        next := next + 4;
      case MergeN =>
        rpOffset[next], rpOffset[next + 1], rpOffset[next + 2] := d + 0x5c, d + 0x9c, d + 0xdc;
        d := d + 0x100;
        d := d + 0x100;
        rpOffset[next + 3] := d + 0x20;
        next := next + 4;
      case _ =>
        rpOffset[next] := d + 0x20;
        next := next + 1;
    }
  }

  lemma {:induction false} NumbersSnoc(task: seq<Info>, i: Info)
    ensures QueryReplaceNum(task + [i]) == QueryReplaceNum(task) + QueryRPNum(i)
    ensures SlotBytes(task + [i]) == SlotBytes(task) + QueryDSize(i)
    decreases |task|
  {
    if task == [] {
      assert (task + [i])[1..] == [];
    } else {
      assert (task + [i])[0] == task[0] && (task + [i])[1..] == task[1..] + [i];
      NumbersSnoc(task[1..], i);
    }
  }

  lemma {:induction false} RecordedSnoc(first: Byte, task: seq<Info>, i: Info, d: nat, at: nat)
    requires at == d + SlotBytes(task)
    ensures RecordedAll(first, task + [i], d) == RecordedAll(first, task, d) + Recorded(first, i, at)
    decreases |task|
  {
    if task == [] {
      assert (task + [i])[1..] == [];
      RecordedOne(first, i, d);
    } else {
      assert (task + [i])[0] == task[0] && (task + [i])[1..] == task[1..] + [i];
      var next := d + QueryDSize(task[0]);
      RecordedSnoc(first, task[1..], i, next, at);
      Associate(Recorded(first, task[0], d), RecordedAll(first, task[1..], next), Recorded(first, i, at));
    }
  }

  lemma RecordedOne(first: Byte, i: Info, d: nat)
    ensures RecordedAll(first, [i], d) == Recorded(first, i, d)
  {
    var rest := RecordedAll(first, [], d + QueryDSize(i));
    assert [i][1..] == [] && rest == [];
    assert Recorded(first, i, d) + rest == Recorded(first, i, d);
  }

  lemma Associate(a: seq<nat>, b: seq<nat>, c: seq<nat>)
    ensures a + (b + c) == (a + b) + c
  {
  }

  // Where the descriptors of the infos end: what queryTransDescSize adds up.
  function SlotBytes(task: seq<Info>): nat {
    if task == [] then 0 else QueryDSize(task[0]) + SlotBytes(task[1..])
  }

  lemma {:induction false} ReplacePrefix(task: seq<Info>, k: nat)
    requires k <= |task|
    ensures QueryReplaceNum(task[..k]) <= QueryReplaceNum(task)
    decreases |task| - k
  {
    if k < |task| {
      assert task[..k + 1] == task[..k] + [task[k]];
      NumbersSnoc(task[..k], task[k]);
      ReplacePrefix(task, k + 1);
    } else {
      assert task[..k] == task;
    }
  }

  // The filling loop records queryReplaceNum offsets and leaves its descriptor
  // offset at the size queryTransDescSize announced.
  method FillOffsets(task: seq<Info>, rpOffset: array<nat>) returns (count: nat, descOffset: nat)
    requires task != [] && QueryReplaceNum(task) <= rpOffset.Length
    modifies rpOffset
    ensures count == QueryReplaceNum(task) && descOffset == SlotBytes(task)
    ensures rpOffset[..] == RecordedAll(task[0].fmt, task, 0) + old(rpOffset[..])[count..]
  {
    count, descOffset := 0, 0;
    ghost var done: seq<nat> := [];
    var k := 0;
    while k < |task|
      invariant 0 <= k <= |task|
      invariant count == QueryReplaceNum(task[..k]) <= rpOffset.Length && descOffset == SlotBytes(task[..k])
      invariant done == RecordedAll(task[0].fmt, task[..k], 0) && |done| == count
      invariant rpOffset[..] == done + old(rpOffset[..])[count..]
    {
      var j := k + 1;
      Room(task, k, j);
      RecordedSnoc(task[0].fmt, task[..k], task[k], 0, descOffset);
      count, done := Advance(task[0].fmt, task[k], count, rpOffset, descOffset, done, old(rpOffset[..]));
      descOffset := descOffset + QueryDSize(task[k]);
      k := j;
    }
    assert task[..k] == task;
  }

  lemma Room(task: seq<Info>, k: nat, j: nat)
    requires j == k + 1 <= |task|
    ensures task[..j] == task[..k] + [task[k]]
    ensures QueryReplaceNum(task[..j]) == QueryReplaceNum(task[..k]) + QueryRPNum(task[k]) <= QueryReplaceNum(task)
    ensures SlotBytes(task[..j]) == SlotBytes(task[..k]) + QueryDSize(task[k])
  {
    assert task[..j] == task[..k] + [task[k]];
    NumbersSnoc(task[..k], task[k]);
    ReplacePrefix(task, j);
  }

  // One step of the loop, behind what was recorded before it.
  method Advance(first: Byte, i: Info, id: nat, rpOffset: array<nat>, descOffset: nat, ghost done: seq<nat>, ghost was: seq<nat>)
    returns (next: nat, ghost more: seq<nat>)
    requires id + QueryRPNum(i) <= rpOffset.Length == |was| && |done| == id && rpOffset[..] == done + was[id..]
    modifies rpOffset
    ensures next == id + QueryRPNum(i) && |more| == next && more == done + Recorded(first, i, descOffset)
    ensures rpOffset[..] == more + was[next..]
  {
    ghost var before := rpOffset[..];
    next := FillRPOffset(first, i, id, rpOffset, descOffset);
    more := done + Recorded(first, i, descOffset);
    Extended(before, rpOffset[..], done, Recorded(first, i, descOffset), was, next);
  }

  lemma Extended(before: seq<nat>, after: seq<nat>, done: seq<nat>, more: seq<nat>, was: seq<nat>, next: nat)
    requires next == |done| + |more| <= |was| && |after| == |was| && before == done + was[|done|..]
    requires forall k :: 0 <= k < |after| ==> after[k] == if |done| <= k < next then more[k - |done|] else before[k]
    ensures after == (done + more) + was[next..]
  {
  }

  // ----- the requests whose records are modelled -----

  function ShapeOf(r: Record): Shape {
    if r.Plain? then Small else Wide
  }

  function Shapes(rs: seq<Record>): seq<Shape> {
    if rs == [] then [] else [ShapeOf(rs[0])] + Shapes(rs[1..])
  }

  lemma ThreeShapes(a: Record, b: Record, c: Record)
    ensures Shapes([a, b, c]) == [ShapeOf(a), ShapeOf(b), ShapeOf(c)]
  {
    assert [a, b, c][1..] == [b, c] && [b, c][1..] == [c] && [c][1..] == [];
    assert Shapes([c]) == [ShapeOf(c)];
    assert Shapes([b, c]) == [ShapeOf(b), ShapeOf(c)];
  }

  // The addresses to patch are the request's own: the first record reads where
  // the request reads, the last writes where it writes.
  lemma RotateSlot(r: RotateInfo)
    requires Rotates(r.fmt) && 0 < r.pixel
    ensures Shapes(MvpuFill.Records(r)) == Emitted(Info(Rotate, r.fmt))
    ensures MvpuFill.InRecord(r).t.src == r.src && MvpuFill.OutRecord(r).t.dst == r.dst
  {
    ThreeShapes(MvpuFill.InRecord(r), MvpuFill.TurnRecord(r), MvpuFill.OutRecord(r));
  }

  lemma SplitSlot(r: ChannelInfo)
    requires 0 < r.pixel
    ensures Shapes(SplitRecords(r)) == Emitted(Info(SplitN, r.fmt))
    ensures SplitIn(r).t.src == r.image.addr
    ensures forall k :: 0 <= k < 4 ==> SplitOut(r).lanes[k].dst == PlaneAt(r, k).addr
  {
    ThreeShapes(SplitIn(r), SplitMid(r), SplitFill.SplitOut(r));
  }

  lemma MergeSlot(r: ChannelInfo)
    requires 0 < r.pixel
    ensures Shapes(MergeRecords(r)) == Emitted(Info(MergeN, r.fmt))
    ensures forall k :: 0 <= k < 4 ==> MergeIn(r).lanes[k].src == PlaneAt(r, k).addr
    ensures MergeOut(r).t.dst == r.image.addr
  {
    ThreeShapes(MergeIn(r), MergeMid(r), MergeOut(r));
  }
}
