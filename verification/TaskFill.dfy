// Filling a whole list of MVPU requests: each gets the slot its size was
// announced with, and a reader goes through them descriptor by descriptor.
module TaskFill {
  import opened Machine
  import opened MvpuRecord
  import opened ReplaceOffsets
  import MvpuFill
  import SplitFill

  datatype Request = Turn(turn: MvpuFill.RotateInfo) | Split(channels: SplitFill.ChannelInfo) | Merge(channels: SplitFill.ChannelInfo)

  // The source divides by these.
  predicate Fillable(q: Request) {
    match q
    case Turn(r) => 0 < r.pixel
    case Split(r) => SplitFill.Channels(r.fmt, SplitFill.SPLIT_2) <= r.pixel
    case Merge(r) => 0 < r.pixel
  }

  predicate AllFillable(qs: seq<Request>) {
    forall i :: 0 <= i < |qs| ==> Fillable(qs[i])
  }

  function InfoOf(q: Request): Info {
    match q
    case Turn(r) => Info(Rotate, r.fmt)
    case Split(r) => Info(SplitN, r.fmt)
    case Merge(r) => Info(MergeN, r.fmt)
  }

  // The records of one request.
  function Emit(q: Request): (rs: seq<Record>)
    requires Fillable(q)
    ensures |rs| <= 3
  {
    match q
    case Turn(r) => if MvpuFill.Supported(r.fmt) then MvpuFill.Records(r) else []
    case Split(r) => SplitFill.SplitRecords(r)
    case Merge(r) => SplitFill.MergeRecords(r)
  }

  lemma EmitSlot(q: Request)
    requires Fillable(q)
    ensures Shapes(Emit(q)) == Emitted(InfoOf(q))
  {
    match q
    case Turn(r) =>
      if MvpuFill.Supported(r.fmt) {
        RotateSlot(r);
      }
    case Split(r) => SplitSlot(r);
    case Merge(r) => MergeSlot(r);
  }

  // ----- where the records are -----

  // Back to back from byte d on, as a reader takes them.
  function Walk(rs: seq<Record>, d: nat): (ps: seq<(nat, Record)>)
    ensures |ps| == |rs|
  {
    if rs == [] then [] else [(d, rs[0])] + Walk(rs[1..], d + Size(ShapeOf(rs[0])))
  }

  function EmitAll(qs: seq<Request>): seq<Record>
    requires AllFillable(qs)
  {
    if qs == [] then [] else Emit(qs[0]) + EmitAll(qs[1..])
  }

  // Where the fill puts them: each request in the slot behind the slots before.
  function Placed(qs: seq<Request>, d: nat): seq<(nat, Record)>
    requires AllFillable(qs)
  {
    if qs == [] then [] else Walk(Emit(qs[0]), d) + Placed(qs[1..], d + QueryDSize(InfoOf(qs[0])))
  }

  function Infos(qs: seq<Request>): (infos: seq<Info>)
    ensures |infos| == |qs|
  {
    seq(|qs|, i requires 0 <= i < |qs| => InfoOf(qs[i]))
  }

  function RecordBytes(rs: seq<Record>): nat {
    Bytes(Shapes(rs))
  }

  predicate AllKnown(qs: seq<Request>) {
    forall i :: 0 <= i < |qs| ==> Known(InfoOf(qs[i]))
  }

  lemma {:induction false} WalkConcat(a: seq<Record>, b: seq<Record>, d: nat)
    ensures Walk(a + b, d) == Walk(a, d) + Walk(b, d + RecordBytes(a))
    ensures RecordBytes(a + b) == RecordBytes(a) + RecordBytes(b)
    decreases |a|
  {
    if a == [] {
      assert a + b == b;
    } else {
      var x, more := a[0], a[1..];
      var next := d + Size(ShapeOf(x));
      WalkConcat(more, b, next);
      assert a == [x] + more && a + b == [x] + (more + b);
      WalkCons(x, more, d, next);
      WalkCons(x, more + b, d, next);
    }
  }

  lemma WalkCons(x: Record, rs: seq<Record>, d: nat, next: nat)
    requires next == d + Size(ShapeOf(x))
    ensures Walk([x] + rs, d) == [(d, x)] + Walk(rs, next) && RecordBytes([x] + rs) == Size(ShapeOf(x)) + RecordBytes(rs)
  {
    assert ([x] + rs)[1..] == rs;
    ShapesCons([x] + rs);
  }

  lemma ShapesCons(rs: seq<Record>)
    requires rs != []
    ensures RecordBytes(rs) == Size(ShapeOf(rs[0])) + RecordBytes(rs[1..])
  {
    assert Shapes(rs)[1..] == Shapes(rs[1..]);
  }

  // A request leaves part of its slot empty only if it asks for an unknown turn.
  lemma SlotFilled(q: Request)
    requires Fillable(q)
    ensures RecordBytes(Emit(q)) <= QueryDSize(InfoOf(q))
    ensures RecordBytes(Emit(q)) == QueryDSize(InfoOf(q)) <==> Known(InfoOf(q))
  {
    EmitSlot(q);
    SlotExact(InfoOf(q));
  }

  lemma {:induction false} TaskBytes(qs: seq<Request>)
    requires AllFillable(qs)
    ensures RecordBytes(EmitAll(qs)) <= SlotBytes(Infos(qs))
    ensures RecordBytes(EmitAll(qs)) == SlotBytes(Infos(qs)) <==> AllKnown(qs)
    decreases |qs|
  {
    if qs == [] {
    } else {
      SlotFilled(qs[0]);
      TaskBytes(qs[1..]);
      WalkConcat(Emit(qs[0]), EmitAll(qs[1..]), 0);
      assert Infos(qs)[1..] == Infos(qs[1..]);
      KnownCons(qs);
    }
  }

  lemma KnownCons(qs: seq<Request>)
    requires qs != []
    ensures AllKnown(qs) <==> Known(InfoOf(qs[0])) && AllKnown(qs[1..])
  {
    assert forall i :: 0 <= i < |qs| - 1 ==> qs[1..][i] == qs[i + 1];
    if AllKnown(qs[1..]) && Known(InfoOf(qs[0])) {
      forall i | 0 <= i < |qs|
        ensures Known(InfoOf(qs[i]))
      {
        if i > 0 {
          assert Known(InfoOf(qs[1..][i - 1]));
        }
      }
    }
  }

  lemma {:induction false} PlacedWalks(qs: seq<Request>, d: nat)
    requires AllFillable(qs) && AllKnown(qs)
    ensures Placed(qs, d) == Walk(EmitAll(qs), d)
    decreases |qs|
  {
    if qs == [] {
    } else {
      KnownCons(qs);
      SlotFilled(qs[0]);
      PlacedWalks(qs[1..], d + QueryDSize(InfoOf(qs[0])));
      WalkConcat(Emit(qs[0]), EmitAll(qs[1..]), d);
    }
  }

  // A reader that goes from descriptor to descriptor finds every record where it
  // was put and stops at the announced size, exactly when no request asks for an
  // unknown turn.
  lemma TaskFramed(qs: seq<Request>)
    requires AllFillable(qs)
    ensures Placed(qs, 0) == Walk(EmitAll(qs), 0) && RecordBytes(EmitAll(qs)) == SlotBytes(Infos(qs)) <==> AllKnown(qs)
  {
    TaskBytes(qs);
    if AllKnown(qs) {
      PlacedWalks(qs, 0);
    }
  }

  // ----- running the list -----

  // One request after the other.
  function RunAll(qs: seq<Request>, s: Store): Store
    requires AllFillable(qs)
  {
    if qs == [] then s else RunAll(qs[1..], ExecAll(Meanings(Emit(qs[0])), s))
  }

  lemma {:induction false} MeaningsConcat(a: seq<Record>, b: seq<Record>)
    ensures Meanings(a + b) == Meanings(a) + Meanings(b)
    decreases |a|
  {
    if a == [] {
      assert a + b == b && Meanings(a) + Meanings(b) == Meanings(b);
    } else {
      assert (a + b)[0] == a[0] && (a + b)[1..] == a[1..] + b;
      MeaningsConcat(a[1..], b);
      Regroup(Meaning(a[0]), Meanings(a[1..]), Meanings(b));
    }
  }

  lemma {:induction false} TaskRuns(qs: seq<Request>, s: Store)
    requires AllFillable(qs)
    ensures ExecAll(Meanings(EmitAll(qs)), s) == RunAll(qs, s)
    decreases |qs|
  {
    if qs == [] {
    } else {
      MeaningsConcat(Emit(qs[0]), EmitAll(qs[1..]));
      ExecAllConcat(Meanings(Emit(qs[0])), Meanings(EmitAll(qs[1..])), s);
      TaskRuns(qs[1..], ExecAll(Meanings(Emit(qs[0])), s));
    }
  }

  // ----- filling it -----

  // EdmaDesGMVPU::fillDesc, for record `at` of the list on.
  method FillOne(q: Request, descs: array<Record>, at: nat)
    requires Fillable(q) && at + 3 <= descs.Length
    modifies descs
    ensures descs[..] == old(descs[..at]) + Emit(q) + old(descs[at + |Emit(q)|..])
  {
    match q {
      case Turn(r) => MvpuFill.FillDesc(r, descs, at);
      case Split(r) => SplitFill.FillDescSplit(r, descs, at);
      case Merge(r) => SplitFill.FillDescMerge(r, descs, at);
    }
  }

  lemma {:induction false} EmitSnoc(qs: seq<Request>, q: Request)
    requires AllFillable(qs) && Fillable(q)
    ensures AllFillable(qs + [q]) && EmitAll(qs + [q]) == EmitAll(qs) + Emit(q)
    decreases |qs|
  {
    if qs == [] {
      assert qs + [q] == [q] && [q][1..] == [];
      assert EmitAll([q]) == Emit(q) + EmitAll([]);
    } else {
      assert (qs + [q])[0] == qs[0] && (qs + [q])[1..] == qs[1..] + [q];
      EmitSnoc(qs[1..], q);
    }
  }

  // After request k, j being k + 1.
  lemma Next(qs: seq<Request>, k: nat, j: nat)
    requires AllFillable(qs) && j == k + 1 <= |qs|
    ensures EmitAll(qs[..j]) == EmitAll(qs[..k]) + Emit(qs[k])
    ensures SlotBytes(Infos(qs[..j])) == SlotBytes(Infos(qs[..k])) + QueryDSize(InfoOf(qs[k]))
  {
    assert qs[..j] == qs[..k] + [qs[k]];
    EmitSnoc(qs[..k], qs[k]);
    assert Infos(qs[..j]) == Infos(qs[..k]) + [InfoOf(qs[k])];
    NumbersSnoc(Infos(qs[..k]), InfoOf(qs[k]));
  }

  // The filling loop: the records of the whole list, in order, while the
  // descriptor pointer moves from slot to slot to the announced size.
  method FillTask(qs: seq<Request>, descs: array<Record>) returns (at: nat, desc: nat)
    requires AllFillable(qs) && 3 * |qs| <= descs.Length
    modifies descs
    ensures at == |EmitAll(qs)| <= descs.Length && desc == SlotBytes(Infos(qs))
    ensures descs[..] == EmitAll(qs) + old(descs[..])[at..]
  {
    at, desc := 0, 0;
    var k := 0;
    while k < |qs|
      invariant 0 <= k <= |qs|
      invariant at == |EmitAll(qs[..k])| <= 3 * k && desc == SlotBytes(Infos(qs[..k]))
      invariant descs[..] == EmitAll(qs[..k]) + old(descs[..])[at..]
    {
      var j := k + 1;
      Next(qs, k, j);
      at := FillNext(qs[k], descs, at, EmitAll(qs[..k]), old(descs[..]));
      desc := desc + QueryDSize(InfoOf(qs[k]));
      k := j;
    }
    assert qs[..k] == qs;
  }

  // One turn of the loop, behind the records done.
  method FillNext(q: Request, descs: array<Record>, at: nat, ghost done: seq<Record>, ghost was: seq<Record>) returns (next: nat)
    requires Fillable(q) && at + 3 <= descs.Length == |was| && at == |done| && descs[..] == done + was[at..]
    modifies descs
    ensures next == at + |Emit(q)| && descs[..] == (done + Emit(q)) + was[next..]
  {
    FillOne(q, descs, at);
    next := at + RecordCount(q);
    assert (done + was[at..])[..at] == done;
    assert (done + was[at..])[next..] == was[next..];
  }

  // Three for a known request, none for an unknown turn.
  function RecordCount(q: Request): (n: nat)
    requires Fillable(q)
    ensures n == |Emit(q)|
  {
    if q.Turn? && !MvpuFill.Supported(q.turn.fmt) then 0 else 3
  }
}
