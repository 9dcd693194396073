// The APUSYS 1.0 command object: a sub-command list changed in place and the
// buffer built from it.
module ApusysCmd {
  import opened Options
  import opened Words
  import opened CmdGraph
  import opened CmdHistory
  import opened CmdLayout
  import opened CmdRoundTrip
  import opened CmdBuffer
  import opened SubCommand
  import opened CmdWriter
  import opened CmdLinks
  import opened CmdBuild
  import opened CmdFence
  import opened CmdTune
  import opened CmdContext

  // An index, the -1 of a refused call, or an exception out of vector::at.
  datatype Outcome = Index(idx: nat) | Refused | Threw

  const PRIORITY_NORMAL: Byte := 20

  // ----- MDLA sub-commands -----

  lemma {:induction false} MdlaCountSame(g: Graph, h: Graph)
    requires |g| == |h| && forall i :: 0 <= i < |g| ==> g[i].dev == h[i].dev
    ensures MdlaCount(g) == MdlaCount(h)
  {
    if g == [] {
    } else {
      MdlaCountSame(g[..|g| - 1], h[..|h| - 1]);
    }
  }

  // mTypeCmdNum.at(dev)++, where there is such an entry.
  function OneMore(typeNum: seq<nat>, dev: nat): seq<nat> {
    if dev < |typeNum| then typeNum[dev := typeNum[dev] + 1] else typeNum
  }

  function IsMdla(dev: nat): nat {
    if dev == DEVICE_MDLA then 1 else 0
  }

  // What constructCmd did: its return value, or bytes written past the buffer.
  datatype Construction = Built | Failed | Overran

  // Each call counts the device of the sub-command it appends.
  lemma StepMdla(st: State, op: Op)
    requires ListsInRange(st.g) && !Throws(st, op)
    ensures MdlaCount(Step(st, op).g)
         == MdlaCount(st.g) + if Appends(op) && !Rejected(st, op) then IsMdla(op.dev) else 0
  {
    var base := Base(st, op);
    StepLength(st, op);
    forall i: nat | i < |base|
      ensures Step(st, op).g[i].dev == base[i].dev
    {
      StepFields(st, op, i);
    }
    MdlaCountSame(Step(st, op).g, base);
    MdlaCountSame(st.g, base[..|st.g|]);
    if |base| == |st.g| {
      assert base[..|st.g|] == base;
    }
  }

  // What a call that appends one sub-command does to the rest of the state.
  ghost predicate Follows(st: State, next: State, g: Graph, dev: nat) {
    next.g == g && MdlaCount(g) == MdlaCount(st.g) + IsMdla(dev)
  }

  ghost predicate CopyFits(g: Graph, t: nat, base: Graph)
    requires t < |g|
  {
    |base| == |g| + 1 && Indices(g[t].pred, |base|) && Indices(g[t].succ, |g|) && Indices(g[t].succ, |base|)
  }

  // The list addSubCmd leaves behind, whether it throws or not: the new node, and
  // links to it up to the first bad index.
  function Pushed(g: Graph, node: Node): Graph {
    if node.dev < DEVICE_MAX then Added(g, node) else g + [node]
  }

  // vector::at is given a device type or a dependency that is not there; the new
  // sub-command itself is.
  lemma ThrowsIff(st: State, op: Op)
    requires op.Add?
    ensures Throws(st, op) <==> op.dev >= 6 || exists k :: 0 <= k < |op.dep| && !(0 <= op.dep[k] <= |st.g|)
  {
    if !AllIn(op.dep, |st.g| + 1) {
      var v :| v in op.dep && !(0 <= v < |st.g| + 1);
      var k :| 0 <= k < |op.dep| && op.dep[k] == v;
    } else {
      assert forall k :: 0 <= k < |op.dep| ==> op.dep[k] in op.dep;
    }
  }

  // A call that does not throw makes the new index a successor of each
  // dependency, as often as that is named, and of no other sub-command.
  lemma PushedSuccs(g: Graph, node: Node, i: nat, u: int)
    requires node.dev < 6 && (forall k :: 0 <= k < |node.pred| ==> 0 <= node.pred[k] <= |g|) && node.succ == [] && i <= |g|
    ensures multiset(Pushed(g, node)[i].succ)[u]
         == multiset(if i < |g| then g[i].succ else [])[u] + if u == |g| then multiset(node.pred)[i] else 0
  {
    var n := |node.pred|;
    AddEffect(g, node);
    assert node.pred[..n] == node.pred;
    SuccsExtendedAt(g + [node], Pushed(g, node), node.pred, n, |g|, i);
  }

  // What addSubCmd leaves: the new sub-command with the caller's fields, no pack
  // and no tuning, and no other field but successor lists changed.
  lemma PushedNode(g: Graph, dep: seq<int>, dev: nat, ctx: Word, fd: int, size: Word)
    ensures var left := Pushed(g, NewNode(dep, dev, ctx, fd, size));
            && |left| == |g| + 1
            && left[|g|] == Node(dev, dep, left[|g|].succ, 0, ctx, Tune(0xFF, 0, 0, 0, false), fd, size)
            && (forall i :: 0 <= i < |g| ==> left[i] == g[i].(succ := left[i].succ))
            && (dev >= 6 ==> left[..|g|] == g && left[|g|].succ == [])
  {
    LinkEffect(g + [NewNode(dep, dev, ctx, fd, size)], dep, GoodPrefix(dep, |g| + 1), |g|);
  }

  lemma AppendEffect(ops: seq<Op>, st: State, op: Op, list: Graph) returns (next: State)
    requires Run(ops) == Some(st) && op.Add? && list == Pushed(st.g, NewNode(op.dep, op.dev, op.ctx, op.fd, op.size))
    ensures |list| == |st.g| + 1
    ensures !Throws(st, op) ==> Run(ops + [op]) == Some(next) && next == State(list, st.packNum, st.depBytes + (1 + |op.dep|) * 4)
    ensures !Throws(st, op) ==> MdlaCount(list) == MdlaCount(st.g) + IsMdla(op.dev)
  {
    next := st;
    if !Throws(st, op) {
      RunPush(ops, st, op);
      StepMdla(st, op);
      next := Step(st, op);
    }
  }

  lemma TuneEffect(ops: seq<Op>, st: State, i: nat, tune: Tune) returns (next: State)
    requires Run(ops) == Some(st) && i < |st.g|
    ensures TuneOk(tune) ==> Run(ops + [SetTune(i, tune)]) == Some(next)
    ensures TuneOk(tune) ==> next == State(Tuned(st.g, i, tune), st.packNum, st.depBytes) && MdlaCount(next.g) == MdlaCount(st.g)
  {
    var op := SetTune(i, tune);
    RunPush(ops, st, op);
    StepMdla(st, op);
    next := Step(st, op);
  }

  lemma CtxEffect(ops: seq<Op>, st: State, i: nat, ctx: Word) returns (next: State)
    requires Run(ops) == Some(st) && i < |st.g|
    ensures Run(ops + [SetCtx(i, ctx)]) == Some(next)
    ensures next == State(st.g[i := st.g[i].(ctx := ctx)], st.packNum, st.depBytes) && MdlaCount(next.g) == MdlaCount(st.g)
  {
    var op := SetCtx(i, ctx);
    RunPush(ops, st, op);
    StepMdla(st, op);
    next := Step(st, op);
  }

  // base is the list with the target numbered and its copy pushed.
  lemma PackEffects(ops: seq<Op>, st: State, t: nat, fd: int, size: Word, base: Graph) returns (next: State)
    requires Run(ops) == Some(st) && t < |st.g| && base == PackBase(st.g, t, st.packNum, fd, size)
    ensures TuneOk(st.g[t].tune) && st.g[t].dev < DEVICE_MAX && CopyFits(st.g, t, base)
    ensures Run(ops + [Pack(t, st.g[t].dev, fd, size)]) == Some(next)
    ensures next.packNum == if st.g[t].pack == 0 then st.packNum + 1 else st.packNum
    ensures Follows(st, next, CopyLinked(base, st.g[t].pred, st.g[t].succ, |st.g|), st.g[t].dev)
    ensures next.depBytes == st.depBytes + (1 + |st.g[t].pred|) * 4 + 4 * |st.g[t].succ|
    ensures CopyOf(st.g, next.g, st.packNum, t, Mem(fd, size))
  {
    var op := Pack(t, st.g[t].dev, fd, size);
    HistoryInvariant(ops);
    InRange(st.g, t);
    next := Step(st, op);
    RunPush(ops, st, op);
    StepMdla(st, op);
    CopiedNode(st.g, t, st.packNum, Mem(fd, size), base);
  }

  // all is g with a copy of sub-command t, its lists included, over the caller's
  // memory and in the pack of t, which is new if t had none. No other field but
  // predecessor and successor lists has changed.
  ghost predicate CopyOf(g: Graph, all: Graph, packNum: nat, t: nat, mem: Mem)
    requires t < |g|
  {
    var id := if g[t].pack == 0 then packNum + 1 else g[t].pack;
    && |all| == |g| + 1 && all[|g|] == g[t].(pack := id, fd := mem.fd, size := mem.size)
    && forall i :: 0 <= i < |g| ==> all[i] == g[i].(pack := if i == t then id else g[i].pack, pred := all[i].pred, succ := all[i].succ)
  }

  lemma CopiedNode(g: Graph, t: nat, packNum: nat, mem: Mem, base: Graph)
    requires t < |g| && base == PackBase(g, t, packNum, mem.fd, mem.size) && CopyFits(g, t, base) && Indices(g[t].pred, |g|)
    ensures CopyOf(g, CopyLinked(base, g[t].pred, g[t].succ, |g|), packNum, t, mem)
  {
    var h := LinkPreds(base, g[t].succ, |g[t].succ|, |g|);
    LinkPredsOthers(base, g[t].succ, |g[t].succ|, |g|, |g|);
    LinkSuccsOthers(h, g[t].pred, |g[t].pred|, |g|, |g|);
    LinkPredsEffect(base, g[t].succ, |g[t].succ|, |g|);
    LinkSuccsEffect(h, g[t].pred, |g[t].pred|, |g|);
  }

  lemma PackBaseIs(g: Graph, t: nat, packNum: nat, mem: Mem, h: Graph)
    requires t < |g| && h == g[t := g[t].(pack := if g[t].pack == 0 then packNum + 1 else g[t].pack)]
    ensures h + [h[t].(fd := mem.fd, size := mem.size)] == PackBase(g, t, packNum, mem.fd, mem.size)
  {
  }

  lemma InRange(g: Graph, t: nat)
    requires ListsInRange(g) && t < |g|
    ensures Indices(g[t].pred, |g|) && Indices(g[t].succ, |g|)
  {
    assert forall k :: 0 <= k < |g[t].pred| ==> g[t].pred[k] in g[t].pred;
    assert forall k :: 0 <= k < |g[t].succ| ==> g[t].succ[k] in g[t].succ;
  }

  // Both link loops of packSubCmd, for the copy at idx.
  function CopyLinked(base: Graph, preds: seq<int>, succs: seq<int>, idx: nat): Graph
    requires Indices(preds, |base|) && Indices(succs, |base|)
  {
    LinkSuccs(LinkPreds(base, succs, |succs|, idx), preds, |preds|, idx)
  }

  // What addSubCmd does to the list; the rest is not reached for an unknown
  // device type.
  method PushNew(subs: seq<SubCmd>, mem: Mem, dev: nat, dep: seq<int>, ctx: Word, ghost g: Graph,
                 ghost home: array?<Byte>, ghost places: seq<nat>)
    returns (all: seq<SubCmd>, ok: bool)
    requires Models(subs, g) && Homed(subs, home, places)
    modifies subs
    ensures ok <==> dev < DEVICE_MAX && AllIn(dep, |g| + 1)
    ensures Models(all, Pushed(g, NewNode(dep, dev, ctx, mem.fd, mem.size))) && Homed(all, home, places)
    ensures |all| == |subs| + 1 && all[..|subs|] == subs && fresh(all[|subs|])
  {
    ghost var h := g + [NewNode(dep, dev, ctx, mem.fd, mem.size)];
    all := NewSub(subs, mem, dev, dep, ctx, g, home, places);
    if DEVICE_MAX <= dev {
      return all, false;
    }
    ok := LinkBack(all, dep, |subs|, h, home, places);
  }

  // What packSubCmd does to the list: number the target, copy it, link the copy.
  // Returns the byte count with the new entries.
  method PushCopy(subs: seq<SubCmd>, target: SubCmd, mem: Mem, t: nat, packNum: nat, depSize: nat, ghost g: Graph, ghost base: Graph,
                  ghost home: array?<Byte>, ghost places: seq<nat>)
    returns (all: seq<SubCmd>, num: nat, size: nat)
    requires Models(subs, g) && Homed(subs, home, places) && t < |subs| && target == subs[t] && TuneOk(g[t].tune)
    requires base == PackBase(g, t, packNum, mem.fd, mem.size) && CopyFits(g, t, base)
    modifies subs
    ensures Models(all, CopyLinked(base, g[t].pred, g[t].succ, |g|)) && Homed(all, home, places)
    ensures num == if g[t].pack == 0 then packNum + 1 else packNum
    ensures size == depSize + (1 + |g[t].pred|) * 4 + 4 * |g[t].succ|
    ensures |all| == |subs| + 1 && all[..|subs|] == subs && fresh(all[|subs|])
  {
    ghost var h := g[t := g[t].(pack := if g[t].pack == 0 then packNum + 1 else g[t].pack)];
    num := Number(subs, target, t, packNum, g, h, home, places);
    PackBaseIs(g, t, packNum, mem, h);
    all := NewCopy(subs, target, mem, t, h, home, places);
    size := LinkCopy(all, all[|subs|], |subs|, base, g[t].pred, g[t].succ, depSize, home, places);
  }

  // A target that is in no pack yet starts one.
  method Number(subs: seq<SubCmd>, target: SubCmd, t: nat, packNum: nat, ghost g: Graph, ghost h: Graph,
                ghost home: array?<Byte>, ghost places: seq<nat>)
    returns (num: nat)
    requires Models(subs, g) && Homed(subs, home, places) && t < |subs| && target == subs[t]
    requires h == g[t := g[t].(pack := if g[t].pack == 0 then packNum + 1 else g[t].pack)]
    modifies target`node
    ensures Models(subs, h) && Homed(subs, home, places)
    ensures num == if g[t].pack == 0 then packNum + 1 else packNum
  {
    num := packNum;
    if target.node.pack == 0 {
      num := num + 1;
      SetNode(subs, target, t, target.node.(pack := num), g, home, places);
    } else {
      assert h == g;
    }
  }

  // Both link loops of packSubCmd; returns the byte count with the new entries.
  method LinkCopy(all: seq<SubCmd>, s: SubCmd, n: nat, ghost base: Graph, ghost preds: seq<int>, ghost succs: seq<int>, depSize: nat,
                  ghost home: array?<Byte>, ghost places: seq<nat>)
    returns (size: nat)
    requires Models(all, base) && Homed(all, home, places) && |all| == n + 1 && s == all[n] && base[n].pred == preds && base[n].succ == succs
    requires Indices(preds, |base|) && Indices(succs, n) && Indices(succs, |base|)
    modifies all
    ensures Models(all, CopyLinked(base, preds, succs, n)) && Homed(all, home, places)
    ensures size == depSize + (1 + |preds|) * 4 + 4 * |succs|
  {
    size := depSize + (1 + |s.node.pred|) * 4;
    size := AddToPreds(all, s, base, succs, size, home, places);
    LinkPredsOthers(base, succs, |succs|, n, n);
    AddToSuccs(all, s, LinkPreds(base, succs, |succs|, n), preds, home, places);
  }

  const LIMIT: nat := 0x1_0000_0000

  // The counters give the size of the layout.
  ghost predicate SizeOk(g: Graph, depSize: nat) {
    && ListsInRange(g) && depSize == 4 * SuccWords(g)
    && CalcSize(|g|, depSize, MdlaCount(g)) == if g == [] then 0 else Size(g)
  }

  lemma SizeFacts(ops: seq<Op>, st: State)
    requires Run(ops) == Some(st)
    ensures SizeOk(st.g, st.depBytes)
  {
    HistoryInvariant(ops);
    if st.g != [] {
      SizeIsCalc(st.g);
    }
  }

  ghost predicate Fits(g: Graph) {
    g != [] && Size(g) < LIMIT
  }

  // What constructCmd asks the allocator for: sizes are 32-bit.
  function Allocated(g: Graph): Word {
    if g == [] then 0 else Wrap(Size(g))
  }

  // How constructCmd ends: none says that there is no buffer yet, got that the
  // allocator had memory.
  ghost function Attempt(executing: bool, dirty: bool, none: bool, freeOk: bool, got: bool, g: Graph): Construction {
    if executing then Failed
    else if !dirty then if none then Failed else Built
    else if Allocated(g) == 0 || (!none && !freeOk) || !got then Failed
    else if Fits(g) then Built else Overran
  }

  // A command that is executing is never built. A clean one is whenever there is a
  // buffer. Otherwise a list that needs less than 4 GiB is built whenever nothing
  // is in the way; a longer one never is, and overruns its buffer unless the cut
  // size is 0.
  lemma AttemptIff(executing: bool, dirty: bool, none: bool, freeOk: bool, got: bool, g: Graph)
    ensures var a, free := Attempt(executing, dirty, none, freeOk, got, g), g != [] && (none || freeOk) && got;
            && (a == Built <==> !executing && if dirty then free && Size(g) < LIMIT else !none)
            && (a == Overran <==> !executing && dirty && free && Size(g) >= LIMIT && Size(g) % LIMIT != 0)
  {
    if g != [] && Size(g) < LIMIT {
      WrapSmall(Size(g));
    }
  }

  // The counters describe the list.
  ghost predicate Counted(st: State, depSize: nat, packNum: nat, typeNum: seq<nat>) {
    && packNum == st.packNum && depSize == st.depBytes
    && |typeNum| == DEVICE_MAX && typeNum[DEVICE_MDLA] == MdlaCount(st.g)
  }

  // So does the header of the buffer, if there is one.
  ghost predicate Marked(none: bool, b: seq<Byte>, prop: Property, fence: bool, flags: Bitmap, uid: Handle, n: nat) {
    flags == Bitmap(prop.powerSave, fence) && if none then uid == NULL else Titled(b, Title(uid, prop, flags, n))
  }

  ghost predicate Fresh(b: seq<Byte>, g: Graph, places: seq<nat>) {
    g != [] && Encodes(b, g) && places == Places(g)
  }

  // The buffer encodes the list, with the contexts it was built with, unless the
  // command is dirty; then the list has grown since.
  ghost predicate InStep(dirty: bool, none: bool, b: seq<Byte>, g: Graph, built: seq<Word>, places: seq<nat>) {
    && |built| == |places|
    && if dirty then none || |places| < |g|
       else if none then g == []
       else Fresh(b, Recalled(g, built), places)
  }

  lemma CtxInStep(dirty: bool, none: bool, b: seq<Byte>, g: Graph, built: seq<Word>, places: seq<nat>, i: nat, ctx: Word)
    requires InStep(dirty, none, b, g, built, places) && i < |g|
    ensures InStep(dirty, none, b, g[i := g[i].(ctx := ctx)], built, places)
  {
    if !dirty {
      RecalledSet(g, built, i, ctx);
    }
  }

  lemma GrownStep(dirty: bool, none: bool, b: seq<Byte>, g: Graph, all: Graph, built: seq<Word>, places: seq<nat>)
    requires InStep(dirty, none, b, g, built, places) && |g| < |all|
    ensures InStep(true, none, b, all, built, places)
  {
  }

  // The headers in a buffer carry the boost values of the list.
  ghost predicate Boosts(b: seq<Byte>, places: seq<nat>, g: Graph) {
    |places| <= |g| && forall i :: 0 <= i < |places| ==> places[i] + SC_HDR <= |b| && b[places[i] + 25] == g[i].tune.boost
  }

  lemma FreshBoosts(b: seq<Byte>, g: Graph, built: seq<Word>, places: seq<nat>)
    requires Fresh(b, Recalled(g, built), places)
    ensures Boosts(b, places, g)
  {
    forall i: nat | i < |places|
      ensures places[i] + SC_HDR <= |b| && b[places[i] + 25] == g[i].tune.boost
    {
      HeaderFor(b, Recalled(g, built), i);
      assert HdrFieldAt(b, places[i], Recalled(g, built)[i], BoostVal);
    }
  }

  lemma PushedTune(g: Graph, node: Node, i: nat)
    requires i < |g|
    ensures Pushed(g, node)[i].tune == g[i].tune
  {
    LinkEffect(g + [node], node.pred, GoodPrefix(node.pred, |g| + 1), |g|);
  }

  lemma PushedBoosts(b: seq<Byte>, places: seq<nat>, g: Graph, node: Node)
    requires Boosts(b, places, g)
    ensures Boosts(b, places, Pushed(g, node)) && |Pushed(g, node)| == |g| + 1
  {
    forall i: nat | i < |places|
      ensures b[places[i] + 25] == Pushed(g, node)[i].tune.boost
    {
      PushedTune(g, node, i);
    }
  }

  // So do the objects.
  ghost predicate Boosted(subs: seq<SubCmd>, b: seq<Byte>, places: seq<nat>)
    reads subs
  {
    |places| <= |subs| && forall i :: 0 <= i < |places| ==> places[i] + SC_HDR <= |b| && b[places[i] + 25] == subs[i].node.tune.boost
  }

  class Command {
    var subs: seq<SubCmd>
    // mDependencySize, mTypeCmdNum, mPackNum, mDirty, mIsExecuting
    var depSize: nat
    var typeNum: seq<nat>
    var packNum: nat
    var dirty: bool
    var executing: bool
    // mCmdBuf: the bytes and the pointer value.
    var buf: array?<Byte>
    var handle: Handle
    // mProperty, mFenceEnable, mFlagBitmap
    var prop: Property
    var fence: bool
    var flags: Bitmap
    // What the buffer holds.
    ghost var image: seq<Byte>
    // The buffer built last, which may have been freed since, and where the
    // headers were put in it.
    ghost var home: array?<Byte>
    ghost var places: seq<nat>
    // The contexts written into it.
    ghost var built: seq<Word>
    // The calls that changed the list, and the state they lead to.
    ghost var ops: seq<Op>
    ghost var st: State

    ghost predicate Valid()
      reads this, subs, buf
    {
      && Run(ops) == Some(st)
      && Models(subs, st.g) && Counted(st, depSize, packNum, typeNum)
      && Homed(subs, home, places)
      && (buf != null ==> buf == home && buf[..] == image)
      && Marked(buf == null, image, prop, fence, flags, handle, |places|)
      && InStep(dirty, buf == null, image, st.g, built, places)
    }

    constructor ()
      ensures Valid() && ops == [] && !dirty && buf == null && !executing && !fence
      ensures prop == Property(20, 0, 0, false)
    {
      subs, depSize, typeNum, packNum, dirty, executing := [], 0, seq(DEVICE_MAX, _ => 0), 0, false, false;
      buf, handle, prop, fence, flags, ops, st := null, NULL, Property(PRIORITY_NORMAL, 0, 0, false), false, Bitmap(false, false), [], EMPTY;
      image, home, places, built := [], null, [], [];
    }

    // Whether a device type is in use (getDeviceNum) and the memory of the new
    // sub-command come from the engine and the caller.
    method AddSubCmd(deviceNum: int, mem: Option<Mem>, dev: nat, dep: seq<int>, ctx: Word) returns (r: Outcome)
      requires Valid()
      modifies this`subs, this`typeNum, this`packNum, this`dirty, this`depSize, this`ops, this`st, subs
      ensures r != Threw ==> Valid()
      ensures deviceNum <= 0 || mem.None? ==> r == Refused && ops == old(ops) && dirty == old(dirty)
      ensures deviceNum > 0 && mem.Some? ==>
                if dev >= 6 || exists k :: 0 <= k < |dep| && !(0 <= dep[k] <= |old(subs)|)
                then r == Threw && dirty == old(dirty) && depSize == old(depSize) && ops == old(ops)
                else r == Index(|old(subs)|) && dirty && ops == old(ops) + [Add(dep, dev, ctx, mem.value.fd, mem.value.size)]
      ensures r != Refused ==> |subs| == |old(subs)| + 1 && subs[..|old(subs)|] == old(subs) && fresh(subs[|old(subs)|])
      // The new sub-command, whether the call throws or not.
      ensures r != Refused ==> var node := subs[|old(subs)|].node;
                node == Node(dev, dep, node.succ, 0, ctx, Tune(0xFF, 0, 0, 0, false), mem.value.fd, mem.value.size)
      ensures r != Refused ==> forall i :: 0 <= i < |old(subs)| ==> subs[i].node == old(subs[i].node).(succ := subs[i].node.succ)
      ensures r == Threw ==> Models(subs, Pushed(old(st.g), NewNode(dep, dev, ctx, mem.value.fd, mem.value.size)))
      ensures r != Refused ==> typeNum == if dev < 6 then old(typeNum)[dev := old(typeNum)[dev] + 1] else old(typeNum)
      ensures r == Threw && !dirty ==> Served() && (buf != null ==> BuiltFor(image) == |subs| - 1)
    {
      if deviceNum <= 0 || mem.None? {
        return Refused;
      }
      ghost var op := Add(dep, dev, ctx, mem.value.fd, mem.value.size);
      ghost var left := Pushed(st.g, NewNode(dep, dev, ctx, mem.value.fd, mem.value.size));
      ghost var next := LookAhead(op, left, depSize + (1 + |dep|) * 4);
      ThrowsIff(st, op);
      PushedNode(st.g, dep, dev, ctx, mem.value.fd, mem.value.size);
      r := Append(mem.value, dev, dep, ctx, op, left, next, !Throws(st, op));
    }

    // fine says that nothing throws; left is the list behind the call, next the
    // state if it is fine.
    method Append(mem: Mem, dev: nat, dep: seq<int>, ctx: Word, ghost op: Op, ghost left: Graph, ghost next: State, ghost fine: bool)
      returns (r: Outcome)
      requires Models(subs, st.g) && Homed(subs, home, places) && |typeNum| == DEVICE_MAX
      requires (buf != null ==> buf == home && buf[..] == image) && Marked(buf == null, image, prop, fence, flags, handle, |places|)
      requires left == Pushed(st.g, NewNode(dep, dev, ctx, mem.fd, mem.size)) && (fine <==> dev < DEVICE_MAX && AllIn(dep, |st.g| + 1))
      requires Ahead(op, left, next, fine, depSize + (1 + |dep|) * 4, dev)
      modifies this`subs, this`typeNum, this`packNum, this`dirty, this`depSize, this`ops, this`st, subs
      ensures fine ==> r == Index(|old(subs)|) && Valid() && dirty && ops == old(ops) + [op]
      ensures |subs| == |old(subs)| + 1 && subs[..|old(subs)|] == old(subs) && fresh(subs[|old(subs)|])
      ensures !fine ==> r == Threw && dirty == old(dirty) && depSize == old(depSize) && ops == old(ops)
      ensures Models(subs, left) && typeNum == OneMore(old(typeNum), dev)
      ensures !fine && !dirty ==> Served() && (buf != null ==> BuiltFor(image) == |subs| - 1)
    {
      var n := |subs|;
      var all, ok := PushNew(subs, mem, dev, dep, ctx, st.g, home, places);
      if ok {
        Grow(all, dev, depSize + (1 + |dep|) * 4, packNum, op, next);
        r := Index(n);
      } else {
        Abandon(all, dev, left);
        r := Threw;
      }
    }

    // What is known of the list left behind an addSubCmd, of size size.
    ghost predicate Ahead(op: Op, left: Graph, next: State, fine: bool, size: nat, dev: nat)
      reads this
    {
      && (fine ==> Run(ops + [op]) == Some(next) && next.g == left && Counted(next, size, packNum, OneMore(typeNum, dev)))
      && InStep(true, buf == null, image, left, built, places)
      && (!dirty && buf != null ==> Boosts(image, places, left) && BuiltFor(image) == |left| - 1)
    }

    // The list has grown to `all`: the command is dirty.
    method Grow(all: seq<SubCmd>, dev: nat, size: nat, num: nat, ghost op: Op, ghost next: State)
      requires Run(ops + [op]) == Some(next) && (buf != null ==> buf == home && buf[..] == image)
      requires dev < |typeNum| && Models(all, next.g) && Homed(all, home, places) && Counted(next, size, num, OneMore(typeNum, dev))
      requires Marked(buf == null, image, prop, fence, flags, handle, |places|) && InStep(true, buf == null, image, next.g, built, places)
      modifies this`subs, this`typeNum, this`packNum, this`dirty, this`depSize, this`ops, this`st
      ensures Valid() && dirty && ops == old(ops) + [op] && subs == all && packNum == num && st == next && typeNum == OneMore(old(typeNum), dev)
    {
      Replace(all, dev, size, num, op, next);
      Whole();
    }

    method Replace(all: seq<SubCmd>, dev: nat, size: nat, num: nat, ghost op: Op, ghost next: State)
      requires dev < |typeNum| && Models(all, next.g) && Homed(all, home, places) && Counted(next, size, num, OneMore(typeNum, dev))
      modifies this`subs, this`typeNum, this`packNum, this`dirty, this`depSize, this`ops, this`st
      ensures Models(subs, next.g) && Homed(subs, home, places) && Counted(next, depSize, packNum, typeNum)
      ensures dirty && st == next && ops == old(ops) + [op] && subs == all && packNum == num && typeNum == OneMore(old(typeNum), dev)
    {
      subs, depSize, packNum, dirty := all, size, num, true;
      typeNum := typeNum[dev := typeNum[dev] + 1];
      ops, st := ops + [op], next;
    }

    lemma Whole()
      requires Run(ops) == Some(st) && Models(subs, st.g) && Counted(st, depSize, packNum, typeNum) && Homed(subs, home, places)
      requires buf != null ==> buf == home && buf[..] == image
      requires Marked(buf == null, image, prop, fence, flags, handle, |places|)
      requires InStep(dirty, buf == null, image, st.g, built, places)
      ensures Valid()
    {
    }

    // The list has grown, but vector::at threw before the rest was done.
    method Abandon(all: seq<SubCmd>, dev: nat, ghost left: Graph)
      requires |typeNum| == DEVICE_MAX && Models(all, left) && Homed(all, home, places)
      requires !dirty && buf != null ==> buf == home && buf[..] == image && Boosts(image, places, left)
      modifies this`subs, this`typeNum
      ensures subs == all && typeNum == OneMore(old(typeNum), dev) && (!dirty ==> Served())
    {
      subs := all;
      if dev < DEVICE_MAX {
        typeNum := typeNum[dev := typeNum[dev] + 1];
      }
      if !dirty {
        ServedBy(left);
      }
    }

    lemma LookAhead(op: Op, left: Graph, size: nat) returns (next: State)
      requires Valid() && op.Add? && left == Pushed(st.g, NewNode(op.dep, op.dev, op.ctx, op.fd, op.size))
      requires size == depSize + (1 + |op.dep|) * 4
      ensures Ahead(op, left, next, !Throws(st, op), size, op.dev)
    {
      next := AppendEffect(ops, st, op, left);
      Short(left, NewNode(op.dep, op.dev, op.ctx, op.fd, op.size));
      GrownStep(dirty, buf == null, image, st.g, left, built, places);
    }

    // A clean buffer is one short of a list that grew, and fits it otherwise.
    lemma Short(left: Graph, node: Node)
      requires Valid() && left == Pushed(st.g, node)
      ensures !dirty && buf != null ==> Boosts(image, places, left) && BuiltFor(image) == |st.g| == |left| - 1
    {
      if !dirty && buf != null {
        ValidServed();
        PushedBoosts(image, places, st.g, node);
        Grown();
      }
    }

    method PackSubCmd(deviceNum: int, mem: Option<Mem>, dev: nat, t: int) returns (r: Outcome)
      requires Valid()
      modifies this`subs, this`typeNum, this`dirty, this`depSize, this`packNum, this`ops, this`st, subs
      ensures Valid()
      ensures r == if deviceNum <= 0 || dev >= 6 || mem.None? || t >= |old(subs)| then Refused
                   else if t < 0 then Threw
                   else if old(subs[t].node.dev) != dev then Refused
                   else Index(|old(subs)|)
      ensures !r.Index? ==> ops == old(ops) && dirty == old(dirty) && subs == old(subs)
      ensures r.Index? ==> dirty && ops == old(ops) + [Pack(t, dev, mem.value.fd, mem.value.size)]
      ensures r.Index? ==> CopyOf(old(st.g), st.g, old(packNum), t, mem.value) && subs[..|old(subs)|] == old(subs)
      ensures r.Index? ==> packNum == old(packNum) + if old(subs[t].node.pack) == 0 then 1 else 0
    {
      if deviceNum <= 0 || DEVICE_MAX <= dev || mem.None? || t > |subs| - 1 {
        return Refused;
      }
      if t < 0 {
        return Threw;
      }
      var target := subs[t];
      if target.node.dev != dev {
        return Refused;
      }
      r := Copy(target, mem.value, t);
    }

    method Copy(target: SubCmd, mem: Mem, t: nat) returns (r: Outcome)
      requires Valid() && t < |subs| && target == subs[t]
      modifies this`subs, this`typeNum, this`dirty, this`depSize, this`packNum, this`ops, this`st, subs
      ensures Valid() && r == Index(|old(subs)|) && dirty
      ensures ops == old(ops) + [Pack(t, old(target.node.dev), mem.fd, mem.size)]
      ensures CopyOf(old(st.g), st.g, old(packNum), t, mem) && |subs| == |old(subs)| + 1 && subs[..|old(subs)|] == old(subs)
      ensures packNum == old(packNum) + if old(target.node.pack) == 0 then 1 else 0
    {
      var n, dev := |subs|, target.node.dev;
      ghost var base := PackBase(st.g, t, st.packNum, mem.fd, mem.size);
      ghost var next := PackEffects(ops, st, t, mem.fd, mem.size, base);
      GrownStep(dirty, buf == null, image, st.g, next.g, built, places);
      var all, num, size := PushCopy(subs, target, mem, t, packNum, depSize, st.g, base, home, places);
      Grow(all, dev, size, num, Pack(t, dev, mem.fd, mem.size), next);
      r := Index(n);
    }

    // _calcCmdSize, before it is cut to 32 bits.
    method CalcCmdSize() returns (size: nat)
      requires |typeNum| == DEVICE_MAX
      ensures size == CalcSize(|subs|, depSize, typeNum[DEVICE_MDLA])
      ensures size == if |subs| == 0 then 0 else 60 + 48 * |subs| + depSize + 12 * typeNum[2]
    {
      var n := |subs|;
      if n == 0 {
        return 0;
      }
      size := HDR + FENCE + n * 4 + depSize + n * 4 + n * 40;
      size := size + 12 * typeNum[DEVICE_MDLA];
    }

    // What the early path of constructCmd relies on. It outlives a call that threw.
    ghost predicate Served()
      reads this, subs, buf
    {
      && Homed(subs, home, places)
      && (buf != null ==> buf == home && buf[..] == image && Boosted(subs, image, places))
    }

    lemma ServedBy(g: Graph)
      requires Models(subs, g) && Homed(subs, home, places) && (buf != null ==> buf == home && buf[..] == image && Boosts(image, places, g))
      ensures Served()
    {
    }

    lemma ValidServed()
      requires Valid() && !dirty
      ensures Served() && (buf != null ==> Boosts(image, places, st.g))
    {
      if buf != null {
        FreshBoosts(image, st.g, built, places);
      }
      ServedBy(st.g);
    }

    // What a buffer that is not out of date holds.
    lemma Carried()
      requires Valid() && !dirty && buf != null
      ensures Encodes(buf[..], Recalled(st.g, built)) && (Encodes(buf[..], st.g) <==> built == Contexts(st.g))
    {
      ContextsExact(image, st.g, built);
    }

    // The early path: every header gets its boost value again, which it has.
    method Refresh()
      requires Served() && buf != null
      modifies buf
      ensures buf[..] == old(buf[..])
    {
      var i := 0;
      while i < |subs|
        invariant i <= |subs| && buf[..] == image
      {
        HomeOf(subs, |subs|, home, places, i);
        var ok := subs[i].SetIOParam();
        i := i + 1;
      }
    }

    // constructCmd when nothing has changed.
    method Reuse() returns (r: Construction)
      requires !dirty && (Valid() || Served())
      modifies buf
      ensures r == (if buf == null then Failed else Built) && (buf != null ==> buf[..] == old(buf[..]))
      ensures old(Valid()) ==> Valid()
    {
      if Valid() {
        ValidServed();
      }
      if buf != null {
        Refresh();
        return Built;
      }
      r := Failed;
    }

    // mem is what the allocator returns for the computed size, uid its handle,
    // freeOk whether it took the old buffer back. A new buffer encodes the list
    // and leaves the fence slot as the allocator gave it. The early path returns
    // the old one: it encodes the list exactly when every sub-command has the
    // context it had when the buffer was built. The early path is also taken
    // after an addSubCmd that threw on a clean command, and the buffer is then one
    // sub-command short. A list that needs 4 GiB or more gets a buffer that is too
    // small and is written past its end.
    method ConstructCmd(freeOk: bool, mem: array?<Byte>, uid: Handle) returns (r: Construction)
      requires Valid() || (!dirty && Served())
      requires mem != null ==> mem.Length == Allocated(st.g) && uid != NULL
      modifies this`buf, this`handle, this`dirty, this`image, this`home, this`places, this`built, subs, buf, mem
      ensures old(Valid()) && r != Overran ==> Valid()
      ensures r == Attempt(executing, old(dirty), old(buf) == null, freeOk, mem != null, st.g)
      ensures r == Built ==> !dirty && buf != null
      ensures old(Valid()) && r == Built ==> Encodes(buf[..], Recalled(st.g, built))
      ensures old(Valid()) && r == Built ==> (Encodes(buf[..], st.g) <==> built == Contexts(st.g))
      ensures old(Valid()) && r == Built ==>
                && 32 <= buf.Length && buf[24] < 4 && (buf[24] % 2 == 1 <==> prop.powerSave) && (buf[24] / 2 % 2 == 1 <==> fence)
                && buf[25] == buf[26] == buf[27] == buf[28] == buf[29] == buf[30] == buf[31] == 0
      ensures r == Built && old(dirty) ==> buf == mem && handle == uid && Agree(old(mem[..]), mem[..], FenceOfs(|subs|), FenceOfs(|subs|) + FENCE)
      ensures r == Built && !old(dirty) ==> buf == old(buf) && buf[..] == old(buf[..])
      ensures r == Failed ==> dirty == old(dirty) && buf == if !executing && dirty && Allocated(st.g) != 0 && freeOk then null else old(buf)
      ensures r == Built && old(dirty) ==> home == buf && places == Places(st.g) && built == Contexts(st.g)
      ensures r != Overran && !(r == Built && old(dirty)) ==> home == old(home) && places == old(places) && built == old(built)
    {
      if executing {
        return Failed;
      }
      if !dirty {
        r := Reuse();
      } else {
        r := Rebuild(freeOk, mem, uid);
      }
      if r == Built && Valid() {
        Carried();
        Flagged();
      }
    }

    // The rest of it, for a dirty command.
    method Rebuild(freeOk: bool, mem: array?<Byte>, uid: Handle) returns (r: Construction)
      requires Valid() && dirty && (mem != null ==> mem.Length == Allocated(st.g) && uid != NULL)
      modifies this`buf, this`handle, this`dirty, this`image, this`home, this`places, this`built, subs, mem
      ensures r != Overran ==> Valid() && dirty == (r == Failed)
      ensures r == Attempt(false, true, old(buf) == null, freeOk, mem != null, st.g)
      ensures r == Built ==> buf == mem && handle == uid && Agree(old(mem[..]), mem[..], FenceOfs(|subs|), FenceOfs(|subs|) + FENCE)
      ensures r == Failed ==> buf == if Allocated(st.g) != 0 && freeOk then null else old(buf)
      ensures r == Built ==> home == buf && places == Places(st.g) && built == Contexts(st.g)
      ensures r == Failed ==> home == old(home) && places == old(places) && built == old(built)
    {
      SizeFacts(ops, st);
      var size := CalcCmdSize();
      if Wrap(size) == 0 {
        return Failed;
      }
      if buf != null && !freeOk {
        return Failed;
      }
      r := Renew(size, mem, uid);
    }

    // constructCmd once the old buffer has been freed.
    method Renew(size: nat, mem: array?<Byte>, uid: Handle) returns (r: Construction)
      requires Valid() && dirty && SizeOk(st.g, depSize) && subs != [] && size == Size(st.g)
      requires mem != null ==> mem.Length == Wrap(size) && uid != NULL
      modifies this`buf, this`handle, this`dirty, this`image, this`home, this`places, this`built, subs, mem
      ensures r == if mem == null then Failed else if size < LIMIT then Built else Overran
      ensures r != Overran ==> Valid() && dirty == (r == Failed)
      ensures r == Built ==> buf == mem && handle == uid && Agree(old(mem[..]), mem[..], FenceOfs(|subs|), FenceOfs(|subs|) + FENCE)
      ensures r == Failed ==> buf == null
      ensures r == Built ==> home == buf && places == Places(st.g) && built == Contexts(st.g)
      ensures r == Failed ==> home == old(home) && places == old(places) && built == old(built)
    {
      Release();
      if mem == null {
        r := Failed;
      } else if size < LIMIT {
        WrapSmall(size);
        Install(mem, uid);
        r := Built;
      } else {
        r := Overran;
      }
    }

    // The buffer is gone.
    method Release()
      requires Valid() && dirty
      modifies this`buf, this`handle
      ensures Valid() && buf == null
    {
      buf, handle := null, NULL;
    }

    // constructCmd once there is a new buffer.
    method Install(mem: array<Byte>, uid: Handle)
      requires Run(ops) == Some(st) && Models(subs, st.g) && Counted(st, depSize, packNum, typeNum)
      requires subs != [] && flags == Bitmap(prop.powerSave, fence)
      requires mem.Length == Size(st.g) < LIMIT && SizeOk(st.g, depSize) && uid != NULL
      modifies this`buf, this`handle, this`dirty, this`image, this`home, this`places, this`built, subs, mem
      ensures Valid() && !dirty && buf == mem == home && handle == uid && places == Places(st.g) && built == Contexts(st.g)
      ensures Agree(old(mem[..]), mem[..], FenceOfs(|subs|), FenceOfs(|subs|) + FENCE)
    {
      Build(subs, mem, depSize, prop, flags, uid, st.g);
      RecalledOwn(st.g);
      Adopt(mem, uid, mem[..], Places(st.g), Contexts(st.g));
    }

    // The buffer mem, which has just been built, is the command's.
    method Adopt(mem: array<Byte>, uid: Handle, ghost b: seq<Byte>, ghost ps: seq<nat>, ghost cs: seq<Word>)
      requires Run(ops) == Some(st) && Models(subs, st.g) && Counted(st, depSize, packNum, typeNum) && Homed(subs, mem, ps)
      requires b == mem[..] && Marked(false, b, prop, fence, flags, uid, |ps|) && InStep(false, false, b, st.g, cs, ps)
      modifies this`buf, this`handle, this`dirty, this`image, this`home, this`places, this`built
      ensures Valid() && !dirty && buf == mem == home && handle == uid && places == ps && built == cs
    {
      Take(mem, uid, b, ps, cs);
      Whole();
    }

    method Take(mem: array<Byte>, uid: Handle, ghost b: seq<Byte>, ghost ps: seq<nat>, ghost cs: seq<Word>)
      requires Models(subs, st.g) && Homed(subs, mem, ps) && b == mem[..]
      modifies this`buf, this`handle, this`dirty, this`image, this`home, this`places, this`built
      ensures !dirty && buf == mem == home && mem[..] == image == b && handle == uid && places == ps && built == cs
      ensures Models(subs, st.g) && Homed(subs, home, places)
    {
      buf, handle, dirty := mem, uid, false;
      image, home, places, built := b, mem, ps, cs;
    }

    // The header of sub-command i in a buffer that is not out of date, with the
    // context it had when the buffer was built.
    lemma HeaderOf(i: nat, at: nat)
      requires Valid() && !dirty && buf != null && i < |subs| && at == HdrOfs(st.g, i)
      ensures i < |built| && at + 40 <= buf.Length && Get32(buf[..], at + 28) == built[i]
      ensures var node := subs[i].node;
              && Get32(buf[..], at) == node.dev && buf[at + 25] == node.tune.boost && buf[at + 26] == node.pack % 0x100
              && Get32(buf[..], at + 32) == node.size && Get32(buf[..], at + 36) / 0x8000_0000 == 1
              && Get32(buf[..], at + 36) % 0x8000_0000 == node.fd % 0x8000_0000
    {
      RecalledOfs(st.g, built, i);
      HistoryInvariant(ops);
      HeaderFor(image, Recalled(st.g, built), i);
      HeaderShows(image, at, Recalled(st.g, built)[i]);
    }

    // A reader decodes the current graph from a buffer that is not out of date,
    // whatever contexts have changed since it was built.
    lemma Decodes()
      requires Valid() && !dirty && buf != null && !SelfNamed(ops) && packNum < 0x100
      ensures Decode(buf[..]) == View(st.g)
    {
      StaleRoundTrip(ops, st, built, image);
    }

    // setTuneParam on sub-command i, which writes through to its header.
    method SetTuneParam(i: nat, tune: Tune) returns (ok: bool)
      requires Valid() && i < |subs|
      modifies this`image, this`ops, this`st, {subs[i]}`node, subs[i].entry
      ensures Valid() && ok == (tune.boost <= 100 || tune.boost == 0xFF)
      ensures ops == if ok then old(ops) + [SetTune(i, tune)] else old(ops)
      ensures st.g == if ok then old(st.g)[i := old(st.g)[i].(tune := tune)] else old(st.g)
    {
      ghost var next := TuneEffect(ops, st, i, tune);
      HomeOf(subs, |subs|, home, places, i);
      ok := TuneSub(subs, subs[i], i, tune, st.g, Recalled(st.g, built), home, places);
      if ok {
        Settle(i, tune, next);
      }
    }

    // The ghost state after sub-command i has been given new parameters.
    ghost method Settle(i: nat, tune: Tune, next: State)
      requires Run(ops + [SetTune(i, tune)]) == Some(next) && Models(subs, next.g) && Homed(subs, home, places)
      requires i < |st.g| && next.g == Tuned(st.g, i, tune) && Counted(next, depSize, packNum, typeNum)
      requires Marked(buf == null, image, prop, fence, flags, handle, |places|) && InStep(dirty, buf == null, image, st.g, built, places)
      requires buf != null ==> buf == home && Retuned(image, buf[..], places, Recalled(st.g, built), i, tune)
      modifies this`image, this`ops, this`st
      ensures Valid() && ops == old(ops) + [SetTune(i, tune)] && st == next
    {
      if buf == null {
        Advance(SetTune(i, tune), next, image);
      } else {
        Rewritten(image, buf[..], prop, fence, flags, handle, dirty, st.g, built, places, i, tune);
        Advance(SetTune(i, tune), next, buf[..]);
      }
    }

    // One more call in the history; b is what the buffer holds now.
    ghost method Advance(op: Op, next: State, b: seq<Byte>)
      requires Run(ops + [op]) == Some(next) && Models(subs, next.g) && Homed(subs, home, places)
      requires Counted(next, depSize, packNum, typeNum) && (buf != null ==> buf == home && buf[..] == b)
      requires Marked(buf == null, b, prop, fence, flags, handle, |places|) && InStep(dirty, buf == null, b, next.g, built, places)
      modifies this`image, this`ops, this`st
      ensures Valid() && ops == old(ops) + [op] && st == next && image == b
    {
      image, ops, st := b, ops + [op], next;
      Whole();
    }

    // setCtxId on sub-command i. The command is not told and the buffer keeps the
    // context it was built with.
    method SetCtxId(i: nat, ctx: Word) returns (ok: bool)
      requires Valid() && i < |subs|
      modifies this`image, this`ops, this`st, {subs[i]}`node
      ensures Valid() && ok && image == old(image) && ops == old(ops) + [SetCtx(i, ctx)] && st.g == old(st.g)[i := old(st.g)[i].(ctx := ctx)]
    {
      ghost var next := CtxEffect(ops, st, i, ctx);
      HomeOf(subs, |subs|, home, places, i);
      ok := CtxSub(subs, subs[i], i, ctx, st.g, home, places);
      CtxInStep(dirty, buf == null, image, st.g, built, places, i, ctx);
      Advance(SetCtx(i, ctx), next, image);
    }

    method SetCmdProperty(p: Property) returns (ok: bool)
      requires Valid()
      modifies this`prop, this`flags, this`dirty, this`image, buf
      ensures Valid() && ok == (p.priority <= 32)
      ensures !ok ==> prop == old(prop) && dirty == old(dirty)
      ensures ok ==> prop == p && dirty == (old(dirty) || buf == null)
      // Priority, limits and flags are in the header at once.
      ensures ok && buf != null ==>
                && 32 <= buf.Length && buf[17] == p.priority
                && buf[18] == p.hardLimit % 0x100 && buf[19] == p.hardLimit / 0x100
                && buf[20] == p.softLimit % 0x100 && buf[21] == p.softLimit / 0x100
                && buf[24] < 4 && (buf[24] % 2 == 1 <==> p.powerSave) && (buf[24] / 2 % 2 == 1 <==> fence)
                && buf[25] == buf[26] == buf[27] == buf[28] == buf[29] == buf[30] == buf[31] == 0
    {
      if p.priority > PRIORITY_MAX {
        return false;
      }
      ghost var t := Title(handle, prop, flags, |places|);
      prop := p;
      flags := flags.(powerSave := p.powerSave);
      if buf == null {
        dirty := true;
      } else {
        WriteProperty(t);
        Shown();
      }
      ok := true;
    }

    method SetFence(enable: bool) returns (ok: bool)
      requires Valid()
      modifies this`fence, this`flags, this`image, buf
      ensures Valid() && ok && fence == enable
      ensures buf != null ==>
                && 32 <= buf.Length && buf[24] < 4 && (buf[24] % 2 == 1 <==> prop.powerSave) && (buf[24] / 2 % 2 == 1 <==> enable)
                && buf[25] == buf[26] == buf[27] == buf[28] == buf[29] == buf[30] == buf[31] == 0
    {
      ghost var t := Title(handle, prop, flags, |places|);
      fence := enable;
      flags := flags.(fence := enable);
      if buf != null {
        WriteProperty(t);
        Flagged();
      }
      ok := true;
    }

    lemma Flagged()
      requires Valid() && buf != null
      ensures 32 <= buf.Length && buf[24] < 4 && (buf[24] % 2 == 1 <==> prop.powerSave) && (buf[24] / 2 % 2 == 1 <==> fence)
      ensures buf[25] == buf[26] == buf[27] == buf[28] == buf[29] == buf[30] == buf[31] == 0
    {
      FlagBits(image, Title(handle, prop, flags, |places|));
    }

    // What the header of the buffer says, byte by byte.
    lemma Shown()
      requires Valid() && buf != null
      ensures 32 <= buf.Length && buf[17] == prop.priority
      ensures buf[18] == prop.hardLimit % 0x100 && buf[19] == prop.hardLimit / 0x100
      ensures buf[20] == prop.softLimit % 0x100 && buf[21] == prop.softLimit / 0x100
      ensures buf[24] < 4 && (buf[24] % 2 == 1 <==> prop.powerSave) && (buf[24] / 2 % 2 == 1 <==> fence)
      ensures buf[25] == buf[26] == buf[27] == buf[28] == buf[29] == buf[30] == buf[31] == 0
    {
      Flagged();
      PropertyBytes(image, Title(handle, prop, flags, |places|));
    }

    // _setCmdPropertyToBuf, when there is a buffer.
    method WriteProperty(ghost t: Title)
      requires Run(ops) == Some(st) && Models(subs, st.g) && Counted(st, depSize, packNum, typeNum) && Homed(subs, home, places)
      requires buf != null && buf == home && buf[..] == image && Titled(image, t) && t.uid == handle && t.n == |places|
      requires InStep(dirty, false, image, st.g, built, places) && flags == Bitmap(prop.powerSave, fence)
      modifies this`image, buf
      ensures Valid()
    {
      StoreProperty(buf, prop, flags);
      Repainted(image, buf[..], t, Title(handle, prop, flags, |places|), dirty, st.g, built, places);
      image := buf[..];
    }

    // What lies where the slot would be for the current number of sub-commands.
    // That is the slot of the buffer exactly when the command is clean.
    method GetFence() returns (r: FenceRead)
      requires Valid()
      ensures r == if buf == null then NoFence else FenceIn(image, |subs|)
      ensures buf != null ==> Slotted(image) && BuiltFor(image) <= |subs| && (|subs| == BuiltFor(image) <==> !dirty)
      ensures r.NoFence? <==> buf == null || subs == [] || 44 + 4 * |subs| > buf.Length
      ensures r.Read? <==> buf != null && subs != [] && 44 + 4 * |subs| + 16 <= buf.Length
      ensures r.Read? ==> var at := 44 + 4 * |subs|;
                r.info.fd == (Get32(buf[..], at), Get32(buf[..], at + 4))
                && r.info.totalTime == Get32(buf[..], at + 8) && r.info.status == Get32(buf[..], at + 12)
    {
      var n := |subs|;
      if buf != null {
        Grown();
      }
      if buf == null || n <= 0 {
        return NoFence;
      }
      var ofs := 48 + (n - 1) * 4;
      if ofs > buf.Length {
        return NoFence;
      }
      if ofs + 16 > buf.Length {
        return PastEnd;
      }
      r := Read(FenceAt(buf[..], ofs));
    }

    // The buffer was built for the whole list, or for fewer sub-commands.
    lemma Grown()
      requires Valid() && buf != null
      ensures Slotted(image) && |places| == BuiltFor(image) <= |subs| && (|subs| == BuiltFor(image) <==> !dirty)
    {
      assert FieldAt(image, Title(handle, prop, flags, |places|), NumSc);
      if !dirty {
        assert EncodesFirst(image, Recalled(st.g, built), |st.g|);
      }
    }

    // Sub-command i writes its parameters through to the live buffer exactly
    // when that buffer was built with it. Without a buffer, the sub-commands of
    // the one built last still refer to it.
    lemma LiveEntry(i: nat)
      requires Valid() && i < |subs|
      ensures buf != null ==> subs[i].entry == if i < BuiltFor(image) then buf else null
      ensures buf == null ==> subs[i].entry == if i < |places| then home else null
      ensures buf != null && !dirty ==> subs[i].entry == buf
    {
      HomeOf(subs, |subs|, home, places, i);
      if buf != null {
        Grown();
      }
    }

    // getCmdId: the handle the header carries as uid.
    method GetCmdId() returns (uid: Handle)
      requires Valid()
      ensures uid == handle && (uid == NULL <==> buf == null)
      ensures buf != null ==> Get32(image, 8) == uid.low && Get32(image, 12) == uid.high
    {
      assert buf != null ==> FieldAt(image, Title(handle, prop, flags, |places|), Uid);
      uid := handle;
    }
  }

  // ----- a context set after the build -----

  lemma NewContext(g: Graph, cs: seq<Word>, i: nat, ctx: Word)
    requires i < |g| && i < |cs| && cs[i] != ctx
    ensures cs != Contexts(g[i := g[i].(ctx := ctx)])
  {
    assert Contexts(g[i := g[i].(ctx := ctx)])[i] == ctx;
  }

  // setCtxId on a command with a buffer that is not out of date: that is now
  // another list than the buffer was built from, and the command stays clean.
  method SetAway(c: Command, i: nat, ctx: Word)
    requires c.Valid() && i < |c.subs| && i < |c.built| && c.built[i] != ctx
    modifies c`image, c`ops, c`st, c.subs
    ensures c.Valid() && c.ops == old(c.ops) + [SetCtx(i, ctx)] && c.built != Contexts(c.st.g)
    ensures c.dirty == old(c.dirty) && c.buf == old(c.buf) && c.executing == old(c.executing)
  {
    NewContext(c.st.g, c.built, i, ctx);
    var changed := c.SetCtxId(i, ctx);
  }

  // constructCmd after that: it succeeds with a buffer that does not encode the
  // list.
  method BuildStale(c: Command, uid: Handle) returns (r: Construction)
    requires c.Valid() && !c.dirty && !c.executing && c.buf != null && c.built != Contexts(c.st.g)
    modifies c`buf, c`handle, c`dirty, c`image, c`home, c`places, c`built, c.subs, c.buf
    ensures c.Valid() && r == Built && c.buf == old(c.buf) && !Encodes(c.buf[..], c.st.g)
  {
    r := c.ConstructCmd(true, null, uid);
  }

  // ----- a header rewritten in place -----

  lemma PlacesTuned(g: Graph, i: nat, tune: Tune)
    requires i < |g|
    ensures Places(Tuned(g, i, tune)) == Places(g)
  {
    forall k | 0 <= k < |g|
      ensures Places(Tuned(g, i, tune))[k] == Places(g)[k]
    {
      TunedOfs(g, i, tune, k);
    }
  }

  lemma FreshTuned(b: seq<Byte>, b': seq<Byte>, g: Graph, i: nat, tune: Tune, places: seq<nat>)
    requires i < |g| && Fresh(b, g, places) && places[i] + SC_HDR <= |b|
    requires Only(b, b', places[i], places[i] + SC_HDR) && HdrAt(b', places[i], Tuned(g, i, tune)[i])
    ensures Fresh(b', Tuned(g, i, tune), places)
  {
    TunedEncodes(b, b', g, i, tune, places[i]);
    PlacesTuned(g, i, tune);
  }

  // Everything the buffer is known for survives new parameters in one header.
  lemma Rewritten(b: seq<Byte>, b': seq<Byte>, prop: Property, fence: bool, flags: Bitmap, uid: Handle, dirty: bool,
                  g: Graph, built: seq<Word>, places: seq<nat>, i: nat, tune: Tune)
    requires Marked(false, b, prop, fence, flags, uid, |places|) && InStep(dirty, false, b, g, built, places)
    requires i < |g| && Retuned(b, b', places, Recalled(g, built), i, tune)
    ensures Marked(false, b', prop, fence, flags, uid, |places|) && InStep(dirty, false, b', Tuned(g, i, tune), built, places)
  {
    if i < |places| {
      OnlyAgrees(b, b', places[i], places[i] + SC_HDR, 0, 36);
      TitleKept(b, b', Title(uid, prop, flags, |places|));
      if !dirty {
        RecalledTuned(g, built, i, tune);
        HeaderFor(b, Recalled(g, built), i);
        FreshTuned(b, b', Recalled(g, built), i, tune, places);
      }
    }
  }

  lemma Repainted(b: seq<Byte>, b': seq<Byte>, t: Title, t': Title, dirty: bool, g: Graph, built: seq<Word>, places: seq<nat>)
    requires Titled(b, t) && InStep(dirty, false, b, g, built, places) && t'.uid == t.uid && t'.n == t.n
    requires Agree(b, b', 0, 17) && Agree(b, b', 22, 24) && Agree(b, b', 32, |b|)
    requires FieldAt(b', t', Priority) && FieldAt(b', t', Limits) && FieldAt(b', t', Flags)
    ensures Titled(b', t') && InStep(dirty, false, b', g, built, places)
  {
    Retitled(b, b', t, t');
    if !dirty {
      EncodesKept(b, b', Recalled(g, built));
    }
  }
}
