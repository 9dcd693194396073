// Every history of addSubCmd, packSubCmd, setTuneParam and setCtxId calls on one
// command.
module CmdHistory {
  import opened Options
  import opened Words
  import opened CmdGraph

  // The graph part of a command: its list, mPackNum and mDependencySize before
  // truncation to 32 bits.
  datatype State = State(g: Graph, packNum: nat, depBytes: nat)

  const EMPTY := State([], 0, 0)

  // A call, with the arguments that reach the graph.
  datatype Op =
    | Add(dep: seq<int>, dev: nat, ctx: Word, fd: int, size: Word)
    | Pack(target: int, dev: nat, fd: int, size: Word)
    | SetTune(target: int, tune: Tune)
    | SetCtx(target: int, ctx: Word)

  // The calls that append a sub-command.
  predicate Appends(op: Op) {
    op.Add? || op.Pack?
  }

  // vector::at throws inside these calls.
  predicate Throws(st: State, op: Op) {
    match op
    case Add(dep, dev, _, _, _) => !AllIn(dep, |st.g| + 1) || DEVICE_MAX <= dev
    case Pack(target, dev, _, _) => dev < DEVICE_MAX && target < 0
    case _ => false
  }

  // The call is turned down and changes nothing.
  predicate Rejected(st: State, op: Op) {
    match op
    case Add(_, _, _, _, _) => false
    case Pack(target, dev, _, _) =>
      DEVICE_MAX <= dev || |st.g| <= target || (0 <= target && st.g[target].dev != dev)
    case SetTune(target, tune) => !(0 <= target < |st.g|) || !TuneOk(tune)
    case SetCtx(target, _) => !(0 <= target < |st.g|)
  }

  function NewNode(dep: seq<int>, dev: nat, ctx: Word, fd: int, size: Word): Node {
    Node(dev, dep, [], 0, ctx, DEFAULT_TUNE, fd, size)
  }

  function Step(st: State, op: Op): State
    requires !Throws(st, op) && ListsInRange(st.g)
  {
    if Rejected(st, op) then st
    else
      match op
      case Add(dep, dev, ctx, fd, size) =>
        State(Added(st.g, NewNode(dep, dev, ctx, fd, size)), st.packNum, st.depBytes + 4 * (1 + |dep|))
      case Pack(target, _, fd, size) =>
        var t := st.g[target];
        State(Packed(st.g, target, st.packNum, fd, size),
              if t.pack == 0 then st.packNum + 1 else st.packNum,
              st.depBytes + 4 * (1 + |t.pred|) + 4 * |t.succ|)
      case SetTune(target, tune) =>
        State(st.g[target := st.g[target].(tune := tune)], st.packNum, st.depBytes)
      case SetCtx(target, ctx) =>
        State(st.g[target := st.g[target].(ctx := ctx)], st.packNum, st.depBytes)
  }

  // Pack numbers in use are exactly 1 .. packNum.
  ghost predicate PacksOk(st: State) {
    && (forall i :: 0 <= i < |st.g| ==> st.g[i].pack <= st.packNum)
    && (forall k :: 1 <= k <= st.packNum ==> UsesPack(st.g, k))
  }

  ghost predicate UsesPack(g: Graph, k: int) {
    exists i :: 0 <= i < |g| && g[i].pack == k
  }

  ghost predicate Invariant(st: State) {
    Consistent(st.g) && FieldsOk(st.g) && st.depBytes == 4 * SuccWords(st.g) && PacksOk(st)
  }

  // The fields other than the two lists.
  predicate SameButLists(a: Node, b: Node) {
    a == b.(pred := a.pred, succ := a.succ)
  }

  lemma AddedFields(g: Graph, node: Node, i: nat)
    requires AllIn(node.pred, |g| + 1) && i <= |g|
    ensures SameButLists(Added(g, node)[i], (g + [node])[i])
    ensures Added(g, node)[i].pred == (g + [node])[i].pred
  {
    AddEffect(g, node);
  }

  lemma PackedFields(g: Graph, t: nat, packNum: nat, fd: int, size: Word, i: nat)
    requires ListsInRange(g) && t < |g| && i <= |g|
    ensures SameButLists(Packed(g, t, packNum, fd, size)[i], PackBase(g, t, packNum, fd, size)[i])
  {
    var h := PackEffect(g, t, packNum, fd, size);
    var base, q := PackBase(g, t, packNum, fd, size), Packed(g, t, packNum, fd, size);
    assert h[i] == base[i].(pred := h[i].pred) && q[i] == h[i].(succ := q[i].succ);
  }

  // The list after a call, but for the predecessor and successor lists.
  function Base(st: State, op: Op): (r: Graph)
    requires !Throws(st, op)
  {
    if Rejected(st, op) then st.g
    else
      match op
      case Add(dep, dev, ctx, fd, size) => st.g + [NewNode(dep, dev, ctx, fd, size)]
      case Pack(target, _, fd, size) => PackBase(st.g, target, st.packNum, fd, size)
      case SetTune(target, tune) => st.g[target := st.g[target].(tune := tune)]
      case SetCtx(target, ctx) => st.g[target := st.g[target].(ctx := ctx)]
  }

  lemma StepFields(st: State, op: Op, i: nat)
    requires ListsInRange(st.g) && !Throws(st, op) && i < |Base(st, op)|
    ensures |Step(st, op).g| == |Base(st, op)| && SameButLists(Step(st, op).g[i], Base(st, op)[i])
  {
    if !Rejected(st, op) {
      match op {
        case Add(dep, dev, ctx, fd, size) => AddedFields(st.g, NewNode(dep, dev, ctx, fd, size), i);
        case Pack(target, _, fd, size) => PackedFields(st.g, target, st.packNum, fd, size, i);
        case _ =>
      }
    }
  }

  lemma StepLength(st: State, op: Op)
    requires ListsInRange(st.g) && !Throws(st, op)
    ensures |Step(st, op).g| == |Base(st, op)|
  {
  }

  lemma StepFieldsOk(st: State, op: Op)
    requires Invariant(st) && !Throws(st, op)
    ensures FieldsOk(Step(st, op).g)
  {
    StepLength(st, op);
    forall i: nat | i < |Base(st, op)|
      ensures Step(st, op).g[i].dev < DEVICE_MAX && TuneOk(Step(st, op).g[i].tune)
    {
      StepFields(st, op, i);
    }
  }

  lemma StepPacks(st: State, op: Op)
    requires Invariant(st) && !Throws(st, op)
    ensures PacksOk(Step(st, op))
  {
    var next, base := Step(st, op), Base(st, op);
    StepLength(st, op);
    forall i: nat | i < |base|
      ensures next.g[i].pack == base[i].pack
    {
      StepFields(st, op, i);
    }
    forall k | 1 <= k <= next.packNum
      ensures UsesPack(next.g, k)
    {
      var i := PackUser(st, op, base, k, next.packNum);
      assert next.g[i].pack == k;
    }
  }

  // A sub-command in pack k before the lists are linked.
  lemma PackUser(st: State, op: Op, base: Graph, k: int, num: nat) returns (i: nat)
    requires Invariant(st) && !Throws(st, op) && base == Base(st, op) && num == Step(st, op).packNum && 1 <= k <= num
    ensures i < |base| && base[i].pack == k
  {
    if k <= st.packNum {
      assert UsesPack(st.g, k);
      i :| i < |st.g| && st.g[i].pack == k;
    } else {
      i := |st.g|;
    }
  }

  lemma StepConsistent(st: State, op: Op)
    requires Consistent(st.g) && !Throws(st, op)
    ensures Consistent(Step(st, op).g)
  {
    if !Rejected(st, op) {
      match op {
        case Add(dep, dev, ctx, fd, size) => AddKeeps(st.g, NewNode(dep, dev, ctx, fd, size));
        case Pack(target, _, fd, size) => PackKeeps(st.g, target, st.packNum, fd, size);
        case SetTune(target, tune) => SameLists(st.g, target, st.g[target].(tune := tune));
        case SetCtx(target, ctx) => SameLists(st.g, target, st.g[target].(ctx := ctx));
      }
    }
  }

  lemma SameLists(g: Graph, t: nat, node: Node)
    requires Consistent(g) && t < |g| && node.pred == g[t].pred && node.succ == g[t].succ
    ensures Consistent(g[t := node])
  {
    var q := g[t := node];
    assert forall i :: 0 <= i < |g| ==> q[i].pred == g[i].pred && q[i].succ == g[i].succ;
  }

  lemma StepWords(st: State, op: Op)
    requires ListsInRange(st.g) && st.depBytes == 4 * SuccWords(st.g) && !Throws(st, op)
    ensures Step(st, op).depBytes == 4 * SuccWords(Step(st, op).g)
  {
    if !Rejected(st, op) {
      match op {
        case Add(dep, dev, ctx, fd, size) => AddEffect(st.g, NewNode(dep, dev, ctx, fd, size));
        case Pack(target, _, fd, size) => PackWords(st.g, target, st.packNum, fd, size);
        case SetTune(target, tune) => SuccWordsUpdate(st.g, target, st.g[target].(tune := tune));
        case SetCtx(target, ctx) => SuccWordsUpdate(st.g, target, st.g[target].(ctx := ctx));
      }
    }
  }

  // One call keeps the lists dual and in range, and keeps the running byte
  // count, which two methods advance in different ways, equal to what the
  // successor lists take in the buffer.
  lemma StepKeeps(st: State, op: Op)
    requires Invariant(st) && !Throws(st, op)
    ensures Invariant(Step(st, op))
  {
    StepConsistent(st, op);
    StepWords(st, op);
    StepPacks(st, op);
    StepFieldsOk(st, op);
  }

  // The state after a history, if no call in it threw.
  function Run(ops: seq<Op>): Option<State> {
    if ops == [] then Some(EMPTY)
    else
      match Run(ops[..|ops| - 1])
      case None => None
      case Some(st) =>
        var op := ops[|ops| - 1];
        if ListsInRange(st.g) && !Throws(st, op) then Some(Step(st, op)) else None
  }

  lemma {:induction false} HistoryInvariant(ops: seq<Op>)
    requires Run(ops).Some?
    ensures Invariant(Run(ops).value)
  {
    if ops == [] {
    } else {
      HistoryInvariant(ops[..|ops| - 1]);
      StepKeeps(Run(ops[..|ops| - 1]).value, ops[|ops| - 1]);
    }
  }

  // One more call.
  lemma RunPush(ops: seq<Op>, st: State, op: Op)
    requires Run(ops) == Some(st) && !Throws(st, op)
    ensures ListsInRange(st.g) && Run(ops + [op]) == Some(Step(st, op))
  {
    HistoryInvariant(ops);
    assert (ops + [op])[..|ops|] == ops;
  }

  // An added sub-command depends on itself: the one dependency index that is in
  // range of the list after the push and not before.
  predicate NamesItself(st: State, op: Op) {
    op.Add? && |st.g| in op.dep
  }

  predicate SelfFree(g: Graph) {
    forall i :: 0 <= i < |g| ==> !OnItself(g, i)
  }

  ghost predicate Acyclic(g: Graph) {
    !exists path: seq<int> :: Cycle(g, path)
  }

  // A closed walk along dependencies.
  ghost predicate Cycle(g: Graph, path: seq<int>) {
    && |path| >= 2 && path[0] == path[|path| - 1]
    && (forall k :: 0 <= k < |path| ==> 0 <= path[k] < |g|)
    && (forall k :: 0 <= k < |path| - 1 ==> path[k] in g[path[k + 1]].pred)
  }

  lemma {:induction false} RankClimbs(g: Graph, rank: seq<nat>, path: seq<int>, n: nat)
    requires Ranked(g, rank) && 0 < n < |path|
    requires forall k :: 0 <= k < |path| ==> 0 <= path[k] < |g|
    requires forall k :: 0 <= k < |path| - 1 ==> path[k] in g[path[k + 1]].pred
    ensures rank[path[0]] < rank[path[n]]
  {
    if n > 1 {
      RankClimbs(g, rank, path, n - 1);
    }
    assert path[n - 1] in g[path[n - 1 + 1]].pred;
  }

  lemma RankedAcyclic(g: Graph, rank: seq<nat>)
    requires Ranked(g, rank)
    ensures Acyclic(g)
  {
    forall path: seq<int> | Cycle(g, path)
      ensures false
    {
      RankClimbs(g, rank, path, |path| - 1);
    }
  }

  lemma SelfCycle(g: Graph, i: nat)
    requires Consistent(g) && i < |g| && i in g[i].succ
    ensures Cycle(g, [i, i])
  {
    assert multiset(g[i].pred)[i] == multiset(g[i].succ)[i];
    assert i in g[i].pred;
  }

  lemma AddSelf(g: Graph, node: Node, i: nat)
    requires ListsInRange(g) && node.succ == [] && AllIn(node.pred, |g| + 1) && i <= |g|
    ensures OnItself(Added(g, node), i) <==> if i < |g| then OnItself(g, i) else |g| in node.pred
  {
    var q, n := Added(g, node), |g|;
    AddEffect(g, node);
    SuccsExtendedAt(g + [node], q, node.pred, |node.pred|, n, i);
    assert node.pred[..|node.pred|] == node.pred;
    assert multiset(q[i].succ)[i] == multiset((g + [node])[i].succ)[i] + (if i == n then multiset(node.pred)[i] else 0);
  }

  lemma PackSelf(g: Graph, t: nat, packNum: nat, fd: int, size: Word, i: nat)
    requires ListsInRange(g) && t < |g| && i <= |g|
    ensures OnItself(Packed(g, t, packNum, fd, size), i) <==> i < |g| && OnItself(g, i)
  {
    PackEntry(g, t, packNum, fd, size, i, i);
    NotIn(g[t].pred, |g|, |g|);
    NotIn(g[t].succ, |g|, |g|);
    var base := PackBase(g, t, packNum, fd, size);
    assert multiset(Packed(g, t, packNum, fd, size)[i].succ)[i] == multiset(base[i].succ)[i];
  }

  // An entry i of its own list can only come from an addSubCmd that named itself.
  lemma StepSelfFree(st: State, op: Op)
    requires Invariant(st) && !Throws(st, op)
    ensures SelfFree(Step(st, op).g) <==> SelfFree(st.g) && !NamesItself(st, op)
  {
    if !Rejected(st, op) && Appends(op) {
      var g, n, q := st.g, |st.g|, Step(st, op).g;
      forall i: nat | i <= n
        ensures OnItself(q, i) <==> if i < n then OnItself(g, i) else NamesItself(st, op)
      {
        match op {
          case Add(dep, dev, ctx, fd, size) => AddSelf(g, NewNode(dep, dev, ctx, fd, size), i);
          case Pack(target, _, fd, size) => PackSelf(g, target, st.packNum, fd, size, i);
        }
      }
      assert SelfFree(q) ==> !OnItself(q, n);
    } else {
      assert forall i :: 0 <= i < |st.g| ==> OnItself(Step(st, op).g, i) == OnItself(st.g, i);
    }
  }

  predicate OnItself(g: Graph, i: int)
    requires 0 <= i < |g|
  {
    i in g[i].succ
  }

  lemma StepRanked(st: State, op: Op, rank: seq<nat>) returns (rank': seq<nat>)
    requires Invariant(st) && !Throws(st, op) && Ranked(st.g, rank) && !NamesItself(st, op)
    ensures Ranked(Step(st, op).g, rank')
  {
    rank' := rank;
    if !Rejected(st, op) {
      match op {
        case Add(dep, dev, ctx, fd, size) =>
          AddRanked(st.g, NewNode(dep, dev, ctx, fd, size), rank);
          rank' := rank + [|st.g|];
        case Pack(target, _, fd, size) =>
          PackRanked(st.g, target, st.packNum, fd, size, rank);
          rank' := rank + [rank[target]];
        case _ =>
      }
    }
  }

  // Some call of the history named its own index.
  ghost predicate SelfNamed(ops: seq<Op>) {
    exists k :: 0 <= k < |ops| && NamedAt(ops, k)
  }

  predicate NamedAt(ops: seq<Op>, k: nat)
    requires k < |ops|
  {
    Run(ops[..k]).Some? && NamesItself(Run(ops[..k]).value, ops[k])
  }

  lemma {:induction false} HistorySelfFree(ops: seq<Op>)
    requires Run(ops).Some?
    ensures SelfFree(Run(ops).value.g) <==> !SelfNamed(ops)
  {
    if ops == [] {
    } else {
      var n := |ops| - 1;
      var init := ops[..n];
      HistorySelfFree(init);
      HistoryInvariant(init);
      StepSelfFree(Run(init).value, ops[n]);
      SelfNamedSplit(ops);
    }
  }

  lemma SelfNamedSplit(ops: seq<Op>)
    requires ops != []
    ensures SelfNamed(ops) <==> SelfNamed(ops[..|ops| - 1]) || NamedAt(ops, |ops| - 1)
  {
    var n := |ops| - 1;
    var init := ops[..n];
    forall k: nat | k < n
      ensures NamedAt(ops, k) == NamedAt(init, k)
    {
      assert ops[..k] == init[..k];
    }
    if SelfNamed(init) {
      var k :| 0 <= k < |init| && NamedAt(init, k);
      assert NamedAt(ops, k);
    }
  }

  lemma {:induction false} HistoryRanked(ops: seq<Op>) returns (rank: seq<nat>)
    requires Run(ops).Some? && SelfFree(Run(ops).value.g)
    ensures Ranked(Run(ops).value.g, rank)
  {
    if ops == [] {
      rank := [];
    } else {
      var init, op := ops[..|ops| - 1], ops[|ops| - 1];
      HistoryInvariant(init);
      StepSelfFree(Run(init).value, op);
      rank := HistoryRanked(init);
      rank := StepRanked(Run(init).value, op, rank);
    }
  }

  // The graph of a command has no cycle, packing included, unless a call
  // listed the index of the sub-command it was adding.
  lemma HistoryAcyclic(ops: seq<Op>)
    requires Run(ops).Some?
    ensures Acyclic(Run(ops).value.g) <==> !SelfNamed(ops)
  {
    var g := Run(ops).value.g;
    HistorySelfFree(ops);
    if SelfNamed(ops) {
      HistoryInvariant(ops);
      var i :| 0 <= i < |g| && OnItself(g, i);
      SelfCycle(g, i);
    } else {
      var rank := HistoryRanked(ops);
      RankedAcyclic(g, rank);
    }
  }

  // The case exists: a first sub-command that lists index 0.
  lemma SelfDependency()
    ensures var ops := [Add([0], 1, 0, 0, 0)];
            Run(ops).Some? && !Acyclic(Run(ops).value.g)
  {
    var op := Add([0], 1, 0, 0, 0);
    assert [op][..0] == [];
    assert Run([op]) == Some(Step(EMPTY, op));
    assert NamedAt([op], 0);
    HistoryAcyclic([op]);
  }
}
