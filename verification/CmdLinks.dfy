// The loops of addSubCmd and packSubCmd that update the lists of other
// sub-commands.
module CmdLinks {
  import opened Words
  import opened CmdGraph
  import opened CmdLayout
  import opened CmdBuffer
  import opened CmdTune
  import opened SubCommand
  import opened CmdWriter

  // A new sub-command at the end of the list.
  method NewSub(subs: seq<SubCmd>, mem: Mem, dev: nat, dep: seq<int>, ctx: Word, ghost g: Graph,
                ghost home: array?<Byte>, ghost places: seq<nat>) returns (all: seq<SubCmd>)
    requires Models(subs, g) && Homed(subs, home, places)
    ensures |all| == |subs| + 1 && all[..|subs|] == subs && fresh(all[|subs|]) && Homed(all, home, places)
    ensures Models(all, g + [Node(dev, dep, [], 0, ctx, DEFAULT_TUNE, mem.fd, mem.size)])
  {
    var s := new SubCmd(|subs|, dev, mem);
    s.node := s.node.(ctx := ctx, pred := dep, pack := 0);
    all := subs + [s];
    HomedPrefix(subs, all, |subs|, home, places);
  }

  method SetNode(subs: seq<SubCmd>, s: SubCmd, p: nat, node: Node, ghost g: Graph, ghost home: array?<Byte>, ghost places: seq<nat>)
    requires Models(subs, g) && Homed(subs, home, places) && p < |subs| && s == subs[p]
    modifies s`node
    ensures Models(subs, g[p := node]) && Homed(subs, home, places)
  {
    s.node := node;
    assert forall k :: 0 <= k < |subs| && k != p ==> subs[k].idx != s.idx;
  }

  // A copy of target over other memory, at the end of the list. A fresh
  // sub-command has no header yet, so its tuning parameters go nowhere else.
  method NewCopy(subs: seq<SubCmd>, target: SubCmd, mem: Mem, t: nat, ghost g: Graph,
                 ghost home: array?<Byte>, ghost places: seq<nat>) returns (all: seq<SubCmd>)
    requires Models(subs, g) && Homed(subs, home, places) && t < |subs| && target == subs[t] && TuneOk(g[t].tune)
    ensures |all| == |subs| + 1 && all[..|subs|] == subs && fresh(all[|subs|]) && Homed(all, home, places)
    ensures Models(all, g + [g[t].(fd := mem.fd, size := mem.size)])
  {
    var s := new SubCmd(|subs|, target.node.dev, mem);
    s.node := s.node.(pred := target.node.pred, succ := target.node.succ);
    var ok := s.SetTuneParam(target.node.tune, s.node);
    s.node := s.node.(pack := target.node.pack, ctx := target.node.ctx);
    all := subs + [s];
    HomedPrefix(subs, all, |subs|, home, places);
  }

  // Append idx to the successors of each entry of dep, up to the first entry
  // that is not an index of the list.
  method LinkBack(subs: seq<SubCmd>, dep: seq<int>, idx: nat, ghost g: Graph, ghost home: array?<Byte>, ghost places: seq<nat>)
    returns (ok: bool)
    requires Models(subs, g) && Homed(subs, home, places)
    modifies subs
    ensures ok <==> AllIn(dep, |subs|)
    ensures Models(subs, Link(g, dep, GoodPrefix(dep, |g|), idx)) && Homed(subs, home, places)
  {
    GoodPrefixAll(dep, |g|);
    var i := 0;
    while i < |dep|
      invariant i <= GoodPrefix(dep, |g|) && Models(subs, Link(g, dep, i, idx)) && Homed(subs, home, places)
    {
      var j := i + 1;
      var p := dep[i];
      if !(0 <= p < |subs|) {
        return false;
      }
      var list := subs[p].node.succ + [idx];
      SetNode(subs, subs[p], p, subs[p].node.(succ := list), Link(g, dep, i, idx), home, places);
      LinkNext(g, dep, i, j, idx);
      i := j;
    }
    ok := true;
  }

  lemma LinkNext(g: Graph, dep: seq<int>, i: nat, j: nat, idx: int)
    requires j == i + 1 <= |dep| && forall k :: 0 <= k < j ==> 0 <= dep[k] < |g|
    ensures Link(g, dep, j, idx) == PushSucc(Link(g, dep, i, idx), dep[i], idx)
  {
  }

  predicate Indices(s: seq<int>, n: nat) {
    forall k :: 0 <= k < |s| ==> 0 <= s[k] < n
  }

  lemma {:induction false} LinkPredsOthers(g: Graph, succs: seq<int>, k: nat, idx: int, v: nat)
    requires k <= |succs| && Indices(succs, |g|) && v < |g| && Indices(succs, v)
    ensures LinkPreds(g, succs, k, idx)[v] == g[v]
  {
    if k == 0 {
    } else {
      LinkPredsOthers(g, succs, k - 1, idx, v);
    }
  }

  lemma {:induction false} LinkSuccsOthers(g: Graph, preds: seq<int>, k: nat, idx: int, v: nat)
    requires k <= |preds| && Indices(preds, |g|) && v < |g| && Indices(preds, v)
    ensures LinkSuccs(g, preds, k, idx)[v] == g[v]
  {
    if k == 0 {
    } else {
      LinkSuccsOthers(g, preds, k - 1, idx, v);
    }
  }

  // The copy's successors gain it as a predecessor, each list kept sorted, and
  // the byte count grows by one entry a time.
  method AddToPreds(subs: seq<SubCmd>, s: SubCmd, ghost g: Graph, ghost succs: seq<int>, depSize: nat,
                    ghost home: array?<Byte>, ghost places: seq<nat>) returns (size: nat)
    requires Models(subs, g) && Homed(subs, home, places) && s in subs && s.node.succ == succs
    requires Indices(succs, |g|)
    modifies subs
    ensures Models(subs, LinkPreds(g, succs, |succs|, s.idx)) && Homed(subs, home, places)
    ensures size == depSize + 4 * |succs|
  {
    size := depSize;
    var i := 0;
    while i < |s.node.succ|
      invariant s.node.succ == succs && i <= |succs|
      invariant Models(subs, LinkPreds(g, succs, i, s.idx)) && Homed(subs, home, places)
      invariant size == depSize + 4 * i
    {
      var j := i + 1;
      var p := s.node.succ[i];
      var list := Sort(subs[p].node.pred + [s.idx]);
      SetNode(subs, subs[p], p, subs[p].node.(pred := list), LinkPreds(g, succs, i, s.idx), home, places);
      LinkPredsNext(g, succs, i, j, s.idx);
      size := size + 4;
      i := j;
    }
  }

  lemma LinkPredsNext(g: Graph, succs: seq<int>, i: nat, j: nat, idx: int)
    requires j == i + 1 <= |succs| && forall k :: 0 <= k < |succs| ==> 0 <= succs[k] < |g|
    ensures LinkPreds(g, succs, j, idx) == SortedPred(LinkPreds(g, succs, i, idx), succs[i], idx)
  {
  }

  // The copy's predecessors gain it as a successor, each list kept sorted.
  method AddToSuccs(subs: seq<SubCmd>, s: SubCmd, ghost g: Graph, ghost preds: seq<int>,
                    ghost home: array?<Byte>, ghost places: seq<nat>)
    requires Models(subs, g) && Homed(subs, home, places) && s in subs && s.node.pred == preds
    requires Indices(preds, |g|)
    modifies subs
    ensures Models(subs, LinkSuccs(g, preds, |preds|, s.idx)) && Homed(subs, home, places)
  {
    var i := 0;
    while i < |s.node.pred|
      invariant s.node.pred == preds && i <= |preds|
      invariant Models(subs, LinkSuccs(g, preds, i, s.idx)) && Homed(subs, home, places)
    {
      var j := i + 1;
      var p := s.node.pred[i];
      var list := Sort(subs[p].node.succ + [s.idx]);
      SetNode(subs, subs[p], p, subs[p].node.(succ := list), LinkSuccs(g, preds, i, s.idx), home, places);
      LinkSuccsNext(g, preds, i, j, s.idx);
      i := j;
    }
  }

  lemma LinkSuccsNext(g: Graph, preds: seq<int>, i: nat, j: nat, idx: int)
    requires j == i + 1 <= |preds| && forall k :: 0 <= k < |preds| ==> 0 <= preds[k] < |g|
    ensures LinkSuccs(g, preds, j, idx) == SortedSucc(LinkSuccs(g, preds, i, idx), preds[i], idx)
  {
  }

  // Sub-command i has no header in the buffer, which is as it was; or only that
  // header has changed, and has the new parameters if it was that of g before.
  ghost predicate Retuned(b: seq<Byte>, b': seq<Byte>, places: seq<nat>, g: Graph, i: nat, tune: Tune)
    requires i < |g|
  {
    if i < |places| then
      && HDR <= places[i] && places[i] + SC_HDR <= |b| && Only(b, b', places[i], places[i] + SC_HDR)
      && (HdrAt(b, places[i], g[i]) ==> HdrAt(b', places[i], Tuned(g, i, tune)[i]))
    else b' == b
  }

  // setTuneParam on one object of the list.
  method TuneSub(subs: seq<SubCmd>, s: SubCmd, i: nat, tune: Tune, ghost g: Graph, ghost h: Graph,
                 ghost home: array?<Byte>, ghost places: seq<nat>)
    returns (ok: bool)
    requires Models(subs, g) && Homed(subs, home, places) && i < |subs| && s == subs[i] && i < |h|
    modifies s`node, s.entry
    ensures ok == TuneOk(tune) && Models(subs, if ok then Tuned(g, i, tune) else g) && Homed(subs, home, places)
    ensures home != null ==> if ok then Retuned(old(home[..]), home[..], places, h, i, tune) else home[..] == old(home[..])
  {
    HomeOf(subs, |subs|, home, places, i);
    ok := s.SetTuneParam(tune, h[i]);
    assert forall k :: 0 <= k < |subs| && k != i ==> subs[k].idx != s.idx;
  }

  // setCtxId on one object of the list.
  method CtxSub(subs: seq<SubCmd>, s: SubCmd, i: nat, ctx: Word, ghost g: Graph, ghost home: array?<Byte>, ghost places: seq<nat>)
    returns (ok: bool)
    requires Models(subs, g) && Homed(subs, home, places) && i < |subs| && s == subs[i]
    modifies s`node
    ensures ok && Models(subs, g[i := g[i].(ctx := ctx)]) && Homed(subs, home, places)
  {
    ok := s.SetCtxId(ctx);
    assert forall k :: 0 <= k < |subs| && k != i ==> subs[k].idx != s.idx;
  }
}
