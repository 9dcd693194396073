// The sub-command graph of an APUSYS 1.0 command, as a value: what addSubCmd
// and packSubCmd make of it, and what holds after any history of calls.
module CmdGraph {
  import opened Words

  datatype Tune = Tune(boost: Byte, estimate: Word, suggest: Word, bandwidth: Word, tcmForce: bool)

  // One sub-command. pred and succ are indices into the command's list, with
  // repetitions; pack is 0 or a pack number.
  datatype Node = Node(dev: nat, pred: seq<int>, succ: seq<int>, pack: nat, ctx: Word, tune: Tune, fd: int, size: Word)

  type Graph = seq<Node>

  const DEVICE_MAX: nat := 6
  const DEVICE_MDLA: nat := 2
  const BOOST_NONE: Byte := 0xFF
  const BOOST_LIMIT: Byte := 100
  const DEFAULT_TUNE := Tune(BOOST_NONE, 0, 0, 0, false)

  // The boost values setTuneParam takes.
  predicate TuneOk(tune: Tune) {
    tune.boost <= BOOST_LIMIT || tune.boost == BOOST_NONE
  }

  predicate FieldsOk(g: Graph) {
    forall i :: 0 <= i < |g| ==> g[i].dev < DEVICE_MAX && TuneOk(g[i].tune)
  }

  // ----- std::sort -----

  function Insert(x: int, s: seq<int>): (r: seq<int>)
    ensures |r| == |s| + 1
  {
    if s == [] || x <= s[0] then [x] + s else [s[0]] + Insert(x, s[1..])
  }

  function Sort(s: seq<int>): (r: seq<int>)
    ensures |r| == |s|
  {
    if s == [] then [] else Insert(s[0], Sort(s[1..]))
  }

  predicate Sorted(s: seq<int>) {
    forall i, j :: 0 <= i < j < |s| ==> s[i] <= s[j]
  }

  lemma {:induction false} InsertKeeps(x: int, s: seq<int>)
    ensures multiset(Insert(x, s)) == multiset(s) + multiset{x}
  {
    if s != [] && s[0] < x {
      InsertKeeps(x, s[1..]);
      assert s == [s[0]] + s[1..];
    }
  }

  lemma {:induction false} InsertSorts(x: int, s: seq<int>)
    requires Sorted(s)
    ensures Sorted(Insert(x, s))
  {
    if s != [] && s[0] < x {
      InsertSorts(x, s[1..]);
      InsertKeeps(x, s[1..]);
      var r := Insert(x, s[1..]);
      forall i | 0 <= i < |r|
        ensures s[0] <= r[i]
      {
        assert r[i] in multiset(r);
        assert r[i] == x || r[i] in s[1..];
      }
    }
  }

  // Sorting permutes the list into ascending order.
  lemma {:induction false} SortSorts(s: seq<int>)
    ensures multiset(Sort(s)) == multiset(s) && Sorted(Sort(s))
  {
    if s == [] {
    } else {
      SortSorts(s[1..]);
      InsertKeeps(s[0], Sort(s[1..]));
      InsertSorts(s[0], Sort(s[1..]));
      assert s == [s[0]] + s[1..];
    }
  }

  // ----- the two graph operations -----

  predicate AllIn(s: seq<int>, n: nat) {
    forall v :: v in s ==> 0 <= v < n
  }

  // vector::at throws on the first index outside the list.
  function GoodPrefix(dep: seq<int>, n: nat): (k: nat)
    ensures k <= |dep|
    ensures forall i :: 0 <= i < k ==> 0 <= dep[i] < n
    ensures k < |dep| ==> !(0 <= dep[k] < n)
  {
    if dep == [] || !(0 <= dep[0] < n) then 0 else 1 + GoodPrefix(dep[1..], n)
  }

  function PushSucc(g: Graph, p: int, idx: int): (r: Graph)
    requires 0 <= p < |g|
    ensures |r| == |g|
  {
    g[p := g[p].(succ := g[p].succ + [idx])]
  }

  // Append idx to the successor lists of dep[0], ..., dep[k-1] in turn.
  function Link(g: Graph, dep: seq<int>, k: nat, idx: int): (r: Graph)
    requires k <= |dep| && forall i :: 0 <= i < k ==> 0 <= dep[i] < |g|
    ensures |r| == |g|
  {
    if k == 0 then g else PushSucc(Link(g, dep, k - 1, idx), dep[k - 1], idx)
  }

  // The list after addSubCmd pushed a node with this dependency list; if an
  // index is bad the successors named before it have been updated already.
  function Added(g: Graph, node: Node): (r: Graph)
    ensures |r| == |g| + 1
  {
    Link(g + [node], node.pred, GoodPrefix(node.pred, |g| + 1), |g|)
  }

  function SortedPred(g: Graph, s: int, idx: int): (r: Graph)
    requires 0 <= s < |g|
    ensures |r| == |g|
  {
    g[s := g[s].(pred := Sort(g[s].pred + [idx]))]
  }

  function SortedSucc(g: Graph, p: int, idx: int): (r: Graph)
    requires 0 <= p < |g|
    ensures |r| == |g|
  {
    g[p := g[p].(succ := Sort(g[p].succ + [idx]))]
  }

  function LinkPreds(g: Graph, succs: seq<int>, k: nat, idx: int): (r: Graph)
    requires k <= |succs| && forall i :: 0 <= i < k ==> 0 <= succs[i] < |g|
    ensures |r| == |g|
  {
    if k == 0 then g else SortedPred(LinkPreds(g, succs, k - 1, idx), succs[k - 1], idx)
  }

  function LinkSuccs(g: Graph, preds: seq<int>, k: nat, idx: int): (r: Graph)
    requires k <= |preds| && forall i :: 0 <= i < k ==> 0 <= preds[i] < |g|
    ensures |r| == |g|
  {
    if k == 0 then g else SortedSucc(LinkSuccs(g, preds, k - 1, idx), preds[k - 1], idx)
  }

  predicate ListsInRange(g: Graph) {
    forall i :: 0 <= i < |g| ==> AllIn(g[i].pred, |g|) && AllIn(g[i].succ, |g|)
  }

  // The list with its target numbered and the copy of the target pushed.
  function PackBase(g: Graph, t: nat, packNum: nat, fd: int, size: Word): (r: Graph)
    requires t < |g|
    ensures |r| == |g| + 1
  {
    var id := if g[t].pack == 0 then packNum + 1 else g[t].pack;
    g[t := g[t].(pack := id)] + [g[t].(pack := id, fd := fd, size := size)]
  }

  // The list after packSubCmd made a copy of sub-command t.
  function Packed(g: Graph, t: nat, packNum: nat, fd: int, size: Word): (r: Graph)
    requires t < |g| && ListsInRange(g)
    ensures |r| == |g| + 1
  {
    var base := PackBase(g, t, packNum, fd, size);
    assert forall i :: 0 <= i < |g[t].succ| ==> g[t].succ[i] in g[t].succ;
    assert forall i :: 0 <= i < |g[t].pred| ==> g[t].pred[i] in g[t].pred;
    var h := LinkPreds(base, g[t].succ, |g[t].succ|, |g|);
    LinkSuccs(h, g[t].pred, |g[t].pred|, |g|)
  }

  // ----- what every history keeps -----

  // j depends on i as often as i lists j as a successor.
  ghost predicate Dual(g: Graph) {
    forall i, j :: 0 <= i < |g| && 0 <= j < |g| ==> multiset(g[i].pred)[j] == multiset(g[j].succ)[i]
  }

  // Words of the encoded successor lists: a count and the entries of each.
  function SuccWords(g: Graph): nat {
    if g == [] then 0 else SuccWords(g[..|g| - 1]) + 1 + |g[|g| - 1].succ|
  }

  // A topological numbering: every predecessor ranks strictly lower.
  ghost predicate Ranked(g: Graph, rank: seq<nat>) {
    && |rank| == |g|
    && (forall i :: 0 <= i < |g| ==> rank[i] <= i)
    && (forall i, p :: 0 <= i < |g| && 0 <= p < |g| && p in g[i].pred ==> rank[p] < rank[i])
  }

  // s holds what t holds and n more copies of v.
  ghost predicate Extends(s: seq<int>, t: seq<int>, v: int, n: nat) {
    forall u :: multiset(s)[u] == multiset(t)[u] + (if u == v then n else 0)
  }

  // How often j occurs among the first k entries.
  function Count(s: seq<int>, k: nat, j: int): nat
    requires k <= |s|
  {
    multiset(s[..k])[j]
  }

  lemma {:induction false} SuccWordsUpdate(g: Graph, i: nat, node: Node)
    requires i < |g|
    ensures SuccWords(g[i := node]) == SuccWords(g) - |g[i].succ| + |node.succ|
  {
    var n := |g| - 1;
    if i == n {
      assert g[i := node][..n] == g[..n];
    } else {
      assert g[i := node][..n] == g[..n][i := node];
      SuccWordsUpdate(g[..n], i, node);
    }
  }

  lemma ExtendStep(s: seq<int>, t: seq<int>, v: int, n: nat)
    requires Extends(s, t, v, n)
    ensures Extends(s + [v], t, v, n + 1)
    ensures Extends(Sort(s + [v]), t, v, n + 1)
  {
    SortSorts(s + [v]);
    assert multiset(s + [v]) == multiset(s) + multiset{v};
  }

  lemma CountStep(s: seq<int>, k: nat, j: int)
    requires k < |s|
    ensures Count(s, k + 1, j) == Count(s, k, j) + (if s[k] == j then 1 else 0)
  {
    assert s[..k + 1] == s[..k] + [s[k]];
  }

  ghost predicate SuccsExtended(g: Graph, r: Graph, list: seq<int>, k: nat, idx: int)
    requires |g| == |r| && k <= |list|
  {
    forall j :: 0 <= j < |g| ==>
      r[j] == g[j].(succ := r[j].succ) && Extends(r[j].succ, g[j].succ, idx, Count(list, k, j))
  }

  ghost predicate PredsExtended(g: Graph, r: Graph, list: seq<int>, k: nat, idx: int)
    requires |g| == |r| && k <= |list|
  {
    forall j :: 0 <= j < |g| ==>
      r[j] == g[j].(pred := r[j].pred) && Extends(r[j].pred, g[j].pred, idx, Count(list, k, j))
  }

  lemma SuccsExtendedAt(g: Graph, r: Graph, list: seq<int>, k: nat, idx: int, j: int)
    requires |g| == |r| && k <= |list| && SuccsExtended(g, r, list, k, idx) && 0 <= j < |g|
    ensures Extends(r[j].succ, g[j].succ, idx, Count(list, k, j))
  {
  }

  lemma PredsExtendedAt(g: Graph, r: Graph, list: seq<int>, k: nat, idx: int, j: int)
    requires |g| == |r| && k <= |list| && PredsExtended(g, r, list, k, idx) && 0 <= j < |g|
    ensures Extends(r[j].pred, g[j].pred, idx, Count(list, k, j))
  {
  }

  lemma SuccsExtendedStep(g: Graph, h: Graph, list: seq<int>, k: nat, j: nat, idx: int, succ: seq<int>)
    requires |g| == |h| && j == k + 1 <= |list| && 0 <= list[k] < |g| && SuccsExtended(g, h, list, k, idx)
    requires Extends(succ, g[list[k]].succ, idx, Count(list, k, list[k]) + 1)
    ensures SuccsExtended(g, h[list[k] := h[list[k]].(succ := succ)], list, j, idx)
  {
    var r := h[list[k] := h[list[k]].(succ := succ)];
    forall i | 0 <= i < |g|
      ensures r[i] == g[i].(succ := r[i].succ)
      ensures Extends(r[i].succ, g[i].succ, idx, Count(list, j, i))
    {
      CountStep(list, k, i);
    }
  }

  lemma PredsExtendedStep(g: Graph, h: Graph, list: seq<int>, k: nat, j: nat, idx: int, pred: seq<int>)
    requires |g| == |h| && j == k + 1 <= |list| && 0 <= list[k] < |g| && PredsExtended(g, h, list, k, idx)
    requires Extends(pred, g[list[k]].pred, idx, Count(list, k, list[k]) + 1)
    ensures PredsExtended(g, h[list[k] := h[list[k]].(pred := pred)], list, j, idx)
  {
    var r := h[list[k] := h[list[k]].(pred := pred)];
    forall i | 0 <= i < |g|
      ensures r[i] == g[i].(pred := r[i].pred)
      ensures Extends(r[i].pred, g[i].pred, idx, Count(list, j, i))
    {
      CountStep(list, k, i);
    }
  }

  lemma {:induction false} LinkEffect(g: Graph, dep: seq<int>, k: nat, idx: int)
    requires k <= |dep| && forall i :: 0 <= i < k ==> 0 <= dep[i] < |g|
    ensures SuccsExtended(g, Link(g, dep, k, idx), dep, k, idx)
  {
    if k == 0 {
    } else {
      LinkEffect(g, dep, k - 1, idx);
      var h := Link(g, dep, k - 1, idx);
      var d := dep[k - 1];
      SuccsExtendedAt(g, h, dep, k - 1, idx, d);
      ExtendStep(h[d].succ, g[d].succ, idx, Count(dep, k - 1, d));
      SuccsExtendedStep(g, h, dep, k - 1, k, idx, h[d].succ + [idx]);
    }
  }

  lemma {:induction false} LinkPredsEffect(g: Graph, succs: seq<int>, k: nat, idx: int)
    requires k <= |succs| && forall i :: 0 <= i < k ==> 0 <= succs[i] < |g|
    ensures PredsExtended(g, LinkPreds(g, succs, k, idx), succs, k, idx)
  {
    if k == 0 {
    } else {
      LinkPredsEffect(g, succs, k - 1, idx);
      var h := LinkPreds(g, succs, k - 1, idx);
      var d := succs[k - 1];
      PredsExtendedAt(g, h, succs, k - 1, idx, d);
      ExtendStep(h[d].pred, g[d].pred, idx, Count(succs, k - 1, d));
      PredsExtendedStep(g, h, succs, k - 1, k, idx, Sort(h[d].pred + [idx]));
    }
  }

  lemma {:induction false} LinkSuccsEffect(g: Graph, preds: seq<int>, k: nat, idx: int)
    requires k <= |preds| && forall i :: 0 <= i < k ==> 0 <= preds[i] < |g|
    ensures SuccsExtended(g, LinkSuccs(g, preds, k, idx), preds, k, idx)
  {
    if k == 0 {
    } else {
      LinkSuccsEffect(g, preds, k - 1, idx);
      var h := LinkSuccs(g, preds, k - 1, idx);
      var d := preds[k - 1];
      SuccsExtendedAt(g, h, preds, k - 1, idx, d);
      ExtendStep(h[d].succ, g[d].succ, idx, Count(preds, k - 1, d));
      SuccsExtendedStep(g, h, preds, k - 1, k, idx, Sort(h[d].succ + [idx]));
    }
  }

  lemma {:induction false} LinkWords(g: Graph, dep: seq<int>, k: nat, idx: int)
    requires k <= |dep| && forall i :: 0 <= i < k ==> 0 <= dep[i] < |g|
    ensures SuccWords(Link(g, dep, k, idx)) == SuccWords(g) + k
  {
    if k == 0 {
    } else {
      LinkWords(g, dep, k - 1, idx);
      var h := Link(g, dep, k - 1, idx);
      var d := dep[k - 1];
      SuccWordsUpdate(h, d, h[d].(succ := h[d].succ + [idx]));
    }
  }

  lemma {:induction false} LinkPredsWords(g: Graph, succs: seq<int>, k: nat, idx: int)
    requires k <= |succs| && forall i :: 0 <= i < k ==> 0 <= succs[i] < |g|
    ensures SuccWords(LinkPreds(g, succs, k, idx)) == SuccWords(g)
  {
    if k == 0 {
    } else {
      LinkPredsWords(g, succs, k - 1, idx);
      var h := LinkPreds(g, succs, k - 1, idx);
      var d := succs[k - 1];
      SuccWordsUpdate(h, d, h[d].(pred := Sort(h[d].pred + [idx])));
    }
  }

  lemma {:induction false} LinkSuccsWords(g: Graph, preds: seq<int>, k: nat, idx: int)
    requires k <= |preds| && forall i :: 0 <= i < k ==> 0 <= preds[i] < |g|
    ensures SuccWords(LinkSuccs(g, preds, k, idx)) == SuccWords(g) + k
  {
    if k == 0 {
    } else {
      LinkSuccsWords(g, preds, k - 1, idx);
      var h := LinkSuccs(g, preds, k - 1, idx);
      var d := preds[k - 1];
      SuccWordsUpdate(h, d, h[d].(succ := Sort(h[d].succ + [idx])));
    }
  }

  lemma NotIn(s: seq<int>, n: nat, v: int)
    requires AllIn(s, n) && !(0 <= v < n)
    ensures multiset(s)[v] == 0
  {
    assert v !in s;
  }

  lemma ExtendsIn(s: seq<int>, t: seq<int>, v: int, n: nat, bound: nat)
    requires Extends(s, t, v, n) && AllIn(t, bound) && 0 <= v < bound
    ensures AllIn(s, bound)
  {
    forall u | u in s
      ensures 0 <= u < bound
    {
      assert multiset(s)[u] > 0;
      if u != v {
        assert multiset(t)[u] > 0;
        assert u in t;
      }
    }
  }

  // What makes a list a consistent command.
  ghost predicate Consistent(g: Graph) {
    ListsInRange(g) && Dual(g)
  }

  lemma GoodPrefixAll(dep: seq<int>, n: nat)
    ensures GoodPrefix(dep, n) == |dep| <==> AllIn(dep, n)
  {
    var k := GoodPrefix(dep, n);
    if k < |dep| {
      assert dep[k] in dep;
    }
  }

  lemma AddEffect(g: Graph, node: Node)
    requires AllIn(node.pred, |g| + 1)
    ensures SuccsExtended(g + [node], Added(g, node), node.pred, |node.pred|, |g|)
    ensures SuccWords(Added(g, node)) == SuccWords(g) + 1 + |node.succ| + |node.pred|
  {
    var base := g + [node];
    GoodPrefixAll(node.pred, |g| + 1);
    LinkEffect(base, node.pred, |node.pred|, |g|);
    LinkWords(base, node.pred, |node.pred|, |g|);
    assert base[..|g|] == g;
  }

  lemma AddInRange(g: Graph, node: Node)
    requires ListsInRange(g) && node.succ == [] && AllIn(node.pred, |g| + 1)
    ensures ListsInRange(Added(g, node))
  {
    var n, dep, base, r := |g|, node.pred, g + [node], Added(g, node);
    AddEffect(g, node);
    forall i | 0 <= i <= n
      ensures AllIn(r[i].pred, n + 1) && AllIn(r[i].succ, n + 1)
    {
      SuccsExtendedAt(base, r, dep, |dep|, n, i);
      assert AllIn(base[i].pred, n + 1) && AllIn(base[i].succ, n + 1);
      ExtendsIn(r[i].succ, base[i].succ, n, Count(dep, |dep|, i), n + 1);
    }
  }

  lemma AddDual(g: Graph, node: Node, i: nat, j: nat)
    requires Consistent(g) && node.succ == [] && AllIn(node.pred, |g| + 1)
    requires i <= |g| && j <= |g|
    ensures multiset(Added(g, node)[i].pred)[j] == multiset(Added(g, node)[j].succ)[i]
  {
    var n, dep, base, r := |g|, node.pred, g + [node], Added(g, node);
    AddEffect(g, node);
    SuccsExtendedAt(base, r, dep, |dep|, n, j);
    assert dep[..|dep|] == dep;
    assert r[i].pred == base[i].pred;
    if i < n && j == n {
      NotIn(g[i].pred, n, n);
    } else if i == n && j < n {
      NotIn(g[j].succ, n, n);
    }
  }

  lemma AddKeeps(g: Graph, node: Node)
    requires Consistent(g) && node.succ == [] && AllIn(node.pred, |g| + 1)
    ensures Consistent(Added(g, node))
  {
    AddInRange(g, node);
    forall i, j | 0 <= i <= |g| && 0 <= j <= |g|
      ensures multiset(Added(g, node)[i].pred)[j] == multiset(Added(g, node)[j].succ)[i]
    {
      AddDual(g, node, i, j);
    }
  }

  lemma AddRanked(g: Graph, node: Node, rank: seq<nat>)
    requires ListsInRange(g) && Ranked(g, rank) && AllIn(node.pred, |g|)
    ensures Ranked(Added(g, node), rank + [|g|])
  {
    var n, base, r, rank' := |g|, g + [node], Added(g, node), rank + [|g|];
    AddEffect(g, node);
    forall i, p | 0 <= i <= n && 0 <= p <= n && p in r[i].pred
      ensures rank'[p] < rank'[i]
    {
      assert r[i].pred == base[i].pred;
    }
  }

  // The pieces of packSubCmd.
  lemma PackEffect(g: Graph, t: nat, packNum: nat, fd: int, size: Word) returns (h: Graph)
    requires t < |g| && ListsInRange(g)
    ensures var base := PackBase(g, t, packNum, fd, size);
            && |h| == |g| + 1
            && PredsExtended(base, h, g[t].succ, |g[t].succ|, |g|)
            && SuccsExtended(h, Packed(g, t, packNum, fd, size), g[t].pred, |g[t].pred|, |g|)
            && SuccWords(Packed(g, t, packNum, fd, size)) == SuccWords(base) + |g[t].pred|
  {
    var base := PackBase(g, t, packNum, fd, size);
    assert forall i :: 0 <= i < |g[t].succ| ==> g[t].succ[i] in g[t].succ;
    assert forall i :: 0 <= i < |g[t].pred| ==> g[t].pred[i] in g[t].pred;
    h := LinkPreds(base, g[t].succ, |g[t].succ|, |g|);
    LinkPredsEffect(base, g[t].succ, |g[t].succ|, |g|);
    LinkPredsWords(base, g[t].succ, |g[t].succ|, |g|);
    LinkSuccsEffect(h, g[t].pred, |g[t].pred|, |g|);
    LinkSuccsWords(h, g[t].pred, |g[t].pred|, |g|);
  }

  lemma PackWords(g: Graph, t: nat, packNum: nat, fd: int, size: Word)
    requires t < |g| && ListsInRange(g)
    ensures SuccWords(Packed(g, t, packNum, fd, size)) == SuccWords(g) + 1 + |g[t].succ| + |g[t].pred|
  {
    var h := PackEffect(g, t, packNum, fd, size);
    var base := PackBase(g, t, packNum, fd, size);
    SuccWordsUpdate(g, t, base[t]);
    assert base[..|g|] == g[t := base[t]];
  }

  lemma PackInRange(g: Graph, t: nat, packNum: nat, fd: int, size: Word)
    requires ListsInRange(g) && t < |g|
    ensures ListsInRange(Packed(g, t, packNum, fd, size))
  {
    var n, P, S := |g|, g[t].pred, g[t].succ;
    var base, q := PackBase(g, t, packNum, fd, size), Packed(g, t, packNum, fd, size);
    var h := PackEffect(g, t, packNum, fd, size);
    forall i | 0 <= i <= n
      ensures AllIn(q[i].pred, n + 1) && AllIn(q[i].succ, n + 1)
    {
      PredsExtendedAt(base, h, S, |S|, n, i);
      SuccsExtendedAt(h, q, P, |P|, n, i);
      assert AllIn(base[i].pred, n + 1) && AllIn(base[i].succ, n + 1);
      ExtendsIn(h[i].pred, base[i].pred, n, Count(S, |S|, i), n + 1);
      ExtendsIn(q[i].succ, h[i].succ, n, Count(P, |P|, i), n + 1);
      assert q[i].pred == h[i].pred && h[i].succ == base[i].succ;
    }
  }

  // Both lists of every node, entry by entry.
  lemma PackEntry(g: Graph, t: nat, packNum: nat, fd: int, size: Word, i: nat, j: nat)
    requires ListsInRange(g) && t < |g| && i <= |g|
    ensures var base, q := PackBase(g, t, packNum, fd, size), Packed(g, t, packNum, fd, size);
            && multiset(q[i].pred)[j] == multiset(base[i].pred)[j] + (if j == |g| then multiset(g[t].succ)[i] else 0)
            && multiset(q[i].succ)[j] == multiset(base[i].succ)[j] + (if j == |g| then multiset(g[t].pred)[i] else 0)
  {
    var n, P, S := |g|, g[t].pred, g[t].succ;
    var base, q := PackBase(g, t, packNum, fd, size), Packed(g, t, packNum, fd, size);
    var h := PackEffect(g, t, packNum, fd, size);
    assert S[..|S|] == S && P[..|P|] == P;
    PredsExtendedAt(base, h, S, |S|, n, i);
    SuccsExtendedAt(h, q, P, |P|, n, i);
    assert q[i].pred == h[i].pred && h[i].succ == base[i].succ;
  }

  lemma PackDual(g: Graph, t: nat, packNum: nat, fd: int, size: Word, i: nat, j: nat)
    requires Consistent(g) && t < |g| && i <= |g| && j <= |g|
    ensures var q := Packed(g, t, packNum, fd, size);
            multiset(q[i].pred)[j] == multiset(q[j].succ)[i]
  {
    var n := |g|;
    PackEntry(g, t, packNum, fd, size, i, j);
    PackEntry(g, t, packNum, fd, size, j, i);
    if i < n && j == n {
      NotIn(g[i].pred, n, n);
    } else if i == n && j < n {
      NotIn(g[j].succ, n, n);
    } else if i == n && j == n {
      NotIn(g[t].pred, n, n);
      NotIn(g[t].succ, n, n);
    }
  }

  lemma PackKeeps(g: Graph, t: nat, packNum: nat, fd: int, size: Word)
    requires Consistent(g) && t < |g|
    ensures Consistent(Packed(g, t, packNum, fd, size))
  {
    PackInRange(g, t, packNum, fd, size);
    var q := Packed(g, t, packNum, fd, size);
    forall i, j | 0 <= i <= |g| && 0 <= j <= |g|
      ensures multiset(q[i].pred)[j] == multiset(q[j].succ)[i]
    {
      PackDual(g, t, packNum, fd, size, i, j);
    }
  }

  // Packing adds edges from the new, higher index to lower ones; ranking the
  // copy with its target still orders every edge.
  lemma PackRanked(g: Graph, t: nat, packNum: nat, fd: int, size: Word, rank: seq<nat>)
    requires Consistent(g) && t < |g| && Ranked(g, rank)
    ensures Ranked(Packed(g, t, packNum, fd, size), rank + [rank[t]])
  {
    var n, q, rank' := |g|, Packed(g, t, packNum, fd, size), rank + [rank[t]];
    forall i, p | 0 <= i <= n && 0 <= p <= n && p in q[i].pred
      ensures rank'[p] < rank'[i]
    {
      assert multiset(q[i].pred)[p] > 0;
      PackEntry(g, t, packNum, fd, size, i, p);
      if p == n {
        NotIn(g[if i < n then i else t].pred, n, n);
        assert multiset(g[t].succ)[i] > 0;
        assert i in g[t].succ;
        assert multiset(g[i].pred)[t] == multiset(g[t].succ)[i];
        assert t in g[i].pred;
      } else {
        assert p in PackBase(g, t, packNum, fd, size)[i].pred;
      }
    }
  }
}
