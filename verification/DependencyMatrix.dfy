// The APUSYS 2.0 command object: an adjacency matrix and pack ids changed in
// place.
module DependencyMatrix {
  import opened Options
  import opened PackGraph

  // 0, -EINVAL, or an exception out of vector::at.
  datatype Outcome = Done | Invalid | Threw

  // vector::resize on a row of flags.
  function Resized(row: seq<bool>, n: nat): (r: seq<bool>)
    ensures |r| == n
  {
    if n <= |row| then row[..n] else row + NoEdges(n - |row|)
  }

  class Command {
    var size: nat
    var adj: Matrix
    var packs: seq<nat>
    var dirty: bool
    // The calls so far.
    ghost var ops: seq<Op>

    function Value(): Graph
      reads this
    {
      Graph(adj, packs)
    }

    ghost predicate Valid()
      reads this
    {
      size == |packs| && Value() == Run(ops)
    }

    constructor ()
      ensures Valid() && ops == [] && !dirty
    {
      size, adj, packs, dirty, ops := 0, [], [], false, [];
    }

    method CreateSubCmd(deviceNum: nat) returns (r: Option<nat>)
      requires Valid()
      modifies this
      ensures Valid() && dirty == (old(dirty) || deviceNum > 0)
      ensures r == if deviceNum == 0 then None else Some(old(size))
      ensures ops == if deviceNum == 0 then old(ops) else old(ops) + [Create]
      ensures Value() == if deviceNum == 0 then old(Value()) else Created(old(Value()))
    {
      if deviceNum == 0 {
        return None;
      }
      ghost var g := Value();
      RunPush(ops, Create);
      var idx := size;
      size := size + 1;
      adj := adj + [[]];
      var i := 0;
      while i < |adj|
        invariant i <= |adj| == size == idx + 1
        invariant forall k :: 0 <= k < i ==> adj[k] == Created(g).adj[k]
        invariant forall k :: i <= k < idx ==> adj[k] == g.adj[k]
        invariant i <= idx ==> adj[idx] == []
        invariant packs == g.packs && size == |packs| + 1 && ops == old(ops)
      {
        assert if i < idx then Resized(adj[i], size) == Widened(g.adj[i]) else Resized(adj[i], size) == NoEdges(size);
        adj := adj[i := Resized(adj[i], size)];
        i := i + 1;
      }
      packs := packs + [0];
      dirty := true;
      assert adj == Created(g).adj;
      ops := ops + [Create];
      r := Some(idx);
    }

    method SetDependencyEdge(pred: Option<nat>, succ: Option<nat>) returns (r: Outcome)
      requires Valid()
      modifies this`adj, this`dirty, this`ops
      ensures Valid()
      ensures r == if pred.None? || succ.None? then Invalid
                   else if pred.value >= |packs| || succ.value >= |packs| then Threw
                   else if pred == succ || (packs[pred.value] != 0 && packs[pred.value] == packs[succ.value])
                     || old(Value()).Edge(succ.value, pred.value) then Invalid
                   else Done
      ensures r == Done ==> dirty && ops == old(ops) + [SetEdge(pred.value, succ.value)]
      ensures r == Done ==> Value() == EdgeSet(old(Value()), pred.value, succ.value)
      ensures r != Done ==> dirty == old(dirty) && ops == old(ops) && adj == old(adj)
    {
      if pred.None? || succ.None? {
        return Invalid;
      }
      var p, s := pred.value, succ.value;
      if p >= |packs| || s >= |packs| {
        return Threw;
      }
      if p == s || (packs[p] != 0 && packs[p] == packs[s]) || adj[s][p] {
        return Invalid;
      }
      AddEdge(p, s);
      r := Done;
    }

    method AddEdge(p: nat, s: nat)
      requires Valid() && Value().Has(p) && Value().Has(s) && !EdgeRefused(Value(), p, s)
      modifies this`adj, this`dirty, this`ops
      ensures Valid() && dirty && ops == old(ops) + [SetEdge(p, s)] && Value() == EdgeSet(old(Value()), p, s)
    {
      ghost var g := Value();
      RunPush(ops, SetEdge(p, s));
      AddSuccessors(p, s);
      CopyRow(p, g, s);
      dirty := true;
      ops := ops + [SetEdge(p, s)];
    }

    // Row p gains s, or everything packed with s.
    method AddSuccessors(p: nat, s: nat)
      requires Value().Square() && size == |packs| && p < size && s < size
      modifies this`adj
      ensures Value().Square() && adj == old(adj)[p := EdgeRow(old(Value()), p, s)]
    {
      ghost var g := Value();
      if packs[s] == 0 {
        adj := adj[p := adj[p][s := true]];
        assert adj[p] == EdgeRow(g, p, s);
      } else {
        var i := 0;
        while i < size
          invariant i <= size && |adj| == size && |adj[p]| == size && adj == g.adj[p := adj[p]]
          invariant forall j :: 0 <= j < size ==> (adj[p][j] <==> g.adj[p][j] || (j < i && packs[j] == packs[s]))
        {
          if packs[i] == packs[s] {
            adj := adj[p := adj[p][i := true]];
          }
          i := i + 1;
        }
        assert adj[p] == EdgeRow(g, p, s);
      }
    }

    // Every row packed with p becomes row p.
    method CopyRow(p: nat, ghost g: Graph, ghost s: nat)
      requires g.Square() && size == |packs| && packs == g.packs && p < size && s < size
      requires adj == g.adj[p := EdgeRow(g, p, s)]
      modifies this`adj
      ensures Value() == EdgeSet(g, p, s)
    {
      ghost var row := adj[p];
      if packs[p] != 0 {
        var i := 0;
        while i < size
          invariant i <= size && |adj| == size && adj[p] == row
          invariant forall k :: 0 <= k < i ==> adj[k] == EdgeSet(g, p, s).adj[k]
          invariant forall k :: i <= k < size && k != p ==> adj[k] == g.adj[k]
        {
          if packs[i] == packs[p] {
            adj := adj[i := adj[p]];
          }
          i := i + 1;
        }
      }
      assert adj == EdgeSet(g, p, s).adj;
    }

    method SetDependencyPack(main: Option<nat>, appendix: Option<nat>) returns (r: Outcome)
      requires Valid()
      modifies this`adj, this`packs, this`dirty, this`ops
      ensures Valid()
      ensures r == if main.None? || appendix.None? then Invalid
                   else if appendix.value >= |old(packs)| then Threw
                   else if old(packs)[appendix.value] != 0 then Invalid
                   else if main == appendix || main.value < |old(packs)| then Done
                   else Threw
      ensures var changed := r == Done && main != appendix;
              && (changed ==> dirty && ops == old(ops) + [SetPack(main.value, appendix.value)])
              && (changed ==> Value() == Packed(old(Value()), main.value, appendix.value))
              && (changed ==> packs[appendix.value] == packs[main.value]
                           == if old(packs)[main.value] == 0 then main.value + 1 else old(packs)[main.value])
              && (!changed ==> dirty == old(dirty) && ops == old(ops) && Value() == old(Value()))
    {
      if main.None? || appendix.None? {
        return Invalid;
      }
      var m, a := main.value, appendix.value;
      if a >= |packs| {
        return Threw;
      }
      if packs[a] != 0 {
        return Invalid;
      }
      if m == a {
        return Done;
      }
      if m >= |packs| {
        return Threw;
      }
      ghost var g := Value();
      if packs[m] == 0 {
        packs := packs[m := m + 1];
      }
      packs := packs[a := packs[m]];
      MergeRows(m, a, g);
      dirty := true;
      RunPush(ops, SetPack(m, a));
      ops := ops + [SetPack(m, a)];
      r := Done;
    }

    method MergeRows(m: nat, a: nat, ghost g: Graph)
      requires g.Square() && adj == g.adj && g.Has(m) && g.Has(a) && m != a && packs == PackIds(g, m, a)
      modifies this`adj
      ensures Value() == Packed(g, m, a)
    {
      adj := adj[a := adj[m]];
      var i := 0;
      while i < |adj|
        invariant i <= |adj| == |g.packs|
        invariant forall k :: 0 <= k < i ==> adj[k] == PackRow(g, m, a, k)
        invariant forall k :: i <= k < |adj| ==> adj[k] == g.adj[FromRow(m, a, k)]
      {
        if adj[i][m] {
          adj := adj[i := adj[i][a := true]];
        }
        i := i + 1;
      }
      assert adj == Packed(g, m, a).adj;
    }
  }

  // In every reachable state: square, packs named after a member, shared rows,
  // and roots covering their packs.
  lemma CommandSound(c: Command)
    requires c.Valid()
    ensures Sound(c.Value())
  {
    RunSound(c.ops);
  }
}
