// Which calls close a cycle in the dependency matrix.
module PackCycles {
  import opened PackGraph

  // A chain of n + 1 edges from i to j.
  ghost predicate Chain(g: Graph, i: int, j: int, n: nat)
    requires g.Square() && g.Has(i) && g.Has(j)
    decreases n
  {
    if n == 0 then g.Edge(i, j)
    else exists k :: g.Has(k) && g.Edge(i, k) && Chain(g, k, j, n - 1)
  }

  ghost predicate Reaches(g: Graph, i: int, j: int)
    requires g.Square() && g.Has(i) && g.Has(j)
  {
    exists n: nat :: Chain(g, i, j, n)
  }

  ghost predicate Acyclic(g: Graph)
    requires g.Square()
  {
    forall i :: 0 <= i < |g.packs| ==> !Reaches(g, i, i)
  }

  lemma {:induction false} ChainJoin(g: Graph, i: int, j: int, k: int, n: nat, m: nat)
    requires g.Square() && g.Has(i) && g.Has(j) && g.Has(k) && Chain(g, i, j, n) && Chain(g, j, k, m)
    ensures Chain(g, i, k, n + m + 1)
    decreases n
  {
    if n == 0 {
      assert g.Edge(i, j) && Chain(g, j, k, m);
    } else {
      var h :| g.Has(h) && g.Edge(i, h) && Chain(g, h, j, n - 1);
      ChainJoin(g, h, j, k, n - 1, m);
    }
  }

  lemma ReachJoin(g: Graph, i: int, j: int, k: int)
    requires g.Square() && g.Has(i) && g.Has(j) && g.Has(k) && Reaches(g, i, j) && Reaches(g, j, k)
    ensures Reaches(g, i, k)
  {
    var n: nat :| Chain(g, i, j, n);
    var m: nat :| Chain(g, j, k, m);
    ChainJoin(g, i, j, k, n, m);
  }

  lemma EdgeReaches(g: Graph, i: int, j: int)
    requires g.Square() && g.Has(i) && g.Has(j) && g.Edge(i, j)
    ensures Reaches(g, i, j)
  {
    assert Chain(g, i, j, 0);
  }

  // Chains survive when every edge does.
  lemma {:induction false} ChainKept(g: Graph, r: Graph, i: int, j: int, n: nat)
    requires g.Square() && r.Square() && |r.packs| >= |g.packs| && g.Has(i) && g.Has(j) && Chain(g, i, j, n)
    requires forall a, b :: 0 <= a < |g.packs| && 0 <= b < |g.packs| && g.Edge(a, b) ==> r.Edge(a, b)
    ensures Chain(r, i, j, n)
    decreases n
  {
    if n == 0 {
    } else {
      var k :| g.Has(k) && g.Edge(i, k) && Chain(g, k, j, n - 1);
      ChainKept(g, r, k, j, n - 1);
      assert r.Edge(i, k);
    }
  }

  // ----- packs as ends of a chain -----

  lemma {:induction false} ChainFrom(g: Graph, i: int, i': int, j: int, n: nat)
    requires Sound(g) && Uniform(g) && g.Has(i) && g.Has(i') && g.Has(j) && g.SamePack(i, i') && Chain(g, i, j, n)
    ensures Chain(g, i', j, n)
    decreases n
  {
    if n == 0 {
      UniformAt(g, i, j, i', j);
    } else {
      var k :| g.Has(k) && g.Edge(i, k) && Chain(g, k, j, n - 1);
      UniformAt(g, i, k, i', k);
    }
  }

  lemma {:induction false} ChainTo(g: Graph, i: int, j: int, j': int, n: nat)
    requires Sound(g) && Uniform(g) && g.Has(i) && g.Has(j) && g.Has(j') && g.SamePack(j, j') && Chain(g, i, j, n)
    ensures Chain(g, i, j', n)
    decreases n
  {
    if n == 0 {
      UniformAt(g, i, j, i, j');
    } else {
      var k :| g.Has(k) && g.Edge(i, k) && Chain(g, k, j, n - 1);
      ChainTo(g, k, j, j', n - 1);
    }
  }

  // Reaching from one member of a pack to one of another is reaching from any
  // to any.
  lemma ReachPacks(g: Graph, i: int, i': int, j: int, j': int)
    requires Sound(g) && Uniform(g) && g.Has(i) && g.Has(i') && g.Has(j) && g.Has(j')
    requires g.SamePack(i, i') && g.SamePack(j, j') && Reaches(g, i, j)
    ensures Reaches(g, i', j')
  {
    var n: nat :| Chain(g, i, j, n);
    ChainFrom(g, i, i', j, n);
    ChainTo(g, i', j, j', n);
  }

  // The same pack, or a chain.
  ghost predicate Leads(g: Graph, i: int, j: int)
    requires g.Square() && g.Has(i) && g.Has(j)
  {
    g.SamePack(i, j) || Reaches(g, i, j)
  }

  lemma LeadsJoin(g: Graph, i: int, j: int, k: int)
    requires Sound(g) && Uniform(g) && g.Has(i) && g.Has(j) && g.Has(k) && Leads(g, i, j) && Leads(g, j, k)
    ensures Leads(g, i, k)
  {
    if g.SamePack(i, j) {
      if !g.SamePack(j, k) {
        ReachPacks(g, j, i, k, k);
      }
    } else if g.SamePack(j, k) {
      ReachPacks(g, i, i, j, k);
    } else {
      ReachJoin(g, i, j, k);
    }
  }

  lemma StepLeads(g: Graph, i: int, k: int, j: int)
    requires Sound(g) && Uniform(g) && g.Has(i) && g.Has(j) && g.Has(k) && g.Edge(i, k) && Leads(g, k, j)
    ensures Reaches(g, i, j)
  {
    EdgeReaches(g, i, k);
    if g.SamePack(k, j) {
      ReachPacks(g, i, i, k, j);
    } else {
      ReachJoin(g, i, k, j);
    }
  }

  // ----- one new edge -----

  // A chain in the new matrix either was there, or passes the new edge.
  ghost predicate Old(g: Graph, p: int, s: int, i: int, j: int)
    requires g.Square() && g.Has(p) && g.Has(s) && g.Has(i) && g.Has(j)
  {
    Reaches(g, i, j) || (Leads(g, i, p) && Leads(g, s, j))
  }

  lemma OldEdge(g: Graph, p: int, s: int, i: int, k: int)
    requires Sound(g) && Uniform(g) && g.Has(p) && g.Has(s) && g.Has(i) && g.Has(k) && EdgeSet(g, p, s).Edge(i, k)
    ensures g.Edge(i, k) || (g.SamePack(i, p) && g.SamePack(s, k))
  {
    EdgeExact(g, p, s, i, k);
  }

  lemma OldStep(g: Graph, p: int, s: int, i: int, k: int, j: int)
    requires Sound(g) && Uniform(g) && g.Has(p) && g.Has(s) && g.Has(i) && g.Has(j) && g.Has(k)
    requires EdgeSet(g, p, s).Edge(i, k) && Old(g, p, s, k, j)
    ensures Old(g, p, s, i, j)
  {
    OldEdge(g, p, s, i, k);
    if g.Edge(i, k) {
      if Reaches(g, k, j) {
        StepLeads(g, i, k, j);
      } else {
        StepLeads(g, i, k, p);
      }
    } else if Reaches(g, k, j) {
      ReachPacks(g, k, s, j, j);
    }
  }

  lemma {:induction false} ChainOld(g: Graph, p: int, s: int, i: int, j: int, n: nat)
    requires Sound(g) && Uniform(g) && g.Has(p) && g.Has(s) && g.Has(i) && g.Has(j) && Chain(EdgeSet(g, p, s), i, j, n)
    ensures Old(g, p, s, i, j)
    decreases n
  {
    var r := EdgeSet(g, p, s);
    if n == 0 {
      OldEdge(g, p, s, i, j);
      if g.Edge(i, j) {
        EdgeReaches(g, i, j);
      }
    } else {
      var k :| r.Has(k) && r.Edge(i, k) && Chain(r, k, j, n - 1);
      ChainOld(g, p, s, k, j, n - 1);
      OldStep(g, p, s, i, k, j);
    }
  }

  lemma EdgeChainKept(g: Graph, p: int, s: int, i: int, j: int)
    requires Sound(g) && Uniform(g) && g.Has(p) && g.Has(s) && g.Has(i) && g.Has(j) && Reaches(g, i, j)
    ensures Reaches(EdgeSet(g, p, s), i, j)
  {
    var r := EdgeSet(g, p, s);
    forall a, b | 0 <= a < |g.packs| && 0 <= b < |g.packs| && g.Edge(a, b)
      ensures r.Edge(a, b)
    {
      EdgeExact(g, p, s, a, b);
    }
    var n: nat :| Chain(g, i, j, n);
    ChainKept(g, r, i, j, n);
  }

  lemma NoNewCycle(g: Graph, p: int, s: int, i: int)
    requires Sound(g) && Uniform(g) && Acyclic(g) && g.Has(p) && g.Has(s) && !EdgeRefused(g, p, s) && !Reaches(g, s, p)
    requires g.Has(i)
    ensures !Reaches(EdgeSet(g, p, s), i, i)
  {
    if Reaches(EdgeSet(g, p, s), i, i) {
      var n: nat :| Chain(EdgeSet(g, p, s), i, i, n);
      ChainOld(g, p, s, i, i, n);
      LeadsJoin(g, s, i, p);
    }
  }

  // An accepted edge keeps an acyclic graph on packs acyclic exactly when its
  // end does not reach its start.
  lemma EdgeAcyclicIff(g: Graph, p: int, s: int)
    requires Sound(g) && Uniform(g) && Acyclic(g) && g.Has(p) && g.Has(s) && !EdgeRefused(g, p, s)
    ensures Acyclic(EdgeSet(g, p, s)) <==> !Reaches(g, s, p)
  {
    var r := EdgeSet(g, p, s);
    if Reaches(g, s, p) {
      EdgeChainKept(g, p, s, s, p);
      EdgeExact(g, p, s, p, s);
      EdgeReaches(r, p, s);
      ReachJoin(r, p, s, p);
    } else {
      forall i | 0 <= i < |r.packs|
        ensures !Reaches(r, i, i)
      {
        NoNewCycle(g, p, s, i);
      }
    }
  }

  lemma EdgeCyclic(g: Graph, p: int, s: int)
    requires Sound(g) && Uniform(g) && !Acyclic(g) && g.Has(p) && g.Has(s)
    ensures !Acyclic(EdgeSet(g, p, s))
  {
    var i :| 0 <= i < |g.packs| && Reaches(g, i, i);
    EdgeChainKept(g, p, s, i, i);
  }

  // ----- the other calls -----

  lemma {:induction false} CreatedChain(g: Graph, i: int, j: int, n: nat)
    requires Sound(g) && Created(g).Has(i) && Created(g).Has(j) && Chain(Created(g), i, j, n)
    ensures g.Has(i) && g.Has(j) && Chain(g, i, j, n)
    decreases n
  {
    var r := Created(g);
    if n == 0 {
      CreatedAt(g, i, j);
    } else {
      var k :| r.Has(k) && r.Edge(i, k) && Chain(r, k, j, n - 1);
      CreatedChain(g, k, j, n - 1);
      CreatedAt(g, i, k);
    }
  }

  lemma CreateAcyclicIff(g: Graph)
    requires Sound(g)
    ensures Acyclic(Created(g)) <==> Acyclic(g)
  {
    var r := Created(g);
    forall i | 0 <= i < |r.packs| && Reaches(r, i, i)
      ensures g.Has(i) && Reaches(g, i, i)
    {
      var n: nat :| Chain(r, i, i, n);
      CreatedChain(g, i, i, n);
    }
    forall i | 0 <= i < |g.packs| && Reaches(g, i, i)
      ensures Reaches(r, i, i)
    {
      var n: nat :| Chain(g, i, i, n);
      forall a, b | 0 <= a < |g.packs| && 0 <= b < |g.packs| && g.Edge(a, b)
        ensures r.Edge(a, b)
      {
        CreatedAt(g, a, b);
      }
      ChainKept(g, r, i, i, n);
    }
  }

  lemma MergedEdge(g: Graph, m: int, a: int, i: int, k: int)
    requires Sound(g) && g.Has(m) && g.Has(a) && Merges(g, Packed(g, m, a), m, a) && g.Has(i) && g.Has(k)
    ensures Packed(g, m, a).Edge(i, k) == g.Edge(FromRow(m, a, i), FromRow(m, a, k))
  {
  }

  lemma {:induction false} PackedChain(g: Graph, m: int, a: int, i: int, j: int, n: nat)
    requires Sound(g) && g.Has(m) && g.Has(a) && Merges(g, Packed(g, m, a), m, a) && g.Has(i) && g.Has(j)
    requires Chain(Packed(g, m, a), i, j, n)
    ensures Chain(g, FromRow(m, a, i), FromRow(m, a, j), n)
    decreases n
  {
    var r := Packed(g, m, a);
    if n == 0 {
      MergedEdge(g, m, a, i, j);
    } else {
      var k :| r.Has(k) && r.Edge(i, k) && Chain(r, k, j, n - 1);
      PackedChain(g, m, a, k, j, n - 1);
      MergedEdge(g, m, a, i, k);
    }
  }

  // A chain between sub-commands with edges does not touch one without.
  lemma {:induction false} IsolatedChain(g: Graph, m: int, a: int, i: int, j: int, n: nat)
    requires Sound(g) && g.Has(m) && g.Has(a) && Merges(g, Packed(g, m, a), m, a) && Isolated(g, a) && g.Has(i) && g.Has(j)
    requires Chain(g, i, j, n)
    ensures i != a && j != a && Chain(Packed(g, m, a), i, j, n)
    decreases n
  {
    var r := Packed(g, m, a);
    if n == 0 {
      MergedEdge(g, m, a, i, j);
    } else {
      var k :| g.Has(k) && g.Edge(i, k) && Chain(g, k, j, n - 1);
      IsolatedChain(g, m, a, k, j, n - 1);
      MergedEdge(g, m, a, i, k);
    }
  }

  lemma PackAcyclicIff(g: Graph, m: int, a: int)
    requires Sound(g) && g.Has(m) && g.Has(a) && Merges(g, Packed(g, m, a), m, a) && Isolated(g, a)
    ensures Acyclic(Packed(g, m, a)) <==> Acyclic(g)
  {
    var r := Packed(g, m, a);
    forall i | 0 <= i < |r.packs| && Reaches(r, i, i)
      ensures g.Has(FromRow(m, a, i)) && Reaches(g, FromRow(m, a, i), FromRow(m, a, i))
    {
      var n: nat :| Chain(r, i, i, n);
      PackedChain(g, m, a, i, i, n);
    }
    forall i | 0 <= i < |g.packs| && Reaches(g, i, i)
      ensures Reaches(r, i, i)
    {
      var n: nat :| Chain(g, i, i, n);
      IsolatedChain(g, m, a, i, i, n);
    }
  }

  // ----- whole runs -----

  // The call is an accepted edge that closes a cycle.
  ghost predicate Closes(g: Graph, op: Op)
    requires g.Square()
  {
    op.SetEdge? && !Idle(g, op) && Reaches(g, op.s, op.p)
  }

  lemma StepAcyclicIff(g: Graph, op: Op)
    requires Sound(g) && Uniform(g) && Careful(g, op)
    ensures Acyclic(Step(g, op)) <==> Acyclic(g) && !Closes(g, op)
  {
    if Idle(g, op) {
    } else {
      match op {
        case Create => CreateAcyclicIff(g);
        case SetEdge(p, s) =>
          if Acyclic(g) {
            EdgeAcyclicIff(g, p, s);
          } else {
            EdgeCyclic(g, p, s);
          }
        case SetPack(m, a) =>
          PackUniform(g, m, a);
          PackAcyclicIff(g, m, a);
      }
    }
  }

  ghost predicate ClosesAt(ops: seq<Op>, k: int)
    requires 0 <= k < |ops|
  {
    Closes(Run(ops[..k]), ops[k])
  }

  ghost predicate ClosesCycle(ops: seq<Op>) {
    exists k :: 0 <= k < |ops| && ClosesAt(ops, k)
  }

  lemma ClosesPrefix(ops: seq<Op>, init: seq<Op>, k: int)
    requires ops != [] && init == ops[..|ops| - 1] && 0 <= k < |init|
    ensures ClosesAt(ops, k) <==> ClosesAt(init, k)
  {
    assert init[..k] == ops[..k] && init[k] == ops[k];
  }

  lemma ClosesSplit(ops: seq<Op>, init: seq<Op>)
    requires ops != [] && init == ops[..|ops| - 1]
    ensures ClosesCycle(ops) <==> ClosesCycle(init) || ClosesAt(ops, |init|)
  {
    forall k | 0 <= k < |init|
      ensures ClosesAt(ops, k) <==> ClosesAt(init, k)
    {
      ClosesPrefix(ops, init, k);
    }
  }

  // A run that packs only sub-commands without edges ends acyclic exactly when
  // no edge it set was accepted although its end already reached its start.
  lemma {:induction false} CarefulAcyclicIff(ops: seq<Op>)
    requires CarefulRun(ops)
    ensures Acyclic(Run(ops)) <==> !ClosesCycle(ops)
    decreases |ops|
  {
    if ops == [] {
    } else {
      var init, op := ops[..|ops| - 1], ops[|ops| - 1];
      CarefulAcyclicIff(init);
      CarefulUniform(init);
      StepAcyclicIff(Run(init), op);
      ClosesSplit(ops, init);
      assert ClosesAt(ops, |init|) == Closes(Run(init), op);
    }
  }
}
