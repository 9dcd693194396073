// The dependency matrix of an APUSYS 2.0 command as a value, and what any
// sequence of calls keeps of it.
module PackGraph {

  type Matrix = seq<seq<bool>>

  // packs[i] is 0, or one more than the index of the root of i's pack.
  datatype Graph = Graph(adj: Matrix, packs: seq<nat>) {
    predicate Square() {
      |adj| == |packs| && forall i :: 0 <= i < |adj| ==> |adj[i]| == |packs|
    }

    predicate Has(i: int) {
      0 <= i < |packs|
    }

    // i must finish before j.
    predicate Edge(i: int, j: int)
      requires Square() && Has(i) && Has(j)
    {
      adj[i][j]
    }

    predicate SamePack(i: int, j: int)
      requires Has(i) && Has(j)
    {
      i == j || (packs[i] != 0 && packs[i] == packs[j])
    }

    function Root(i: int): int
      requires Has(i)
    {
      if packs[i] == 0 then i else packs[i] - 1
    }
  }

  const EMPTY := Graph([], [])

  // ----- the three operations -----

  function Widened(row: seq<bool>): (r: seq<bool>)
    ensures |r| == |row| + 1
  {
    row + [false]
  }

  function NoEdges(n: nat): (row: seq<bool>)
    ensures |row| == n && forall j :: 0 <= j < n ==> !row[j]
  {
    seq(n, _ => false)
  }

  function Created(g: Graph): (r: Graph)
    requires g.Square()
    ensures r.Square() && |r.packs| == |g.packs| + 1
  {
    var n := |g.packs|;
    Graph(seq(n + 1, i requires 0 <= i <= n => if i < n then Widened(g.adj[i]) else NoEdges(n + 1)), g.packs + [0])
  }

  // setDependencyEdge turns these down.
  predicate EdgeRefused(g: Graph, p: int, s: int)
    requires g.Square() && g.Has(p) && g.Has(s)
  {
    g.SamePack(p, s) || g.Edge(s, p)
  }

  // Row p gains s and everything packed with it; then every row packed with p
  // becomes row p.
  function EdgeRow(g: Graph, p: int, s: int): (row: seq<bool>)
    requires g.Square() && g.Has(p) && g.Has(s)
    ensures |row| == |g.packs|
  {
    seq(|g.packs|, j requires 0 <= j < |g.packs| => g.Edge(p, j) || g.SamePack(s, j))
  }

  function EdgeSet(g: Graph, p: int, s: int): (r: Graph)
    requires g.Square() && g.Has(p) && g.Has(s)
    ensures r.Square() && r.packs == g.packs
  {
    Graph(seq(|g.packs|, i requires 0 <= i < |g.packs| => if g.SamePack(p, i) then EdgeRow(g, p, s) else g.adj[i]), g.packs)
  }

  // The appendix takes over main's row, then every row that leads to main also
  // leads to the appendix.
  function PackIds(g: Graph, m: int, a: int): (packs: seq<nat>)
    requires g.Has(m) && g.Has(a)
    ensures |packs| == |g.packs|
  {
    var id := if g.packs[m] == 0 then m + 1 else g.packs[m];
    g.packs[m := id][a := id]
  }

  function FromRow(m: int, a: int, i: int): int {
    if i == a then m else i
  }

  function PackRow(g: Graph, m: int, a: int, i: int): (row: seq<bool>)
    requires g.Square() && g.Has(m) && g.Has(a) && g.Has(i)
    ensures |row| == |g.packs|
  {
    var row := g.adj[FromRow(m, a, i)];
    if row[m] then row[a := true] else row
  }

  function Packed(g: Graph, m: int, a: int): (r: Graph)
    requires g.Square() && g.Has(m) && g.Has(a)
    ensures r.Square() && |r.packs| == |g.packs|
  {
    Graph(seq(|g.packs|, i requires 0 <= i < |g.packs| => PackRow(g, m, a, i)), PackIds(g, m, a))
  }

  datatype Op = Create | SetEdge(p: int, s: int) | SetPack(m: int, a: int)

  // The call throws, or returns without changing anything.
  predicate Idle(g: Graph, op: Op)
    requires g.Square()
  {
    match op
    case Create => false
    case SetEdge(p, s) => !g.Has(p) || !g.Has(s) || EdgeRefused(g, p, s)
    case SetPack(m, a) => !g.Has(m) || !g.Has(a) || g.packs[a] != 0 || m == a
  }

  function Step(g: Graph, op: Op): (r: Graph)
    requires g.Square()
    ensures r.Square()
  {
    if Idle(g, op) then g
    else
      match op
      case Create => Created(g)
      case SetEdge(p, s) => EdgeSet(g, p, s)
      case SetPack(m, a) => Packed(g, m, a)
  }

  function Run(ops: seq<Op>): (g: Graph)
    ensures g.Square()
  {
    if ops == [] then EMPTY else Step(Run(ops[..|ops| - 1]), ops[|ops| - 1])
  }

  // ----- what every call keeps -----

  // A pack is named after a member of it.
  predicate Rooted(g: Graph) {
    forall i :: 0 <= i < |g.packs| && g.packs[i] != 0 ==> g.packs[i] <= |g.packs| && g.packs[g.packs[i] - 1] == g.packs[i]
  }

  // Members of a pack have the same successors.
  predicate SharedRows(g: Graph)
    requires g.Square()
  {
    forall i, j :: 0 <= i < |g.packs| && 0 <= j < |g.packs| && g.SamePack(i, j) ==> g.adj[i] == g.adj[j]
  }

  // What precedes the root of a pack precedes every member.
  predicate RootCovers(g: Graph)
    requires g.Square() && Rooted(g)
  {
    forall i, j :: 0 <= i < |g.packs| && 0 <= j < |g.packs| && g.Edge(i, g.Root(j)) ==> g.Edge(i, j)
  }

  predicate Sound(g: Graph) {
    g.Square() && Rooted(g) && SharedRows(g) && RootCovers(g)
  }

  lemma RootSame(g: Graph, i: int)
    requires Sound(g) && g.Has(i)
    ensures g.Has(g.Root(i)) && g.SamePack(i, g.Root(i))
  {
  }

  lemma CreatedAt(g: Graph, i: int, j: int)
    requires g.Square() && Created(g).Has(i) && Created(g).Has(j)
    ensures Created(g).Edge(i, j) <==> g.Has(i) && g.Has(j) && g.Edge(i, j)
  {
    var n, row := |g.packs|, Created(g).adj[i];
    if i < n {
      assert row == Widened(g.adj[i]);
    } else {
      assert row == NoEdges(n + 1);
    }
  }

  lemma CreateSound(g: Graph)
    requires Sound(g)
    ensures Sound(Created(g))
  {
    var r := Created(g);
    forall i, j | 0 <= i < |r.packs| && 0 <= j < |r.packs| && r.SamePack(i, j)
      ensures r.adj[i] == r.adj[j]
    {
      if i != j {
        assert g.SamePack(i, j);
      }
    }
    forall i, j | 0 <= i < |r.packs| && 0 <= j < |r.packs| && r.Edge(i, r.Root(j))
      ensures r.Edge(i, j)
    {
      var n := |g.packs|;
      CreatedAt(g, i, j);
      CreatedAt(g, i, r.Root(j));
      if j < n {
        RootSame(g, j);
      }
    }
  }

  lemma EdgeAt(g: Graph, p: int, s: int, i: int, j: int)
    requires g.Square() && g.Has(p) && g.Has(s) && g.Has(i) && g.Has(j)
    ensures EdgeSet(g, p, s).Edge(i, j) <==> if g.SamePack(p, i) then g.Edge(p, j) || g.SamePack(s, j) else g.Edge(i, j)
  {
  }

  lemma EdgeSound(g: Graph, p: int, s: int)
    requires Sound(g) && g.Has(p) && g.Has(s)
    ensures Sound(EdgeSet(g, p, s))
  {
    var r := EdgeSet(g, p, s);
    forall i, j | 0 <= i < |r.packs| && 0 <= j < |r.packs| && r.Edge(i, r.Root(j))
      ensures r.Edge(i, j)
    {
      EdgeAt(g, p, s, i, j);
      EdgeAt(g, p, s, i, g.Root(j));
      assert g.Edge(p, g.Root(j)) ==> g.Edge(p, j);
      assert g.Edge(i, g.Root(j)) ==> g.Edge(i, j);
    }
    forall i, j | 0 <= i < |r.packs| && 0 <= j < |r.packs| && r.SamePack(i, j)
      ensures r.adj[i] == r.adj[j]
    {
      assert g.SamePack(i, j) && g.adj[i] == g.adj[j];
    }
  }

  lemma PackAt(g: Graph, m: int, a: int, i: int, j: int)
    requires g.Square() && g.Has(m) && g.Has(a) && g.Has(i) && g.Has(j)
    ensures Packed(g, m, a).Edge(i, j) <==> g.Edge(FromRow(m, a, i), j) || (j == a && g.Edge(FromRow(m, a, i), m))
  {
  }

  lemma PackRoots(g: Graph, m: int, a: int, i: int)
    requires Sound(g) && g.Has(m) && g.Has(a) && g.packs[a] == 0 && m != a && g.Has(i)
    ensures Packed(g, m, a).Root(i) == if i == a then g.Root(m) else g.Root(i)
    ensures g.Root(i) != a || i == a
    ensures g.Has(g.Root(i)) && g.Root(g.Root(i)) == g.Root(i)
  {
  }

  lemma PackRooted(g: Graph, m: int, a: int)
    requires Sound(g) && g.Has(m) && g.Has(a) && g.packs[a] == 0 && m != a
    ensures Rooted(Packed(g, m, a))
  {
    var r := Packed(g, m, a);
    forall i | 0 <= i < |r.packs| && r.packs[i] != 0
      ensures r.packs[i] <= |r.packs| && r.packs[r.packs[i] - 1] == r.packs[i]
    {
      PackRoots(g, m, a, i);
    }
  }

  lemma PackSameRows(g: Graph, m: int, a: int, i: int, j: int)
    requires Sound(g) && g.Has(m) && g.Has(a) && g.packs[a] == 0 && m != a && g.Has(i) && g.Has(j)
    requires Packed(g, m, a).SamePack(i, j)
    ensures Packed(g, m, a).adj[i] == Packed(g, m, a).adj[j]
  {
    var i', j' := FromRow(m, a, i), FromRow(m, a, j);
    PackRoots(g, m, a, i);
    PackRoots(g, m, a, j);
    assert g.SamePack(i', j');
    assert g.adj[i'] == g.adj[j'];
  }

  lemma PackSound(g: Graph, m: int, a: int)
    requires Sound(g) && g.Has(m) && g.Has(a) && g.packs[a] == 0 && m != a
    ensures Sound(Packed(g, m, a))
  {
    var r := Packed(g, m, a);
    PackRooted(g, m, a);
    forall i, j | 0 <= i < |r.packs| && 0 <= j < |r.packs| && r.SamePack(i, j)
      ensures r.adj[i] == r.adj[j]
    {
      PackSameRows(g, m, a, i, j);
    }
    forall i, j | 0 <= i < |r.packs| && 0 <= j < |r.packs| && r.Edge(i, r.Root(j))
      ensures r.Edge(i, j)
    {
      PackRoots(g, m, a, j);
      PackAt(g, m, a, i, j);
      PackAt(g, m, a, i, r.Root(j));
      var from := FromRow(m, a, i);
      assert g.Edge(from, g.Root(if j == a then m else j)) ==> g.Edge(from, if j == a then m else j);
    }
  }

  lemma StepSound(g: Graph, op: Op)
    requires Sound(g)
    ensures Sound(Step(g, op))
  {
    if !Idle(g, op) {
      match op {
        case Create => CreateSound(g);
        case SetEdge(p, s) => EdgeSound(g, p, s);
        case SetPack(m, a) => PackSound(g, m, a);
      }
    }
  }

  // Whatever the calls and their arguments.
  lemma {:induction false} RunSound(ops: seq<Op>)
    ensures Sound(Run(ops))
  {
    if ops == [] {
    } else {
      RunSound(ops[..|ops| - 1]);
      StepSound(Run(ops[..|ops| - 1]), ops[|ops| - 1]);
    }
  }

  // Setting an edge never removes one.
  lemma EdgeAdds(g: Graph, p: int, s: int, i: int, j: int)
    requires Sound(g) && g.Has(p) && g.Has(s) && g.Has(i) && g.Has(j) && g.Edge(i, j)
    ensures Step(g, SetEdge(p, s)).Edge(i, j)
  {
    EdgeAt(g, p, s, i, j);
    if g.SamePack(p, i) {
      assert g.adj[p] == g.adj[i];
    }
  }

  // ----- packs as nodes of a graph -----

  // Whether an edge exists depends only on the packs of its ends.
  predicate Uniform(g: Graph)
    requires g.Square() && Rooted(g)
  {
    forall i, j :: 0 <= i < |g.packs| && 0 <= j < |g.packs| ==> g.Edge(i, j) == g.Edge(g.Root(i), g.Root(j))
  }

  predicate NoTwoCycle(g: Graph)
    requires g.Square()
  {
    forall i, j :: 0 <= i < |g.packs| && 0 <= j < |g.packs| && g.Edge(i, j) ==> !g.Edge(j, i)
  }

  lemma UniformAt(g: Graph, i: int, j: int, i': int, j': int)
    requires Sound(g) && Uniform(g) && g.Has(i) && g.Has(j) && g.Has(i') && g.Has(j')
    requires g.SamePack(i, i') && g.SamePack(j, j')
    ensures g.Edge(i, j) == g.Edge(i', j')
  {
    assert g.Edge(i, j) == g.Edge(g.Root(i), g.Root(j));
    assert g.Edge(i', j') == g.Edge(g.Root(i'), g.Root(j'));
  }

  // A successful setDependencyEdge adds exactly the edge between the two packs.
  lemma EdgeExact(g: Graph, p: int, s: int, i: int, j: int)
    requires Sound(g) && Uniform(g) && g.Has(p) && g.Has(s) && g.Has(i) && g.Has(j)
    ensures EdgeSet(g, p, s).Edge(i, j) <==> g.Edge(i, j) || (g.SamePack(p, i) && g.SamePack(s, j))
  {
    EdgeAt(g, p, s, i, j);
    if g.SamePack(p, i) {
      assert g.adj[p] == g.adj[i];
    }
  }

  lemma EdgeUniform(g: Graph, p: int, s: int)
    requires Sound(g) && Uniform(g) && g.Has(p) && g.Has(s)
    ensures Uniform(EdgeSet(g, p, s)) 
  {
    var r := EdgeSet(g, p, s);
    EdgeSound(g, p, s);
    forall i, j | 0 <= i < |r.packs| && 0 <= j < |r.packs|
      ensures r.Edge(i, j) == r.Edge(r.Root(i), r.Root(j))
    {
      RootSame(g, i);
      RootSame(g, j);
      EdgeExact(g, p, s, i, j);
      EdgeExact(g, p, s, g.Root(i), g.Root(j));
      assert g.Edge(i, j) == g.Edge(g.Root(i), g.Root(j));
    }
  }

  lemma EdgeNoTwoCycle(g: Graph, p: int, s: int)
    requires Sound(g) && Uniform(g) && NoTwoCycle(g) && g.Has(p) && g.Has(s) && !EdgeRefused(g, p, s)
    ensures NoTwoCycle(EdgeSet(g, p, s))
  {
    var r := EdgeSet(g, p, s);
    forall i, j | 0 <= i < |r.packs| && 0 <= j < |r.packs| && r.Edge(i, j)
      ensures !r.Edge(j, i)
    {
      EdgeExact(g, p, s, i, j);
      EdgeExact(g, p, s, j, i);
      if g.SamePack(p, i) && g.SamePack(s, j) {
        UniformAt(g, j, i, s, p);
      }
      if g.SamePack(p, j) && g.SamePack(s, i) {
        UniformAt(g, i, j, s, p);
      }
    }
  }

  // A call is turned down exactly when the successor would then precede the
  // predecessor, whatever the matrix.
  lemma EdgeRefusedIff(g: Graph, p: int, s: int)
    requires g.Square() && g.Has(p) && g.Has(s)
    ensures EdgeRefused(g, p, s) <==> EdgeSet(g, p, s).Edge(p, s) && EdgeSet(g, p, s).Edge(s, p)
  {
    EdgeAt(g, p, s, p, s);
    EdgeAt(g, p, s, s, p);
  }

  // On a graph on packs without cycles of two: exactly when the edge would make
  // one, or an edge to itself.
  lemma EdgeAcceptedIff(g: Graph, p: int, s: int)
    requires Sound(g) && Uniform(g) && NoTwoCycle(g) && g.Has(p) && g.Has(s)
    ensures !EdgeRefused(g, p, s) <==> NoTwoCycle(EdgeSet(g, p, s))
  {
    if EdgeRefused(g, p, s) {
      EdgeRefusedIff(g, p, s);
    } else {
      EdgeNoTwoCycle(g, p, s);
    }
  }

  // Packing puts the appendix into main's pack, a new one if it had none, and
  // leaves every other pack as it is.
  lemma PackJoins(g: Graph, m: int, a: int, i: int, j: int)
    requires Sound(g) && g.Has(m) && g.Has(a) && g.packs[a] == 0 && m != a && g.Has(i) && g.Has(j)
    ensures Packed(g, m, a).SamePack(i, j) <==> g.SamePack(FromRow(m, a, i), FromRow(m, a, j))
    ensures Packed(g, m, a).packs[a] == Packed(g, m, a).packs[m] != 0
    ensures i != a && (i != m || g.packs[m] != 0) ==> Packed(g, m, a).packs[i] == g.packs[i]
  {
    PackRoots(g, m, a, i);
    PackRoots(g, m, a, j);
    PackRoots(g, m, a, m);
  }

  // What setDependencyPack should make of the graph: the appendix stands where
  // main stands.
  ghost predicate Merges(g: Graph, r: Graph, m: int, a: int)
    requires g.Square() && r.Square() && |r.packs| == |g.packs| && g.Has(m) && g.Has(a)
  {
    forall i, j :: 0 <= i < |g.packs| && 0 <= j < |g.packs| ==> r.Edge(i, j) == g.Edge(FromRow(m, a, i), FromRow(m, a, j))
  }

  // It does exactly when everything that precedes the appendix precedes main.
  lemma PackMergesIff(g: Graph, m: int, a: int)
    requires Sound(g) && g.Has(m) && g.Has(a) && g.packs[a] == 0 && m != a
    ensures Merges(g, Packed(g, m, a), m, a) <==> forall i :: 0 <= i < |g.packs| && i != a && g.Edge(i, a) ==> g.Edge(i, m)
  {
    var r := Packed(g, m, a);
    forall i, j | 0 <= i < |g.packs| && 0 <= j < |g.packs|
      ensures r.Edge(i, j) == g.Edge(FromRow(m, a, i), FromRow(m, a, j))
          <==> (j != a || (g.Edge(FromRow(m, a, i), a) ==> g.Edge(FromRow(m, a, i), m)))
    {
      PackAt(g, m, a, i, j);
    }
    if Merges(g, r, m, a) {
      forall i | 0 <= i < |g.packs| && i != a && g.Edge(i, a)
        ensures g.Edge(i, m)
      {
        PackAt(g, m, a, i, a);
        assert r.Edge(i, a) == g.Edge(FromRow(m, a, i), FromRow(m, a, a));
      }
    }
  }

  // It loses no edge exactly when what the appendix precedes, main precedes too.
  lemma PackLosesIff(g: Graph, m: int, a: int)
    requires Sound(g) && g.Has(m) && g.Has(a) && g.packs[a] == 0 && m != a
    ensures (forall i, j :: 0 <= i < |g.packs| && 0 <= j < |g.packs| && g.Edge(i, j) ==> Packed(g, m, a).Edge(i, j))
       <==> forall j :: 0 <= j < |g.packs| && g.Edge(a, j) ==> g.Edge(m, j) || (j == a && g.Edge(m, m))
  {
    var r := Packed(g, m, a);
    forall i, j | 0 <= i < |g.packs| && 0 <= j < |g.packs|
      ensures r.Edge(i, j) <==> g.Edge(FromRow(m, a, i), j) || (j == a && g.Edge(FromRow(m, a, i), m))
    {
      PackAt(g, m, a, i, j);
    }
  }

  // ----- runs that pack only sub-commands without edges -----

  predicate Isolated(g: Graph, a: int)
    requires g.Square() && g.Has(a)
  {
    forall i :: 0 <= i < |g.packs| ==> !g.Edge(a, i) && !g.Edge(i, a)
  }

  predicate Careful(g: Graph, op: Op)
    requires g.Square()
  {
    op.SetPack? && !Idle(g, op) ==> Isolated(g, op.a)
  }

  predicate CarefulRun(ops: seq<Op>) {
    ops == [] || (CarefulRun(ops[..|ops| - 1]) && Careful(Run(ops[..|ops| - 1]), ops[|ops| - 1]))
  }

  lemma PackUniform(g: Graph, m: int, a: int)
    requires Sound(g) && Uniform(g) && g.Has(m) && g.Has(a) && g.packs[a] == 0 && m != a && Isolated(g, a)
    ensures Merges(g, Packed(g, m, a), m, a) && Rooted(Packed(g, m, a)) && Uniform(Packed(g, m, a))
  {
    var r := Packed(g, m, a);
    PackMergesIff(g, m, a);
    PackRooted(g, m, a);
    forall i, j | 0 <= i < |r.packs| && 0 <= j < |r.packs|
      ensures r.Edge(i, j) == r.Edge(r.Root(i), r.Root(j))
    {
      var i', j' := FromRow(m, a, i), FromRow(m, a, j);
      PackRoots(g, m, a, i);
      PackRoots(g, m, a, j);
      PackRoots(g, m, a, m);
      assert r.Root(i) == g.Root(i') && r.Root(j) == g.Root(j');
      assert r.Edge(i, j) == g.Edge(i', j');
      assert r.Edge(g.Root(i'), g.Root(j')) == g.Edge(FromRow(m, a, g.Root(i')), FromRow(m, a, g.Root(j')));
      assert g.Edge(i', j') == g.Edge(g.Root(i'), g.Root(j'));
    }
  }

  lemma PackNoTwoCycle(g: Graph, m: int, a: int)
    requires Sound(g) && NoTwoCycle(g) && g.Has(m) && g.Has(a) && Merges(g, Packed(g, m, a), m, a)
    ensures NoTwoCycle(Packed(g, m, a))
  {
    var r := Packed(g, m, a);
    forall i, j | 0 <= i < |r.packs| && 0 <= j < |r.packs| && r.Edge(i, j)
      ensures !r.Edge(j, i)
    {
      assert r.Edge(i, j) == g.Edge(FromRow(m, a, i), FromRow(m, a, j));
      assert r.Edge(j, i) == g.Edge(FromRow(m, a, j), FromRow(m, a, i));
    }
  }

  lemma CreateUniform(g: Graph)
    requires Sound(g) && Uniform(g) && NoTwoCycle(g)
    ensures Rooted(Created(g)) && Uniform(Created(g)) && NoTwoCycle(Created(g))
  {
    var r, n := Created(g), |g.packs|;
    CreateSound(g);
    forall i, j | 0 <= i <= n && 0 <= j <= n
      ensures r.Edge(i, j) == r.Edge(r.Root(i), r.Root(j)) && (r.Edge(i, j) ==> !r.Edge(j, i))
    {
      CreatedAt(g, i, j);
      CreatedAt(g, j, i);
      CreatedAt(g, r.Root(i), r.Root(j));
      if i < n && j < n {
        RootSame(g, i);
        RootSame(g, j);
        assert g.Edge(i, j) == g.Edge(g.Root(i), g.Root(j));
      }
    }
  }

  // Then the matrix is a graph on packs, and no two packs precede each other.
  lemma {:induction false} CarefulUniform(ops: seq<Op>)
    requires CarefulRun(ops)
    ensures Sound(Run(ops)) && Uniform(Run(ops)) && NoTwoCycle(Run(ops))
  {
    RunSound(ops);
    if ops != [] {
      var init, op := ops[..|ops| - 1], ops[|ops| - 1];
      var g := Run(init);
      CarefulUniform(init);
      if !Idle(g, op) {
        match op {
          case Create => CreateUniform(g);
          case SetEdge(p, s) =>
            EdgeUniform(g, p, s);
            EdgeNoTwoCycle(g, p, s);
          case SetPack(m, a) =>
            PackUniform(g, m, a);
            PackNoTwoCycle(g, m, a);
        }
      }
    }
  }

  // ----- what is not kept -----

  lemma RunPush(ops: seq<Op>, op: Op)
    ensures Run(ops + [op]) == Step(Run(ops), op)
  {
    assert (ops + [op])[..|ops|] == ops;
  }

  lemma ThreeCreated() returns (ops: seq<Op>)
    ensures |Run(ops).packs| == 3 && Run(ops).packs == [0, 0, 0] && CarefulRun(ops)
    ensures forall i, j :: 0 <= i < 3 && 0 <= j < 3 ==> !Run(ops).Edge(i, j)
  {
    ops := [];
    var n := 0;
    while n < 3
      invariant n <= 3 && |Run(ops).packs| == n && CarefulRun(ops)
      invariant forall i :: 0 <= i < n ==> Run(ops).packs[i] == 0
      invariant forall i, j :: 0 <= i < n && 0 <= j < n ==> !Run(ops).Edge(i, j)
    {
      var g := Run(ops);
      RunPush(ops, Create);
      assert (ops + [Create])[..|ops|] == ops;
      forall i, j | 0 <= i <= n && 0 <= j <= n
        ensures !Created(g).Edge(i, j)
      {
        CreatedAt(g, i, j);
      }
      ops := ops + [Create];
      n := n + 1;
    }
  }

  // Only the direct reverse of an edge is refused: three edges can close a
  // cycle, even in a run without packs.
  lemma ThreeCycle() returns (ops: seq<Op>)
    ensures CarefulRun(ops) && |Run(ops).packs| == 3
    ensures Run(ops).Edge(0, 1) && Run(ops).Edge(1, 2) && Run(ops).Edge(2, 0)
  {
    ops := ThreeCreated();
    var edges, k := [(0, 1), (1, 2), (2, 0)], 0;
    while k < 3
      invariant k <= 3 && CarefulRun(ops) && Run(ops).packs == [0, 0, 0]
      invariant forall i, j :: 0 <= i < 3 && 0 <= j < 3 ==> (Run(ops).Edge(i, j) <==> j == (i + 1) % 3 && i < k)
    {
      var g, op := Run(ops), SetEdge(edges[k].0, edges[k].1);
      RunPush(ops, op);
      assert (ops + [op])[..|ops|] == ops;
      forall i, j | 0 <= i < 3 && 0 <= j < 3
        ensures EdgeSet(g, op.p, op.s).Edge(i, j) <==> j == (i + 1) % 3 && i <= k
      {
        EdgeAt(g, op.p, op.s, i, j);
      }
      ops := ops + [op];
      k := k + 1;
    }
  }

  // One edge p -> s between three new sub-commands, then 1 packed with 0.
  lemma PackAfterEdge(p: nat, s: nat) returns (ops: seq<Op>, g: Graph)
    requires p < 3 && s < 3 && p != s
    ensures g == Run(ops) && Sound(g) && g.packs == [0, 0, 0]
    ensures forall i, j :: 0 <= i < 3 && 0 <= j < 3 ==> (g.Edge(i, j) <==> i == p && j == s)
    ensures Run(ops + [SetPack(0, 1)]) == Packed(g, 0, 1) && Packed(g, 0, 1).packs == [1, 1, 0]
  {
    var three := ThreeCreated();
    var start, op := Run(three), SetEdge(p, s);
    RunPush(three, op);
    ops := three + [op];
    g := Run(ops);
    forall i, j | 0 <= i < 3 && 0 <= j < 3
      ensures g.Edge(i, j) <==> i == p && j == s
    {
      EdgeAt(start, p, s, i, j);
    }
    RunSound(ops);
    RunPush(ops, SetPack(0, 1));
  }

  // Each failure in a run: an edge of the appendix is lost,
  lemma LostEdge() returns (ops: seq<Op>)
    ensures |Run(ops).packs| == 3 && Run(ops).Edge(1, 2)
    ensures |Run(ops + [SetPack(0, 1)]).packs| == 3 && !Run(ops + [SetPack(0, 1)]).Edge(1, 2)
  {
    var g;
    ops, g := PackAfterEdge(1, 2);
    PackAt(g, 0, 1, 1, 2);
  }

  // an edge leads to one member of a pack and not to another,
  lemma SplitPack() returns (ops: seq<Op>)
    ensures var g := Run(ops + [SetPack(0, 1)]);
            Sound(g) && |g.packs| == 3 && g.SamePack(0, 1) && g.Edge(2, 1) && !g.Edge(2, 0) && !Uniform(g)
  {
    var g;
    ops, g := PackAfterEdge(2, 1);
    PackAt(g, 0, 1, 2, 1);
    PackAt(g, 0, 1, 2, 0);
    var r := Packed(g, 0, 1);
    RunSound(ops + [SetPack(0, 1)]);
    assert r.Root(2) == 2 && r.Root(1) == 0;
    assert r.Edge(2, 1) != r.Edge(r.Root(2), r.Root(1));
  }

  // and a sub-command precedes itself.
  lemma SelfEdge() returns (ops: seq<Op>)
    ensures |Run(ops + [SetPack(0, 1)]).packs| == 3 && Run(ops + [SetPack(0, 1)]).Edge(1, 1)
  {
    var g;
    ops, g := PackAfterEdge(0, 1);
    PackedOnPredecessor(g, 0, 1);
  }

  // Packing a sub-command onto its own predecessor gives it an edge to itself.
  lemma PackedOnPredecessor(g: Graph, m: int, a: int)
    requires Sound(g) && g.Has(m) && g.Has(a) && g.packs[a] == 0 && m != a && g.Edge(m, a)
    ensures Packed(g, m, a).Edge(a, a)
  {
    PackAt(g, m, a, a, a);
  }
}
