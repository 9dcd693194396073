// Several copies of pixels of one shape, as the lanes of one descriptor make
// them: when they touch different cells their order does not matter.
module LaneCopies {
  import opened Machine

  datatype Route = Route(from: Grid, to: Grid)

  ghost predicate Carries(d: Desc, r: Route, h: nat, w: nat, c: nat) {
    d.Copy? && !d.swap && Streams(d.src, r.from, h, w, c) && Streams(d.dst, r.to, h, w, c)
  }

  ghost predicate CarriesAll(q: seq<Desc>, rs: seq<Route>, h: nat, w: nat, c: nat) {
    |q| == |rs| && forall i :: 0 <= i < |rs| ==> Carries(q[i], rs[i], h, w, c)
  }

  // No cell is written twice, and none is read that another route writes.
  ghost predicate Disjoint(rs: seq<Route>, h: nat, w: nat, c: nat) {
    && (forall i :: 0 <= i < |rs| ==> Injective(rs[i].to, h, w, c))
    && (forall i, j :: 0 <= i < |rs| && 0 <= j < |rs| ==> Apart(rs[i].from, rs[j].to, h, w, c))
    && forall i, j :: 0 <= i < j < |rs| ==> Apart(rs[i].to, rs[j].to, h, w, c)
  }

  // Every byte is now where the route takes it.
  ghost predicate Moved(r: Route, h: nat, w: nat, c: nat, s: Store, u: Store) {
    forall y: nat, x: nat, b: nat :: y < h && x < w && b < c && r.to.At(y, x, b) < CELLS ==>
      Get(u, r.to.At(y, x, b)) == Get(s, r.from.At(y, x, b))
  }

  ghost predicate RoutesWrite(rs: seq<Route>, h: nat, w: nat, c: nat, a: int) {
    exists i :: 0 <= i < |rs| && Writes(rs[i].to, h, w, c, a)
  }

  lemma DisjointTail(rs: seq<Route>, h: nat, w: nat, c: nat)
    requires rs != [] && Disjoint(rs, h, w, c)
    ensures Disjoint(rs[1..], h, w, c)
  {
    forall i, j | 0 <= i < |rs| - 1 && 0 <= j < |rs| - 1
      ensures Apart(rs[1..][i].from, rs[1..][j].to, h, w, c)
      ensures i < j ==> Apart(rs[1..][i].to, rs[1..][j].to, h, w, c)
    {
      assert rs[1..][i] == rs[i + 1] && rs[1..][j] == rs[j + 1];
    }
    forall i | 0 <= i < |rs| - 1
      ensures Injective(rs[1..][i].to, h, w, c)
    {
      assert rs[1..][i] == rs[i + 1];
    }
  }

  // The first route is done; a later route finds its bytes untouched.
  lemma LaterMoved(r: Route, first: Route, h: nat, w: nat, c: nat, s: Store, s1: Store, u: Store)
    requires Apart(r.from, first.to, h, w, c) && Moved(r, h, w, c, s1, u)
    requires forall a :: 0 <= a < CELLS && !Writes(first.to, h, w, c, a) ==> s1[a] == s[a]
    ensures Moved(r, h, w, c, s, u)
  {
    forall y: nat, x: nat, b: nat | y < h && x < w && b < c && r.to.At(y, x, b) < CELLS
      ensures Get(u, r.to.At(y, x, b)) == Get(s, r.from.At(y, x, b))
    {
      assert !Writes(first.to, h, w, c, r.from.At(y, x, b));
    }
  }

  lemma FirstStays(r: Route, rest: seq<Route>, h: nat, w: nat, c: nat, s: Store, s1: Store, u: Store)
    requires Moved(r, h, w, c, s, s1)
    requires forall i :: 0 <= i < |rest| ==> Apart(r.to, rest[i].to, h, w, c)
    requires forall a :: 0 <= a < CELLS && !RoutesWrite(rest, h, w, c, a) ==> u[a] == s1[a]
    ensures Moved(r, h, w, c, s, u)
  {
    forall y: nat, x: nat, b: nat | y < h && x < w && b < c && r.to.At(y, x, b) < CELLS
      ensures Get(u, r.to.At(y, x, b)) == Get(s, r.from.At(y, x, b))
    {
      assert !RoutesWrite(rest, h, w, c, r.to.At(y, x, b));
    }
  }

  lemma {:induction false} LanesMove(q: seq<Desc>, rs: seq<Route>, h: nat, w: nat, c: nat, s: Store)
    requires CarriesAll(q, rs, h, w, c) && Disjoint(rs, h, w, c)
    ensures forall i :: 0 <= i < |rs| ==> Moved(rs[i], h, w, c, s, ExecAll(q, s))
    ensures forall a :: 0 <= a < CELLS && !RoutesWrite(rs, h, w, c, a) ==> ExecAll(q, s)[a] == s[a]
    decreases |rs|
  {
    if rs == [] {
    } else {
      var s1, u := Exec(q[0], s), ExecAll(q, s);
      var rest := rs[1..];
      assert Carries(q[0], rs[0], h, w, c);
      PixelMove(q[0], s, rs[0].from, rs[0].to, h, w, c);
      DisjointTail(rs, h, w, c);
      assert CarriesAll(q[1..], rest, h, w, c) by {
        forall i | 0 <= i < |rest|
          ensures Carries(q[1..][i], rest[i], h, w, c)
        {
          assert Carries(q[i + 1], rs[i + 1], h, w, c);
        }
      }
      LanesMove(q[1..], rest, h, w, c, s1);
      FirstStays(rs[0], rest, h, w, c, s, s1, u);
      forall i | 0 <= i < |rs|
        ensures Moved(rs[i], h, w, c, s, u)
      {
        if i > 0 {
          assert rs[i] == rest[i - 1];
          LaterMoved(rs[i], rs[0], h, w, c, s, s1, u);
        }
      }
      forall a | 0 <= a < CELLS && !RoutesWrite(rs, h, w, c, a)
        ensures u[a] == s[a]
      {
        assert !Writes(rs[0].to, h, w, c, a);
        TailWrites(rs, h, w, c, a);
      }
    }
  }

  // A lane among others, in whatever order: it finds its bytes as they were
  // before and they are not overwritten after.
  lemma MovedAmong(q: seq<Desc>, p: nat, r: Route, h: nat, w: nat, c: nat, s: Store)
    requires p < |q| && Carries(q[p], r, h, w, c) && Injective(r.to, h, w, c) && Apart(r.from, r.to, h, w, c)
    requires forall y: nat, x: nat, b: nat :: y < h && x < w && b < c ==> Misses(q[..p], r.from.At(y, x, b))
    requires forall y: nat, x: nat, b: nat :: y < h && x < w && b < c ==> Misses(q[p + 1..], r.to.At(y, x, b))
    requires forall y: nat, x: nat, b: nat :: y < h && x < w && b < c ==> 0 <= r.to.At(y, x, b)
    ensures Moved(r, h, w, c, s, ExecAll(q, s))
  {
    var s1 := ExecAll(q[..p], s);
    var s2 := Exec(q[p], s1);
    var u := ExecAll(q[p + 1..], s2);
    Around(q, p, s);
    PixelMove(q[p], s1, r.from, r.to, h, w, c);
    forall y: nat, x: nat, b: nat | y < h && x < w && b < c && r.to.At(y, x, b) < CELLS
      ensures Get(u, r.to.At(y, x, b)) == Get(s, r.from.At(y, x, b))
    {
      if 0 <= r.from.At(y, x, b) < CELLS {
        ExecAllKeeps(q[..p], s, r.from.At(y, x, b));
      }
      ExecAllKeeps(q[p + 1..], s2, r.to.At(y, x, b));
    }
  }

  // The program before, at and after place p.
  lemma Around(q: seq<Desc>, p: nat, s: Store)
    requires p < |q|
    ensures ExecAll(q, s) == ExecAll(q[p + 1..], Exec(q[p], ExecAll(q[..p], s)))
  {
    assert q == q[..p] + q[p..] && q[p..][1..] == q[p + 1..];
    ExecAllConcat(q[..p], q[p..], s);
  }

  lemma TailWrites(rs: seq<Route>, h: nat, w: nat, c: nat, a: int)
    requires rs != [] && !RoutesWrite(rs, h, w, c, a)
    ensures !RoutesWrite(rs[1..], h, w, c, a)
  {
    forall i | 0 <= i < |rs| - 1
      ensures !Writes(rs[1..][i].to, h, w, c, a)
    {
      assert rs[1..][i] == rs[i + 1];
    }
  }

  // Two stores a route was carried out to agree where it writes.
  lemma MovedAgree(r: Route, h: nat, w: nat, c: nat, s: Store, u: Store, u': Store, a: nat)
    requires Moved(r, h, w, c, s, u) && Moved(r, h, w, c, s, u') && Writes(r.to, h, w, c, a) && a < CELLS
    ensures u[a] == u'[a]
  {
    var y: nat, x: nat, b: nat :| y < h && x < w && b < c && r.to.At(y, x, b) == a;
    assert Get(u, r.to.At(y, x, b)) == Get(u', r.to.At(y, x, b));
  }

  lemma WrittenAgree(rs: seq<Route>, rs': seq<Route>, h: nat, w: nat, c: nat, s: Store, u: Store, u': Store, a: nat)
    requires forall i :: 0 <= i < |rs| ==> Moved(rs[i], h, w, c, s, u)
    requires forall i :: 0 <= i < |rs'| ==> Moved(rs'[i], h, w, c, s, u')
    requires (forall r :: r in rs ==> r in rs') && RoutesWrite(rs, h, w, c, a) && a < CELLS
    ensures u[a] == u'[a] && RoutesWrite(rs', h, w, c, a)
  {
    var i :| 0 <= i < |rs| && Writes(rs[i].to, h, w, c, a);
    assert rs[i] in rs';
    var j :| 0 <= j < |rs'| && rs'[j] == rs[i];
    MovedAgree(rs[i], h, w, c, s, u, u', a);
  }

  // The same routes in any other order have the same effect.
  lemma LanesCommute(q: seq<Desc>, rs: seq<Route>, q': seq<Desc>, rs': seq<Route>, h: nat, w: nat, c: nat, s: Store)
    requires CarriesAll(q, rs, h, w, c) && Disjoint(rs, h, w, c)
    requires CarriesAll(q', rs', h, w, c) && Disjoint(rs', h, w, c)
    requires forall r :: r in rs <==> r in rs'
    ensures ExecAll(q, s) == ExecAll(q', s)
  {
    var u, u' := ExecAll(q, s), ExecAll(q', s);
    LanesMove(q, rs, h, w, c, s);
    LanesMove(q', rs', h, w, c, s);
    forall a | 0 <= a < CELLS
      ensures u[a] == u'[a]
    {
      if RoutesWrite(rs, h, w, c, a) {
        WrittenAgree(rs, rs', h, w, c, s, u, u', a);
      } else if RoutesWrite(rs', h, w, c, a) {
        WrittenAgree(rs', rs, h, w, c, s, u', u, a);
      }
    }
  }
}
