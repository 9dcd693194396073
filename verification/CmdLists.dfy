// The last loop of constructCmd: successor lists and predecessor counts.
module CmdLists {
  import opened Words
  import opened CmdGraph
  import opened CmdLayout
  import opened CmdRoundTrip
  import opened CmdBuffer
  import opened SubCommand
  import opened CmdWriter

  lemma WordsAppend(b: seq<Byte>, base: nat, ws: seq<int>, vs: seq<int>)
    requires WordsAt(b, base, ws) && WordsAt(b, base + 4 * |ws|, vs)
    ensures WordsAt(b, base, ws + vs)
  {
    forall k | 0 <= k < |ws + vs|
      ensures Entry(b, base, k) == (ws + vs)[k]
    {
      if k >= |ws| {
        assert Entry(b, base + 4 * |ws|, k - |ws|) == vs[k - |ws|];
      }
    }
  }

  lemma WordsPush(b: seq<Byte>, b': seq<Byte>, base: nat, ws: seq<int>, w: Word, at: nat)
    requires WordsAt(b, base, ws) && at == base + 4 * |ws| && at + 4 <= |b|
    requires Only(b, b', at, at + 4) && Get32(b', at) == w
    ensures WordsAt(b', base, ws + [w])
  {
    OnlyAgrees(b, b', at, at + 4, base, at);
    WordsKept(b, b', base, ws);
    assert Entry(b', at, 0) == w;
    WordsAppend(b', base, ws, [w]);
  }

  // What one list looks like in the buffer.
  function ListWords(succ: seq<int>, k: nat, self: int): (r: seq<int>)
    requires k <= |succ|
    ensures 1 <= |r| <= k + 1
  {
    [|succ|] + Skipping(succ, k, self)
  }

  lemma ListWordsNext(succ: seq<int>, k: nat, j: nat, self: int)
    requires j == k + 1 <= |succ|
    ensures ListWords(succ, j, self) == if succ[k] == self then ListWords(succ, k, self) else ListWords(succ, k, self) + [succ[k]]
  {
  }

  // One successor list: its length, then its entries other than self.
  method WriteList(buf: array<Byte>, at: nat, succ: seq<int>, self: int) returns (next: nat)
    requires at + 4 * (1 + |succ|) <= buf.Length < 0x1_0000_0000 && AllIn(succ, 0x1_0000_0000)
    modifies buf
    ensures next == at + 4 * |ListWords(succ, |succ|, self)|
    ensures WordsAt(buf[..], at, ListWords(succ, |succ|, self)) && Only(old(buf[..]), buf[..], at, next)
  {
    ghost var b0 := buf[..];
    Store32(buf, at, |succ|);
    next := at + 4;
    assert WordsAt(b0, at, []);
    WordsPush(b0, buf[..], at, [], |succ|, at);
    assert [] + [|succ|] == ListWords(succ, 0, self);
    var k := 0;
    while k < |succ|
      invariant k <= |succ| && next == at + 4 * |ListWords(succ, k, self)|
      invariant WordsAt(buf[..], at, ListWords(succ, k, self)) && Only(b0, buf[..], at, next)
    {
      var j := k + 1;
      ListWordsNext(succ, k, j, self);
      if succ[k] != self {
        assert succ[k] in succ;
        ghost var b := buf[..];
        Store32(buf, next, succ[k]);
        WordsPush(b, buf[..], at, ListWords(succ, k, self), succ[k], next);
        OnlyTrans(b0, b, buf[..], next, next + 4, at, next + 4);
        next := next + 4;
      }
      k := j;
    }
  }

  // The first n lists and counts are written; everything before the lists is as
  // it was in b0.
  ghost predicate Listed(b0: seq<Byte>, b: seq<Byte>, g: Graph, n: nat)
    requires n <= |g|
  {
    && |b0| == |b| == Size(g) && Agree(b0, b, 0, DepOfs(g))
    && WordsAt(b, DepOfs(g), Written(g, n)) && CountsAt(b, g, n)
  }

  // Where list n goes.
  function ListOfs(g: Graph, n: nat): nat
    requires n <= |g|
  {
    DepOfs(g) + 4 * |Written(g, n)|
  }

  lemma WrittenNext(g: Graph, i: nat, j: nat)
    requires i < |g| && j == i + 1
    ensures Written(g, j) == Written(g, i) + ListWords(g[i].succ, |g[i].succ|, i)
  {
  }

  lemma {:induction false} WrittenFits(g: Graph, i: nat, n: nat)
    requires i < n <= |g|
    ensures |Written(g, i)| + 1 + |g[i].succ| <= SuccWords(g[..n])
  {
    ListsLength(g, i);
    SuccWordsPush(g, n);
    if i < n - 1 {
      WrittenFits(g, i, n - 1);
    }
  }

  // List i and its count fit their regions.
  lemma ListFits(g: Graph, i: nat)
    requires i < |g|
    ensures ListOfs(g, i) + 4 * (1 + |g[i].succ|) <= PdrOfs(g) && PdrOfs(g) + 4 * i + 4 <= Size(g)
  {
    WrittenFits(g, i, |g|);
    assert g[..|g|] == g;
  }

  lemma ListedOne(b0: seq<Byte>, b: seq<Byte>, b1: seq<Byte>, b2: seq<Byte>, g: Graph, i: nat, j: nat, next: nat, pdr: nat)
    requires i < |g| && j == i + 1 && Listed(b0, b, g, i)
    requires next == ListOfs(g, i) + 4 * |ListWords(g[i].succ, |g[i].succ|, i)| && pdr == PdrOfs(g) + 4 * i
    requires WordsAt(b1, ListOfs(g, i), ListWords(g[i].succ, |g[i].succ|, i)) && Only(b, b1, ListOfs(g, i), next)
    requires pdr + 4 <= |b| && Only(b1, b2, pdr, pdr + 4) && Get32(b2, pdr) == Wrap(|g[i].pred|)
    ensures next == ListOfs(g, j) && Listed(b0, b2, g, j)
  {
    var dep, at, ws, vs := DepOfs(g), ListOfs(g, i), Written(g, i), ListWords(g[i].succ, |g[i].succ|, i);
    ListFits(g, i);
    WrittenNext(g, i, j);
    OnlyAgrees(b, b1, at, next, dep, at);
    WordsKept(b, b1, dep, ws);
    WordsAppend(b1, dep, ws, vs);
    OnlyAgrees(b1, b2, pdr, pdr + 4, dep, next);
    WordsKept(b1, b2, dep, Written(g, j));
    CountsNext(b, b1, b2, g, i, j, at, next, pdr);
  }

  lemma CountsNext(b: seq<Byte>, b1: seq<Byte>, b2: seq<Byte>, g: Graph, i: nat, j: nat, at: nat, next: nat, pdr: nat)
    requires i < |g| && j == i + 1 && |b| == Size(g) && CountsAt(b, g, i) && pdr == PdrOfs(g) + 4 * i
    requires next <= PdrOfs(g) && Only(b, b1, at, next) && pdr + 4 <= |b| && Only(b1, b2, pdr, pdr + 4)
    requires Get32(b2, pdr) == Wrap(|g[i].pred|)
    ensures CountsAt(b2, g, j)
  {
    OnlyAgrees(b, b1, at, next, PdrOfs(g), pdr);
    CountsKept(b, b1, g, i);
    OnlyAgrees(b1, b2, pdr, pdr + 4, PdrOfs(g), pdr);
    CountsKept(b1, b2, g, i);
  }

  method WriteTurn(node: Node, buf: array<Byte>, ghost b0: seq<Byte>, ghost g: Graph, i: nat, ghost j: nat, at: nat, pdr: nat)
    returns (next: nat)
    requires i < |g| && j == i + 1 && node == g[i] && Listed(b0, buf[..], g, i)
    requires ListsInRange(g) && Size(g) < 0x1_0000_0000
    requires at == ListOfs(g, i) && pdr == PdrOfs(g) + 4 * i
    modifies buf
    ensures next == ListOfs(g, j) && Listed(b0, buf[..], g, j)
  {
    ListFits(g, i);
    ghost var b := buf[..];
    next := WriteList(buf, at, node.succ, i);
    ghost var b1 := buf[..];
    Store32(buf, pdr, Wrap(|node.pred|));
    ListedOne(b0, b, b1, buf[..], g, i, j, next, pdr);
  }

  method WriteLists(subs: seq<SubCmd>, buf: array<Byte>, ghost g: Graph, dep: nat, pdr: nat)
    requires Models(subs, g) && ListsInRange(g) && buf.Length == Size(g) < 0x1_0000_0000
    requires dep == DepOfs(g) && pdr == PdrOfs(g)
    modifies buf
    ensures Listed(old(buf[..]), buf[..], g, |g|)
  {
    ghost var b0 := buf[..];
    var at, pdrAt, i := dep, pdr, 0;
    while i < |subs|
      invariant i <= |g| && Listed(b0, buf[..], g, i)
      invariant at == ListOfs(g, i) && pdrAt == pdr + 4 * i
    {
      var j := i + 1;
      at := WriteTurn(subs[i].node, buf, b0, g, i, j, at, pdrAt);
      pdrAt := pdrAt + 4;
      i := j;
    }
  }
}
