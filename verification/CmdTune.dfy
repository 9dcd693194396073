// New tuning parameters in a buffer that is already built.
module CmdTune {
  import opened Words
  import opened CmdGraph
  import opened CmdLayout
  import opened CmdBuffer

  function Tuned(g: Graph, i: nat, tune: Tune): Graph
    requires i < |g|
  {
    g[i := g[i].(tune := tune)]
  }

  lemma {:induction false} TunedOfs(g: Graph, i: nat, tune: Tune, n: nat)
    requires i < |g| && n <= |g|
    ensures HdrOfs(Tuned(g, i, tune), n) == HdrOfs(g, n)
  {
    if n == 0 {
    } else {
      TunedOfs(g, i, tune, n - 1);
    }
  }

  lemma {:induction false} TunedWritten(g: Graph, i: nat, tune: Tune, n: nat)
    requires i < |g| && n <= |g|
    ensures Written(Tuned(g, i, tune), n) == Written(g, n)
  {
    if n == 0 {
    } else {
      var m := n - 1;
      TunedWritten(g, i, tune, m);
      WrittenSame(g, Tuned(g, i, tune), m, n);
    }
  }

  lemma WrittenSame(g: Graph, g': Graph, m: nat, n: nat)
    requires n == m + 1 <= |g| == |g'| && Written(g', m) == Written(g, m) && g'[m].succ == g[m].succ
    ensures Written(g', n) == Written(g, n)
  {
  }

  lemma TunedSize(g: Graph, i: nat, tune: Tune)
    requires i < |g|
    ensures SuccWords(Tuned(g, i, tune)) == SuccWords(g)
    ensures DepOfs(Tuned(g, i, tune)) == DepOfs(g) && PdrOfs(Tuned(g, i, tune)) == PdrOfs(g) && Size(Tuned(g, i, tune)) == Size(g)
  {
    SuccWordsUpdate(g, i, g[i].(tune := tune));
    TunedOfs(g, i, tune, |g|);
  }

  lemma {:induction false} TunedHeaders(b: seq<Byte>, b': seq<Byte>, g: Graph, g': Graph, i: nat, tune: Tune, n: nat, at: nat)
    requires i < |g| && n <= |g| && g' == Tuned(g, i, tune) && |b| == Size(g) == Size(g') && HeadersAt(b, g, n) && at == HdrOfs(g, i)
    requires Only(b, b', at, at + SC_HDR) && at + SC_HDR <= |b| && HdrAt(b', at, g'[i])
    ensures HeadersAt(b', g', n)
  {
    if n == 0 {
    } else {
      var k := n - 1;
      TunedHeaders(b, b', g, g', i, tune, k, at);
      TunedHeader(b, b', g, g', i, tune, k, at);
      HeadersPush(b', g', k, n);
    }
  }

  lemma HeadersPush(b: seq<Byte>, g: Graph, k: nat, n: nat)
    requires n == k + 1 <= |g| && |b| == Size(g) && HeadersAt(b, g, k) && HeaderAt(b, g, k)
    ensures HeadersAt(b, g, n)
  {
  }

  lemma TunedHeader(b: seq<Byte>, b': seq<Byte>, g: Graph, g': Graph, i: nat, tune: Tune, k: nat, at: nat)
    requires i < |g| && k < |g| && g' == Tuned(g, i, tune) && |b| == Size(g) == Size(g') && HeaderAt(b, g, k) && at == HdrOfs(g, i)
    requires Only(b, b', at, at + SC_HDR) && at + SC_HDR <= |b| && HdrAt(b', at, g'[i])
    ensures HeaderAt(b', g', k)
  {
    TunedOfs(g, i, tune, k);
    HdrOfsMonotone(g, k, |g|);
    if k < i {
      HdrOfsMonotone(g, k, i);
    } else if i < k {
      HdrOfsMonotone(g, i, k);
    }
    if k != i {
      OnlyAgrees(b, b', at, at + SC_HDR, HDR + 4 * k, HDR + 4 * k + 4);
      OnlyAgrees(b, b', at, at + SC_HDR, HdrOfs(g, k), HdrOfs(g, k) + SC_HDR);
      HeaderKept(b, b', g, k);
    } else {
      OnlyAgrees(b, b', at, at + SC_HDR, HDR + 4 * k, HDR + 4 * k + 4);
      Get32Kept(b, b', HDR + 4 * k, HDR + 4 * k + 4);
    }
  }

  lemma {:induction false} TunedCounts(b: seq<Byte>, g: Graph, g': Graph, i: nat, tune: Tune, n: nat)
    requires i < |g| && n <= |g| && g' == Tuned(g, i, tune) && |b| == Size(g) == Size(g') && PdrOfs(g') == PdrOfs(g) && CountsAt(b, g, n)
    ensures CountsAt(b, g', n)
  {
    if n == 0 {
    } else {
      TunedCounts(b, g, g', i, tune, n - 1);
    }
  }

  // Rewriting one header in place keeps the buffer an encoding of the list.
  lemma TunedEncodes(b: seq<Byte>, b': seq<Byte>, g: Graph, i: nat, tune: Tune, at: nat)
    requires i < |g| && Encodes(b, g) && at == HdrOfs(g, i)
    requires Only(b, b', at, at + SC_HDR) && at + SC_HDR <= |b| && HdrAt(b', at, Tuned(g, i, tune)[i])
    ensures Encodes(b', Tuned(g, i, tune))
  {
    var g' := Tuned(g, i, tune);
    EncodesAll(b, g);
    EncodesAll(b', g');
    TunedSize(g, i, tune);
    TunedWritten(g, i, tune, |g|);
    HdrOfsMonotone(g, i, |g|);
    OnlyAgrees(b, b', at, at + SC_HDR, 0, HDR);
    Get32Kept(b, b', 0, HDR);
    TunedHeaders(b, b', g, g', i, tune, |g|, at);
    OnlyAgrees(b, b', at, at + SC_HDR, DepOfs(g), |b|);
    WordsKept(b, b', DepOfs(g), Written(g, |g|));
    CountsKept(b, b', g, |g|);
    TunedCounts(b', g, g', i, tune, |g|);
  }
}
