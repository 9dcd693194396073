// The loops of constructCmd that fill a new buffer from the sub-command list.
module CmdWriter {
  import opened Words
  import opened CmdGraph
  import opened CmdLayout
  import opened CmdBuffer
  import opened SubCommand

  // The objects hold what g says; each knows its place, so none is listed twice.
  ghost predicate Models(subs: seq<SubCmd>, g: Graph)
    reads subs
  {
    |subs| == |g| && forall i :: 0 <= i < |subs| ==> subs[i].idx == i && subs[i].node == g[i]
  }

  // The first n headers are in this buffer, where the layout of g puts them.
  ghost predicate Entries(subs: seq<SubCmd>, buf: array<Byte>, g: Graph, n: nat)
    reads subs
    requires n <= |subs| == |g|
  {
    forall i :: 0 <= i < n ==> subs[i].entry == buf && subs[i].ofs == HdrOfs(g, i)
  }

  // The offsets of the headers.
  ghost function Places(g: Graph): (ps: seq<nat>)
    ensures |ps| == |g|
  {
    seq(|g|, i requires 0 <= i < |g| => HdrOfs(g, i))
  }

  // Sub-command i was there when the buffer home was built, and has its header
  // in it; or it is newer and has none.
  ghost predicate HomeAt(s: SubCmd, i: nat, home: array?<Byte>, places: seq<nat>)
    reads s`entry, s`ofs
  {
    if i < |places| then s.entry != null && s.entry == home && s.ofs == places[i] && s.Placed() else s.entry == null
  }

  ghost predicate Homed(subs: seq<SubCmd>, home: array?<Byte>, places: seq<nat>)
    reads subs`entry, subs`ofs
  {
    |places| <= |subs| && HomedTo(subs, |subs|, home, places)
  }

  // So are the first n.
  ghost predicate HomedTo(subs: seq<SubCmd>, n: nat, home: array?<Byte>, places: seq<nat>)
    reads subs`entry, subs`ofs
    requires n <= |subs|
  {
    n == 0 || (HomedTo(subs, n - 1, home, places) && HomeAt(subs[n - 1], n - 1, home, places))
  }

  lemma {:induction false} HomeOf(subs: seq<SubCmd>, n: nat, home: array?<Byte>, places: seq<nat>, i: nat)
    requires i < n <= |subs| && HomedTo(subs, n, home, places)
    ensures HomeAt(subs[i], i, home, places)
  {
    if i == n - 1 {
    } else {
      HomeOf(subs, n - 1, home, places, i);
    }
  }

  lemma {:induction false} HomedPrefix(subs: seq<SubCmd>, all: seq<SubCmd>, n: nat, home: array?<Byte>, places: seq<nat>)
    requires n <= |subs| && subs <= all && HomedTo(subs, n, home, places)
    ensures HomedTo(all, n, home, places)
  {
    if n == 0 {
    } else {
      HomedPrefix(subs, all, n - 1, home, places);
    }
  }

  lemma HdrOfsBounds(g: Graph, i: nat)
    requires i < |g|
    ensures FenceOfs(|g|) + FENCE <= HdrOfs(g, i) && HdrOfs(g, i) + HdrLen(g[i]) == HdrOfs(g, i + 1) <= DepOfs(g) <= Size(g)
  {
    HdrOfsMonotone(g, i, |g|);
  }

  lemma {:induction false} EntriesHomed(subs: seq<SubCmd>, buf: array<Byte>, g: Graph, n: nat)
    requires n <= |subs| == |g| && buf.Length == Size(g) && Entries(subs, buf, g, |g|)
    ensures HomedTo(subs, n, buf, Places(g))
  {
    if n == 0 {
    } else {
      EntriesHomed(subs, buf, g, n - 1);
      HdrOfsBounds(g, n - 1);
    }
  }

  // The first n offsets and headers are written; the fixed header and the fence
  // slot are as they were in b0.
  ghost predicate Filled(b0: seq<Byte>, b: seq<Byte>, g: Graph, n: nat)
    requires n <= |g|
  {
    |b0| == |b| == Size(g)
    && if n == 0 then Agree(b0, b, 0, HDR) && Agree(b0, b, FenceOfs(|g|), FenceOfs(|g|) + FENCE)
       else Filled(b0, b, g, n - 1) && HeaderAt(b, g, n - 1)
  }

  lemma {:induction false} FilledKept(b0: seq<Byte>, b: seq<Byte>, b': seq<Byte>, g: Graph, n: nat)
    requires n <= |g| && Filled(b0, b, g, n)
    requires Agree(b, b', 0, HDR + 4 * n) && Agree(b, b', FenceOfs(|g|), HdrOfs(g, n))
    ensures Filled(b0, b', g, n)
  {
    if n == 0 {
    } else {
      var m := n - 1;
      HdrOfsMonotone(g, m, n);
      FilledKept(b0, b, b', g, m);
      HeaderKept(b, b', g, m);
    }
  }

  lemma {:induction false} FilledAll(b0: seq<Byte>, b: seq<Byte>, g: Graph, n: nat)
    requires n <= |g| && Filled(b0, b, g, n)
    ensures HeadersAt(b, g, n)
    ensures Agree(b0, b, 0, HDR) && Agree(b0, b, FenceOfs(|g|), FenceOfs(|g|) + FENCE)
  {
    if n == 0 {
    } else {
      FilledAll(b0, b, g, n - 1);
    }
  }

  lemma PlacedOne(b0: seq<Byte>, b: seq<Byte>, b1: seq<Byte>, b2: seq<Byte>, g: Graph, i: nat, j: nat, va: nat)
    requires i < |g| && j == i + 1 && Filled(b0, b, g, i) && va == HdrOfs(g, i)
    requires Only(b, b1, HDR + 4 * i, HDR + 4 * i + 4) && Only(b1, b2, va, va + SC_HDR)
    requires HDR + 4 * i + 4 <= va && va + SC_HDR <= |b| && Get32(b1, HDR + 4 * i) == va && HdrAt(b2, va, g[i])
    ensures Filled(b0, b2, g, j)
  {
    OnlyAgrees(b, b1, HDR + 4 * i, HDR + 4 * i + 4, 0, HDR + 4 * i);
    OnlyAgrees(b, b1, HDR + 4 * i, HDR + 4 * i + 4, FenceOfs(|g|), va);
    FilledKept(b0, b, b1, g, i);
    OnlyAgrees(b1, b2, va, va + SC_HDR, 0, HDR + 4 * i);
    OnlyAgrees(b1, b2, va, va + SC_HDR, FenceOfs(|g|), va);
    FilledKept(b0, b1, b2, g, i);
    FilledNext(b0, b2, g, i, j, va);
  }

  lemma FilledNext(b0: seq<Byte>, b: seq<Byte>, g: Graph, i: nat, j: nat, va: nat)
    requires i < |g| && j == i + 1 && Filled(b0, b, g, i) && va == HdrOfs(g, i) && va + SC_HDR <= |b|
    requires Get32(b, HDR + 4 * i) == va && HdrAt(b, va, g[i])
    ensures Filled(b0, b, g, j)
  {
  }

  // setInfoEntry on sub-command i.
  method SetEntry(subs: seq<SubCmd>, s: SubCmd, buf: array<Byte>, ghost g: Graph, i: nat, va: nat)
    requires Models(subs, g) && i < |subs| && s == subs[i] && Entries(subs, buf, g, i) && va == HdrOfs(g, i)
    modifies s`entry, s`ofs
    ensures Models(subs, g) && Entries(subs, buf, g, i + 1)
  {
    s.entry, s.ofs := buf, va;
    assert forall k :: 0 <= k < i ==> subs[k].idx != s.idx;
  }

  method PlaceTurn(subs: seq<SubCmd>, buf: array<Byte>, ghost b0: seq<Byte>, ghost g: Graph, i: nat, j: nat, va: nat)
    returns (next: nat)
    requires i < |subs| && j == i + 1 && Models(subs, g) && Size(g) < 0x1_0000_0000 && va == HdrOfs(g, i)
    requires Entries(subs, buf, g, i) && Filled(b0, buf[..], g, i)
    modifies subs, buf
    ensures Models(subs, g) && Entries(subs, buf, g, j)
    ensures next == HdrOfs(g, j) && Filled(b0, buf[..], g, j)
  {
    ghost var before := buf[..];
    HdrOfsBounds(g, i);
    SetEntry(subs, subs[i], buf, g, i, va);
    PlaceHeader(subs[i], buf, b0, g, i, j, va);
    next := va + SC_HDR;
    if subs[i].node.dev == DEVICE_MDLA {
      next := next + MDLA_HDR;
    }
  }

  method PlaceHeader(s: SubCmd, buf: array<Byte>, ghost b0: seq<Byte>, ghost g: Graph, i: nat, ghost j: nat, va: nat)
    requires i < |g| && j == i + 1 && s.node == g[i] && Size(g) < 0x1_0000_0000 && va == HdrOfs(g, i)
    requires s.entry == buf && s.ofs == va && Filled(b0, buf[..], g, i)
    modifies buf
    ensures Filled(b0, buf[..], g, j)
  {
    ghost var before := buf[..];
    HdrOfsBounds(g, i);
    Store32(buf, HDR + 4 * i, va);
    ghost var mid := buf[..];
    var ok := s.ConstructHeader();
    PlacedOne(b0, before, mid, buf[..], g, i, j, va);
  }

  // Offsets and headers of all sub-commands; the fence slot between the two
  // regions is skipped. Returns where the successor lists start.
  method PlaceHeaders(subs: seq<SubCmd>, buf: array<Byte>, ghost g: Graph) returns (va: nat)
    requires Models(subs, g) && buf.Length == Size(g) < 0x1_0000_0000
    modifies subs, buf
    ensures Models(subs, g) && Entries(subs, buf, g, |g|)
    ensures va == DepOfs(g) && Filled(old(buf[..]), buf[..], g, |g|)
  {
    ghost var b0 := buf[..];
    va := HDR + 4 * |subs| + FENCE;
    var i := 0;
    while i < |subs|
      invariant i <= |subs| && Models(subs, g) && va == HdrOfs(g, i)
      invariant Entries(subs, buf, g, i)
      invariant Filled(b0, buf[..], g, i)
    {
      var j := i + 1;
      va := PlaceTurn(subs, buf, b0, g, i, j, va);
      i := j;
    }
  }
}
