// The memory contexts a built buffer carries. setCtxId changes a sub-command
// without writing through and without making the command dirty, so they can be
// older than the list.
module CmdContext {
  import opened Options
  import opened Words
  import opened CmdGraph
  import opened CmdHistory
  import opened CmdLayout
  import opened CmdRoundTrip
  import opened CmdTune

  function Contexts(g: Graph): (cs: seq<Word>)
    ensures |cs| == |g|
  {
    seq(|g|, i requires 0 <= i < |g| => g[i].ctx)
  }

  // The list with the contexts it had when cs was written, as far as that goes.
  function Recalled(g: Graph, cs: seq<Word>): (h: Graph)
    ensures |h| == |g|
  {
    seq(|g|, i requires 0 <= i < |g| => if i < |cs| then g[i].(ctx := cs[i]) else g[i])
  }

  lemma RecalledOwn(g: Graph)
    ensures Recalled(g, Contexts(g)) == g
  {
  }

  lemma RecalledTuned(g: Graph, cs: seq<Word>, i: nat, tune: Tune)
    requires i < |g|
    ensures Recalled(Tuned(g, i, tune), cs) == Tuned(Recalled(g, cs), i, tune)
  {
  }

  // A new context is not recalled.
  lemma RecalledSet(g: Graph, cs: seq<Word>, i: nat, ctx: Word)
    requires i < |g| && i < |cs|
    ensures Recalled(g[i := g[i].(ctx := ctx)], cs) == Recalled(g, cs)
  {
  }

  lemma {:induction false} RecalledOfs(g: Graph, cs: seq<Word>, n: nat)
    requires n <= |g|
    ensures HdrOfs(Recalled(g, cs), n) == HdrOfs(g, n)
  {
    if n == 0 {
    } else {
      RecalledOfs(g, cs, n - 1);
    }
  }

  lemma HeaderFor(b: seq<Byte>, g: Graph, i: nat)
    requires Encodes(b, g) && i < |g|
    ensures HdrOfs(g, i) + SC_HDR <= |b| && HdrAt(b, HdrOfs(g, i), g[i])
  {
    EncodesAll(b, g);
    AtEach(b, g, |g|, i);
    HdrOfsMonotone(g, i, |g|);
  }

  // The memory handle in its low 31 bits, the mark of a handle in the top one.
  lemma HandleBits(fd: int)
    ensures CodebufInfo(fd) / 0x8000_0000 == 1 && CodebufInfo(fd) % 0x8000_0000 == fd % 0x8000_0000
  {
  }

  // A header field by field.
  lemma HeaderShows(b: seq<Byte>, at: nat, node: Node)
    requires at + 40 <= |b| && HdrAt(b, at, node)
    ensures node.dev < 6 ==> Get32(b, at) == node.dev
    ensures Get32(b, at + 4) == node.tune.estimate && Get32(b, at + 12) == node.tune.suggest && Get32(b, at + 16) == node.tune.bandwidth
    ensures Get32(b, at + 20) == 0 && (b[at + 24] == 1 <==> node.tune.tcmForce) && b[at + 24] < 2 && b[at + 25] == node.tune.boost
    ensures b[at + 26] == node.pack % 0x100 && b[at + 27] == 0
    ensures Get32(b, at + 28) == node.ctx && Get32(b, at + 32) == node.size
    ensures Get32(b, at + 36) / 0x8000_0000 == 1 && Get32(b, at + 36) % 0x8000_0000 == node.fd % 0x8000_0000
  {
    assert HdrFieldAt(b, at, node, DevType) && HdrFieldAt(b, at, node, DriverTime) && HdrFieldAt(b, at, node, SuggestTime);
    assert HdrFieldAt(b, at, node, Bandwidth) && HdrFieldAt(b, at, node, TcmUsage) && HdrFieldAt(b, at, node, TcmForce);
    assert HdrFieldAt(b, at, node, BoostVal) && HdrFieldAt(b, at, node, PackId) && HdrFieldAt(b, at, node, Reserved);
    assert HdrFieldAt(b, at, node, MemCtx) && HdrFieldAt(b, at, node, CbInfoSize) && HdrFieldAt(b, at, node, OfsCbInfo);
    HandleBits(node.fd);
  }

  // The state behind an addSubCmd, and the sub-command it added.
  lemma Latest(ops: seq<Op>, st: State, op: Op, next: State, n: nat)
    requires Run(ops) == Some(st) && op.Add? && Run(ops + [op]) == Some(next) && n == |st.g|
    ensures |next.g| == n + 1 && op.dev < 6
    ensures next.g[n] == Node(op.dev, op.dep, next.g[n].succ, 0, op.ctx, Tune(0xFF, 0, 0, 0, false), op.fd, op.size)
  {
    HistoryInvariant(ops);
    assert (ops + [op])[..|ops|] == ops;
    AddedFields(st.g, NewNode(op.dep, op.dev, op.ctx, op.fd, op.size), n);
  }

  // A buffer built after an addSubCmd has the caller's arguments in the header of
  // the new sub-command, its context too, and no tuning and no pack.
  lemma AddedHeader(ops: seq<Op>, st: State, op: Op, next: State, n: nat, b: seq<Byte>, at: nat)
    requires Run(ops) == Some(st) && op.Add? && Run(ops + [op]) == Some(next) && n == |st.g| && Encodes(b, next.g)
    requires |next.g| == n + 1 && at == HdrOfs(next.g, n)
    ensures 44 + 4 * n + 4 <= at && at + 40 <= |b| && Get32(b, 44 + 4 * n) == at && Get32(b, at) == op.dev
    ensures Get32(b, at + 28) == op.ctx && Get32(b, at + 32) == op.size && Get32(b, at + 36) % 0x8000_0000 == op.fd % 0x8000_0000
    ensures b[at + 25] == 0xFF && b[at + 26] == b[at + 24] == 0
    ensures Get32(b, at + 4) == Get32(b, at + 12) == Get32(b, at + 16) == 0
  {
    Latest(ops, st, op, next, n);
    HeaderFor(b, next.g, n);
    HeaderShows(b, at, next.g[n]);
    OffsetFor(b, next.g, n, at);
  }

  lemma OffsetFor(b: seq<Byte>, g: Graph, i: nat, at: nat)
    requires Encodes(b, g) && i < |g| && at == HdrOfs(g, i)
    ensures 44 + 4 * i + 4 <= at < |b| && Get32(b, 44 + 4 * i) == at
  {
    EncodesAll(b, g);
    AtEach(b, g, |g|, i);
    if i > 0 {
      HdrOfsMonotone(g, 0, i);
    }
    HdrOfsMonotone(g, i, |g|);
  }

  // One header cannot carry two contexts.
  lemma ContextFound(b: seq<Byte>, g: Graph, cs: seq<Word>, i: nat)
    requires Encodes(b, Recalled(g, cs)) && Encodes(b, g) && i < |g| && i < |cs|
    ensures cs[i] == g[i].ctx
  {
    var h := Recalled(g, cs);
    RecalledOfs(g, cs, i);
    HeaderFor(b, g, i);
    HeaderFor(b, h, i);
    assert HdrFieldAt(b, HdrOfs(g, i), g[i], MemCtx) && HdrFieldAt(b, HdrOfs(g, i), h[i], MemCtx);
  }

  // A buffer with the contexts cs is a buffer of the list as it is now exactly
  // when no context has changed.
  lemma ContextsExact(b: seq<Byte>, g: Graph, cs: seq<Word>)
    requires |cs| == |g| && Encodes(b, Recalled(g, cs))
    ensures Encodes(b, g) <==> cs == Contexts(g)
  {
    if cs == Contexts(g) {
      RecalledOwn(g);
    } else if Encodes(b, g) {
      forall i | 0 <= i < |g|
        ensures cs[i] == Contexts(g)[i]
      {
        ContextFound(b, g, cs, i);
      }
      assert false;
    }
  }

  lemma RecalledShape(g: Graph, cs: seq<Word>)
    requires Consistent(g)
    ensures Consistent(Recalled(g, cs))
    ensures SelfFree(Recalled(g, cs)) <==> SelfFree(g)
    ensures PacksFit(Recalled(g, cs)) <==> PacksFit(g)
    ensures DevicesOk(Recalled(g, cs)) <==> DevicesOk(g)
    ensures View(Recalled(g, cs)) == View(g)
  {
    var h := Recalled(g, cs);
    assert forall i :: 0 <= i < |g| ==> h[i].pred == g[i].pred && h[i].succ == g[i].succ && h[i].pack == g[i].pack && h[i].dev == g[i].dev;
    assert forall i :: 0 <= i < |g| ==> OnItself(h, i) == OnItself(g, i);
  }

  // What a reader decodes does not depend on the contexts: a buffer that is
  // stale only in these shows the current graph under the same condition.
  lemma StaleRoundTrip(ops: seq<Op>, st: State, cs: seq<Word>, b: seq<Byte>)
    requires Run(ops) == Some(st) && Encodes(b, Recalled(st.g, cs))
    ensures (forall b': seq<Byte> :: Encodes(b', Recalled(st.g, cs)) ==> Decode(b') == View(st.g)) <==> !SelfNamed(ops) && st.packNum < 0x100
  {
    HistoryInvariant(ops);
    HistorySelfFree(ops);
    PacksFitIff(st);
    RecalledShape(st.g, cs);
    RoundTripIff(b, Recalled(st.g, cs));
  }

  // The least run that shows it: a buffer built after adding one sub-command
  // with context 0 does not encode the list once that context is 3.
  lemma StaleContext(b: seq<Byte>)
    ensures var add, set3 := Add([], 1, 0, 0, 0), SetCtx(0, 3);
            && Run([add]).Some? && Run([add, set3]).Some?
            && (Encodes(b, Run([add]).value.g) ==> !Encodes(b, Run([add, set3]).value.g))
  {
    var add, set3 := Add([], 1, 0, 0, 0), SetCtx(0, 3);
    var none: seq<Op> := [];
    RunPush(none, EMPTY, add);
    assert none + [add] == [add];
    var st := Step(EMPTY, add);
    RunPush([add], st, set3);
    assert [add] + [set3] == [add, set3];
    var h := Step(st, set3).g;
    if Encodes(b, st.g) && Encodes(b, h) {
      assert Recalled(h, [0]) == st.g;
      ContextFound(b, h, [0], 0);
    }
  }
}
