// The fence slot: where getFence looks for it, and where it is.
module CmdFence {
  import opened Words
  import opened CmdGraph
  import opened CmdHistory
  import opened CmdLayout
  import opened CmdBuild

  // total_time and status of the fence slot, and its 64-bit fd.
  datatype FenceInfo = FenceInfo(fd: (nat, nat), totalTime: nat, status: nat)

  // What getFence reads, if it returns true: 16 bytes of the buffer, or bytes of
  // which some lie past its end.
  datatype FenceRead = NoFence | PastEnd | Read(info: FenceInfo)

  function FenceAt(b: seq<Byte>, ofs: nat): FenceInfo
    requires ofs + FENCE <= |b|
  {
    FenceInfo((Get32(b, ofs), Get32(b, ofs + 4)), Get32(b, ofs + 8), Get32(b, ofs + 12))
  }

  // What a list of n sub-commands finds in the buffer.
  function FenceIn(b: seq<Byte>, n: nat): FenceRead {
    if n == 0 || FenceOfs(n) > |b| then NoFence
    else if FenceOfs(n) + FENCE > |b| then PastEnd
    else Read(FenceAt(b, FenceOfs(n)))
  }

  // The buffer after the driver has written these 16 bytes to its slot.
  function Signalled(b: seq<Byte>, bytes: seq<Byte>): (r: seq<Byte>)
    requires Slotted(b) && |bytes| == FENCE
    ensures |r| == |b|
  {
    var ofs := FenceOfs(BuiltFor(b));
    b[..ofs] + bytes + b[ofs + FENCE..]
  }

  lemma SameWord(b: seq<Byte>, at: nat, c: seq<Byte>, to: nat, k: nat)
    requires at + FENCE <= |b| && to + FENCE <= |c| && k + 4 <= FENCE && b[at..at + FENCE] == c[to..to + FENCE]
    ensures Get32(b, at + k) == Get32(c, to + k)
  {
    var w := b[at..at + FENCE];
    Four(b, at + k);
    Four(c, to + k);
    assert w[k] == b[at + k] && w[k + 1] == b[at + k + 1] && w[k + 2] == b[at + k + 2] && w[k + 3] == b[at + k + 3];
    assert w[k] == c[to + k] && w[k + 1] == c[to + k + 1] && w[k + 2] == c[to + k + 2] && w[k + 3] == c[to + k + 3];
  }

  lemma SameFence(b: seq<Byte>, at: nat, c: seq<Byte>, to: nat)
    requires at + FENCE <= |b| && to + FENCE <= |c| && b[at..at + FENCE] == c[to..to + FENCE]
    ensures FenceAt(b, at) == FenceAt(c, to)
  {
    SameWord(b, at, c, to, 0);
    SameWord(b, at, c, to, 4);
    SameWord(b, at, c, to, 8);
    SameWord(b, at, c, to, 12);
  }

  // What the driver has signalled is read back by a list of the same length.
  lemma FenceBack(b: seq<Byte>, bytes: seq<Byte>)
    requires Slotted(b) && |bytes| == FENCE
    ensures FenceIn(Signalled(b, bytes), BuiltFor(b)) == Read(FenceAt(bytes, 0))
  {
    var ofs := FenceOfs(BuiltFor(b));
    assert Signalled(b, bytes)[ofs..ofs + FENCE] == bytes[0..0 + FENCE];
    SameFence(Signalled(b, bytes), ofs, bytes, 0);
  }

  const ZEROS: seq<Byte> := seq(FENCE, _ => 0)

  // A list of another length misses one end of the slot, so it cannot tell
  // these two signals apart.
  lemma FenceMissed(b: seq<Byte>, n: nat, bytes: seq<Byte>)
    requires Slotted(b) && n != BuiltFor(b) && bytes == ZEROS[if n < BuiltFor(b) then 15 else 0 := 1]
    ensures FenceIn(Signalled(b, bytes), n) == FenceIn(Signalled(b, ZEROS), n)
    ensures FenceAt(bytes, 0) != FenceAt(ZEROS, 0)
  {
    var s, z, at := Signalled(b, bytes), Signalled(b, ZEROS), FenceOfs(n);
    if n > 0 && at + FENCE <= |b| {
      assert s[at..at + FENCE] == z[at..at + FENCE];
      SameFence(s, at, z, at);
    }
    Four(bytes, if n < BuiltFor(b) then 12 else 0);
    Four(ZEROS, if n < BuiltFor(b) then 12 else 0);
  }

  // Whatever is signalled is what getFence reads, exactly when the list has as
  // many sub-commands as the buffer was built for.
  lemma FenceExact(b: seq<Byte>, n: nat)
    requires Slotted(b)
    ensures (forall bytes: seq<Byte> :: |bytes| == FENCE ==> FenceIn(Signalled(b, bytes), n) == Read(FenceAt(bytes, 0))) <==> n == BuiltFor(b)
  {
    if n == BuiltFor(b) {
      forall bytes: seq<Byte> | |bytes| == FENCE
        ensures FenceIn(Signalled(b, bytes), n) == Read(FenceAt(bytes, 0))
      {
        FenceBack(b, bytes);
      }
    } else {
      var bytes := ZEROS[if n < BuiltFor(b) then 15 else 0 := 1];
      FenceMissed(b, n, bytes);
    }
  }

  // ----- a list that has grown since -----

  // Sub-commands without dependencies, none of them for MDLA.
  function Plain(n: nat): seq<Op> {
    if n == 0 then [] else Plain(n - 1) + [Add([], 1, 0, 0, 0)]
  }

  lemma {:induction false} PlainRun(n: nat)
    ensures Run(Plain(n)).Some? && |Run(Plain(n)).value.g| == n
  {
    if n == 0 {
    } else {
      PlainRun(n - 1);
      RunPush(Plain(n - 1), Run(Plain(n - 1)).value, Add([], 1, 0, 0, 0));
    }
  }

  lemma OneSize(g: Graph)
    requires |g| == 1 && g[0].succ == [] && g[0].dev == 1
    ensures Size(g) == 112
  {
    assert g[..0] == [];
    assert SuccWords(g) == SuccWords(g[..0]) + 1 + |g[0].succ|;
    assert HdrOfs(g, 1) == HdrOfs(g, 0) + HdrLen(g[0]);
  }

  lemma PlainSize()
    ensures Run(Plain(1)).Some? && Size(Run(Plain(1)).value.g) == 112
  {
    var op := Add([], 1, 0, 0, 0);
    PlainRun(0);
    RunPush(Plain(0), EMPTY, op);
    assert Plain(1) == Plain(0) + [op];
    OneSize(Step(EMPTY, op).g);
  }

  lemma OneSlot(b: seq<Byte>, g: Graph)
    requires |g| == 1 && Size(g) == 112 && Encodes(b, g)
    ensures |b| == 112 && Slotted(b) && BuiltFor(b) == 1
  {
    assert EncodesFirst(b, g, |g|);
  }

  // A buffer built for one such sub-command, while the list grows to n: getFence
  // reads something else from 2 to 13, past the end from 14 to 17, and nothing
  // from 18 on.
  lemma StaleFence(b: seq<Byte>, n: nat)
    requires 0 < n && Run(Plain(1)).Some? && Encodes(b, Run(Plain(1)).value.g)
    ensures Run(Plain(n)).Some? && |Run(Plain(n)).value.g| == n && Slotted(b) && BuiltFor(b) == 1
    ensures FenceIn(b, n).Read? <==> n <= 13
    ensures FenceIn(b, n).PastEnd? <==> 14 <= n <= 17
  {
    PlainRun(1);
    PlainRun(n);
    PlainSize();
    OneSlot(b, Run(Plain(1)).value.g);
  }
}
