// Reading back a buffer built from a graph.
module CmdRoundTrip {
  import opened Options
  import opened Words
  import opened CmdGraph
  import opened CmdHistory
  import opened CmdLayout

  // ----- predecessor counts fit -----

  // Entries of s below n, counted value by value.
  function Tally(s: seq<int>, n: nat): nat {
    if n == 0 then 0 else Tally(s, n - 1) + multiset(s)[n - 1]
  }

  lemma {:induction false} TallyPush(s: seq<int>, v: int, n: nat)
    requires 0 <= v
    ensures Tally(s + [v], n) == Tally(s, n) + (if v < n then 1 else 0)
  {
    if n == 0 {
    } else {
      TallyPush(s, v, n - 1);
    }
  }

  lemma {:induction false} TallyAll(s: seq<int>, n: nat)
    requires AllIn(s, n)
    ensures Tally(s, n) == |s|
    decreases |s|
  {
    if s == [] {
      TallyNone(n);
    } else {
      var init, v := s[..|s| - 1], s[|s| - 1];
      assert s == init + [v];
      assert v in s && forall u :: u in init ==> u in s;
      TallyAll(init, n);
      TallyPush(init, v, n);
    }
  }

  lemma {:induction false} TallyNone(n: nat)
    ensures Tally([], n) == 0
  {
    if n == 0 {
    } else {
      TallyNone(n - 1);
    }
  }

  lemma {:induction false} TallyBound(g: Graph, i: nat, n: nat)
    requires Dual(g) && i < |g| && n <= |g|
    ensures Tally(g[i].pred, n) <= SuccWords(g[..n])
  {
    if n == 0 {
    } else {
      TallyBound(g, i, n - 1);
      SuccWordsPush(g, n);
      assert multiset(g[i].pred)[n - 1] == multiset(g[n - 1].succ)[i];
      CountBound(g[n - 1].succ, i);
    }
  }

  lemma SuccWordsPush(g: Graph, n: nat)
    requires 0 < n <= |g|
    ensures SuccWords(g[..n]) == SuccWords(g[..n - 1]) + 1 + |g[n - 1].succ|
  {
    assert g[..n][..n - 1] == g[..n - 1];
  }

  lemma CountBound(s: seq<int>, v: int)
    ensures multiset(s)[v] <= |s|
  {
    assert |multiset(s)| == |s|;
    var m := multiset(s);
    assert m == m[v := 0] + multiset{}[v := m[v]];
    assert |multiset{}[v := m[v]]| == m[v];
  }

  // No predecessor list is longer than the successor region.
  lemma PredBound(g: Graph, i: nat)
    requires Consistent(g) && i < |g|
    ensures |g[i].pred| <= SuccWords(g)
  {
    TallyAll(g[i].pred, |g|);
    TallyBound(g, i, |g|);
    assert g[..|g|] == g;
  }

  // ----- the list region -----

  lemma {:induction false} ListsLength(g: Graph, i: nat)
    requires i <= |g|
    ensures |Lists(g, i)| == SuccWords(g[..i])
    ensures |Written(g, i)| <= |Lists(g, i)|
  {
    if i == 0 {
    } else {
      ListsLength(g, i - 1);
      SuccWordsPush(g, i);
    }
  }

  lemma {:induction false} ListsPrefix(g: Graph, i: nat, j: nat)
    requires i <= j <= |g|
    ensures Lists(g, i) <= Lists(g, j)
  {
    if j <= i {
    } else {
      ListsPrefix(g, i, j - 1);
    }
  }

  lemma {:induction false} SkippingNone(succ: seq<int>, k: nat, self: int)
    requires k <= |succ| && self !in succ
    ensures Skipping(succ, k, self) == succ[..k]
  {
    if k == 0 {
    } else {
      SkippingNone(succ, k - 1, self);
      assert succ[k - 1] in succ;
      assert succ[..k] == succ[..k - 1] + [succ[k - 1]];
    }
  }

  lemma {:induction false} SkippingSome(succ: seq<int>, k: nat, self: int)
    requires k <= |succ| && self in succ[..k]
    ensures |Skipping(succ, k, self)| < k
  {
    if k > 0 && succ[k - 1] != self {
      assert succ[..k] == succ[..k - 1] + [succ[k - 1]];
      SkippingSome(succ, k - 1, self);
    }
  }

  // Without self entries every expected word is written; with one, fewer are.
  lemma {:induction false} WrittenIsLists(g: Graph, i: nat)
    requires i <= |g|
    ensures (forall k :: 0 <= k < i ==> !OnItself(g, k)) ==> Written(g, i) == Lists(g, i)
    ensures (exists k :: 0 <= k < i && OnItself(g, k)) ==> |Written(g, i)| < |Lists(g, i)|
  {
    if i == 0 {
    } else {
      WrittenIsLists(g, i - 1);
      ListsLength(g, i - 1);
      var succ := g[i - 1].succ;
      assert succ[..|succ|] == succ;
      if OnItself(g, i - 1) {
        SkippingSome(succ, |succ|, i - 1);
      } else {
        SkippingNone(succ, |succ|, i - 1);
      }
    }
  }

  // List i inside the region.
  lemma ListsEntry(g: Graph, i: nat)
    requires i < |g|
    ensures Holds(Lists(g, |g|), |Lists(g, i)|, g[i].succ)
  {
    ListsPrefix(g, i + 1, |g|);
    assert Lists(g, i + 1) == Lists(g, i) + [|g[i].succ|] + g[i].succ;
    PrefixHolds(Lists(g, i), g[i].succ, Lists(g, |g|));
  }

  // At word `at` comes the length of succ, then succ.
  predicate Holds(all: seq<int>, at: nat, succ: seq<int>) {
    at + 1 + |succ| <= |all| && all[at] == |succ| && all[at + 1..at + 1 + |succ|] == succ
  }

  lemma PrefixHolds(before: seq<int>, succ: seq<int>, all: seq<int>)
    requires before + [|succ|] + succ <= all
    ensures Holds(all, |before|, succ)
  {
    var part := before + [|succ|] + succ;
    assert all[..|part|] == part;
    assert part[|before|] == |succ|;
    assert part[|before| + 1..] == succ;
    assert all[|before| + 1..|before| + 1 + |succ|] == part[|before| + 1..];
  }

  lemma {:induction false} ListFound(b: seq<Byte>, base: nat, g: Graph, i: nat)
    requires i <= |g| && WordsAt(b, base, Lists(g, |g|))
    ensures ListAt(b, base, i) == base + 4 * |Lists(g, i)|
  {
    if i == 0 {
    } else {
      ListFound(b, base, g, i - 1);
      ListsEntry(g, i - 1);
      assert Entry(b, base, |Lists(g, i - 1)|) == |g[i - 1].succ|;
    }
  }

  lemma SuccFound(b: seq<Byte>, base: nat, g: Graph, i: nat)
    requires i < |g| && WordsAt(b, base, Lists(g, |g|))
    ensures SuccAt(b, ListAt(b, base, i)) == g[i].succ
  {
    ListFound(b, base, g, i);
    ListsEntry(g, i);
    SuccWordsAt(b, base, |Lists(g, i)|, g[i].succ, Lists(g, |g|));
  }

  lemma {:induction false} ReadWordsEntry(b: seq<Byte>, at: nat, n: nat, k: nat)
    requires k < n
    ensures ReadWords(b, at, n)[k] == Read32(b, at + 4 * k)
  {
    if k < n - 1 {
      ReadWordsEntry(b, at, n - 1, k);
    }
  }

  lemma SuccWordsAt(b: seq<Byte>, base: nat, at: nat, succ: seq<int>, all: seq<int>)
    requires WordsAt(b, base, all) && Holds(all, at, succ)
    ensures SuccAt(b, base + 4 * at) == succ
  {
    var n := |succ|;
    assert Entry(b, base, at) == n;
    var read := ReadWords(b, base + 4 * at + 4, n);
    forall k | 0 <= k < n
      ensures read[k] == succ[k]
    {
      ReadWordsEntry(b, base + 4 * at + 4, n, k);
      assert Entry(b, base, at + 1 + k) == all[at + 1 + k];
      assert all[at + 1..at + 1 + n][k] == all[at + 1 + k];
    }
    assert read == succ;
  }

  // The first i lists read back right.
  predicate SuccsRead(b: seq<Byte>, base: nat, g: Graph, i: nat)
    requires i <= |g|
  {
    i == 0 || (SuccsRead(b, base, g, i - 1) && SuccAt(b, ListAt(b, base, i - 1)) == g[i - 1].succ)
  }

  // Then the region holds exactly the expected words.
  lemma {:induction false} ListsRead(b: seq<Byte>, base: nat, g: Graph, i: nat)
    requires i <= |g| && base + 4 * |Lists(g, i)| <= |b|
    requires SuccsRead(b, base, g, i)
    ensures ListAt(b, base, i) == base + 4 * |Lists(g, i)|
    ensures WordsAt(b, base, Lists(g, i))
  {
    if i == 0 {
    } else {
      ListsRead(b, base, g, i - 1);
      ListsReadStep(b, base, Lists(g, i - 1), g[i - 1].succ);
    }
  }

  lemma ListsReadStep(b: seq<Byte>, base: nat, before: seq<int>, succ: seq<int>)
    requires base + 4 * (|before| + 1 + |succ|) <= |b|
    requires WordsAt(b, base, before) && SuccAt(b, base + 4 * |before|) == succ
    ensures WordsAt(b, base, before + [|succ|] + succ)
    ensures Read32(b, base + 4 * |before|) == |succ|
  {
    var at, all := |before|, before + [|succ|] + succ;
    forall k | 0 <= k < |all|
      ensures Entry(b, base, k) == all[k]
    {
      if k < at {
        assert all[k] == before[k];
      } else if at < k {
        ReadWordsEntry(b, base + 4 * at + 4, |succ|, k - at - 1);
      }
    }
  }

  // ----- the round trip -----

  predicate DevicesOk(g: Graph) {
    forall i :: 0 <= i < |g| ==> g[i].dev < DEVICE_MAX
  }

  predicate PacksFit(g: Graph) {
    forall i :: 0 <= i < |g| ==> g[i].pack < 0x100
  }

  // Where the three tables of a built buffer start.
  lemma TablesFound(b: seq<Byte>, g: Graph)
    requires Encodes(b, g)
    ensures Read32(b, 32) == |g| && Read32(b, 36) == DepOfs(g) && Read32(b, 40) == PdrOfs(g)
  {
    EncodesAll(b, g);
  }

  lemma HdrFields(b: seq<Byte>, at: nat, node: Node)
    requires at + SC_HDR <= |b| && HdrAt(b, at, node)
    ensures Read32(b, at) == Wrap(node.dev) && Read8(b, at + 26) == node.pack % 0x100
  {
    assert HdrFieldAt(b, at, node, DevType) && HdrFieldAt(b, at, node, PackId);
  }

  lemma HeaderFound(b: seq<Byte>, g: Graph, i: nat) returns (hdr: nat)
    requires i < |g| && Encodes(b, g)
    ensures Read32(b, HDR + 4 * i) == hdr
    ensures Read32(b, hdr) == Wrap(g[i].dev) && Read8(b, hdr + 26) == g[i].pack % 0x100
  {
    EncodesAll(b, g);
    AtEach(b, g, |g|, i);
    HdrOfsMonotone(g, i, |g|);
    hdr := HdrOfs(g, i);
    HdrFields(b, hdr, g[i]);
  }

  lemma CountStored(b: seq<Byte>, g: Graph, i: nat, pdr: nat)
    requires i < |g| && Encodes(b, g) && pdr == PdrOfs(g)
    ensures Read32(b, pdr + 4 * i) == Wrap(|g[i].pred|)
  {
    EncodesAll(b, g);
    AtEach(b, g, |g|, i);
  }

  lemma SizeFits(b: seq<Byte>, g: Graph)
    requires Encodes(b, g)
    ensures SuccWords(g) < 0x1_0000_0000
  {
    EncodesAll(b, g);
  }

  lemma CountFound(b: seq<Byte>, g: Graph, i: nat, pdr: nat)
    requires Consistent(g) && i < |g| && Encodes(b, g) && pdr == PdrOfs(g)
    ensures Read32(b, pdr + 4 * i) == |g[i].pred|
  {
    CountStored(b, g, i, pdr);
    SizeFits(b, g);
    PredBound(g, i);
    WrapSmall(|g[i].pred|);
  }

  lemma SuccDecoded(b: seq<Byte>, g: Graph, i: nat, dep: nat)
    requires Encodes(b, g) && SelfFree(g) && i < |g| && dep == DepOfs(g)
    ensures SuccAt(b, ListAt(b, dep, i)) == g[i].succ
  {
    EncodesAll(b, g);
    WrittenIsLists(g, |g|);
    SuccFound(b, dep, g, i);
  }

  // What reading entry i gives, apart from its successors.
  predicate FieldsRead(b: seq<Byte>, i: nat, node: Node) {
    var r := DecodeOne(b, i);
    r.dev == node.dev && r.pack == node.pack % 0x100 && r.preds == |node.pred|
  }

  lemma FieldsFound(b: seq<Byte>, g: Graph, i: nat)
    requires Consistent(g) && DevicesOk(g) && Encodes(b, g) && i < |g|
    ensures FieldsRead(b, i, g[i])
  {
    TablesFound(b, g);
    var hdr := HeaderFound(b, g, i);
    CountFound(b, g, i, PdrOfs(g));
    WrapSmall(g[i].dev);
  }

  lemma SuccRead(b: seq<Byte>, g: Graph, i: nat)
    requires Encodes(b, g) && SelfFree(g) && i < |g|
    ensures DecodeOne(b, i).succ == g[i].succ
  {
    TablesFound(b, g);
    SuccDecoded(b, g, i, DepOfs(g));
  }

  lemma Assemble(b: seq<Byte>, i: nat, node: Node)
    requires FieldsRead(b, i, node) && DecodeOne(b, i).succ == node.succ && node.pack < 0x100
    ensures DecodeOne(b, i) == ViewOf(node)
  {
  }

  // Sub-command i comes back whole.
  lemma DecodedOne(b: seq<Byte>, g: Graph, i: nat)
    requires Consistent(g) && DevicesOk(g) && Encodes(b, g) && i < |g|
    requires SelfFree(g) && PacksFit(g)
    ensures DecodeOne(b, i) == ViewOf(g[i])
  {
    FieldsFound(b, g, i);
    SuccRead(b, g, i);
    Assemble(b, i, g[i]);
  }

  lemma RoundTrip(b: seq<Byte>, g: Graph)
    requires Consistent(g) && DevicesOk(g) && Encodes(b, g)
    requires SelfFree(g) && PacksFit(g)
    ensures Decode(b) == View(g)
  {
    TablesFound(b, g);
    forall i: nat | i < |g|
      ensures DecodeOne(b, i) == ViewOf(g[i])
    {
      DecodedOne(b, g, i);
    }
  }

  // A buffer that differs only where constructCmd writes nothing encodes the
  // same graph.
  lemma EncodesKept(b: seq<Byte>, b': seq<Byte>, g: Graph)
    requires Encodes(b, g) && Agree(b, b', 32, DepOfs(g) + 4 * |Written(g, |g|)|) && Agree(b, b', PdrOfs(g), |b|)
    ensures Encodes(b', g)
  {
    EncodesAll(b, g);
    Get32Kept(b, b', 32, HDR);
    HeadersKept(b, b', g, |g|);
    CountsKept(b, b', g, |g|);
    WordsKept(b, b', DepOfs(g), Written(g, |g|));
    EncodesAll(b', g);
  }

  lemma SelfGap(g: Graph)
    requires !SelfFree(g)
    ensures |Written(g, |g|)| < SuccWords(g)
  {
    WrittenIsLists(g, |g|);
    ListsLength(g, |g|);
    assert g[..|g|] == g;
  }

  lemma ByteDiffers(b: seq<Byte>, p: nat, v: Byte)
    requires p + 4 <= |b| && v != b[p]
    ensures Get32(b, p) != Get32(b[p := v], p)
  {
    Four(b, p);
    Four(b[p := v], p);
  }

  lemma SizeFound(b: seq<Byte>, g: Graph)
    requires Encodes(b, g)
    ensures |b| == Size(g)
  {
    EncodesAll(b, g);
  }

  // With a self entry the last word of the list region is never written, so a
  // buffer with another byte there encodes the graph just as well.
  lemma LastWordFree(b: seq<Byte>, g: Graph) returns (b': seq<Byte>)
    requires Encodes(b, g) && !SelfFree(g)
    ensures Encodes(b', g) && |b| == |b'| == Size(g)
    ensures DepOfs(g) + 4 <= PdrOfs(g) && Get32(b, PdrOfs(g) - 4) != Get32(b', PdrOfs(g) - 4)
  {
    SelfGap(g);
    SizeFound(b, g);
    var p := PdrOfs(g) - 4;
    var v: Byte := if b[p] == 0 then 1 else 0;
    b' := b[p := v];
    ByteDiffers(b, p, v);
    EncodesKept(b, b', g);
  }

  lemma DecodedWords(b: seq<Byte>, g: Graph)
    requires Consistent(g) && DevicesOk(g) && Encodes(b, g) && Decode(b) == View(g)
    ensures PacksFit(g) && |Lists(g, |g|)| == SuccWords(g) && WordsAt(b, DepOfs(g), Lists(g, |g|))
  {
    ListsLength(g, |g|);
    assert g[..|g|] == g;
    SizeFound(b, g);
    DecodedSuccs(b, g, DepOfs(g));
    ListsRead(b, DepOfs(g), g, |g|);
  }

  lemma DecodedSuccs(b: seq<Byte>, g: Graph, dep: nat)
    requires Consistent(g) && DevicesOk(g) && Encodes(b, g) && Decode(b) == View(g) && dep == DepOfs(g)
    ensures PacksFit(g) && SuccsRead(b, dep, g, |g|)
  {
    forall i: nat | i < |g|
      ensures g[i].pack < 0x100 && SuccAt(b, ListAt(b, dep, i)) == g[i].succ
    {
      DecodedStep(b, g, i, dep);
    }
    SuccsAll(b, dep, g, |g|);
  }

  lemma {:induction false} SuccsAll(b: seq<Byte>, base: nat, g: Graph, n: nat)
    requires n <= |g| && forall i: nat :: i < n ==> SuccAt(b, ListAt(b, base, i)) == g[i].succ
    ensures SuccsRead(b, base, g, n)
  {
    if n == 0 {
    } else {
      SuccsAll(b, base, g, n - 1);
    }
  }

  lemma DecodedStep(b: seq<Byte>, g: Graph, i: nat, dep: nat)
    requires Consistent(g) && DevicesOk(g) && Encodes(b, g) && Decode(b) == View(g) && i < |g| && dep == DepOfs(g)
    ensures SuccAt(b, ListAt(b, dep, i)) == g[i].succ && g[i].pack < 0x100
  {
    TablesFound(b, g);
    FieldsFound(b, g, i);
    assert Decode(b)[i] == DecodeOne(b, i) && View(g)[i] == ViewOf(g[i]);
  }

  // Decoding recovers device types, pack numbers, predecessor counts and
  // successor lists from every buffer built from the graph, exactly when no
  // sub-command lists itself and every pack number fits its byte.
  lemma RoundTripIff(b: seq<Byte>, g: Graph)
    requires Consistent(g) && DevicesOk(g) && Encodes(b, g)
    ensures (forall b': seq<Byte> :: Encodes(b', g) ==> Decode(b') == View(g)) <==> SelfFree(g) && PacksFit(g)
  {
    if SelfFree(g) && PacksFit(g) {
      forall b': seq<Byte> | Encodes(b', g)
        ensures Decode(b') == View(g)
      {
        RoundTrip(b', g);
      }
    } else if forall b': seq<Byte> :: Encodes(b', g) ==> Decode(b') == View(g) {
      DecodedWords(b, g);
      var b' := LastWordFree(b, g);
      DecodedWords(b', g);
      LastEntry(b, g);
      LastEntry(b', g);
      assert false;
    }
  }

  lemma LastEntry(b: seq<Byte>, g: Graph)
    requires |b| == Size(g) && DepOfs(g) + 4 <= PdrOfs(g)
    requires |Lists(g, |g|)| == SuccWords(g) && WordsAt(b, DepOfs(g), Lists(g, |g|))
    ensures Get32(b, PdrOfs(g) - 4) == Lists(g, |g|)[SuccWords(g) - 1]
  {
    assert Entry(b, DepOfs(g), SuccWords(g) - 1) == Lists(g, |g|)[SuccWords(g) - 1];
  }

  lemma PacksFitIff(st: State)
    requires PacksOk(st)
    ensures PacksFit(st.g) <==> st.packNum < 0x100
  {
    if st.packNum >= 0x100 {
      assert UsesPack(st.g, st.packNum);
    }
  }

  // For a buffer built after any history of calls: it decodes to the current
  // graph whatever the allocator left in it, exactly when no addSubCmd call named
  // its own index and fewer than 256 packs were made.
  lemma HistoryRoundTrip(ops: seq<Op>, st: State, b: seq<Byte>)
    requires Run(ops) == Some(st) && Encodes(b, st.g)
    ensures (forall b': seq<Byte> :: Encodes(b', st.g) ==> Decode(b') == View(st.g)) <==> !SelfNamed(ops) && st.packNum < 0x100
  {
    HistoryInvariant(ops);
    HistorySelfFree(ops);
    PacksFitIff(st);
    RoundTripIff(b, st.g);
  }
}
