// The descriptors of the MVPU interface as records. A type 15 descriptor drives
// up to four lanes, each with a read and a write side of its own.
module MvpuRecord {
  import opened Words
  import opened Machine
  import opened DescRecord

  datatype Lane = Lane(src: Word, dst: Word, srcX: Word, dstX: Word, srcY: Word, dstY: Word,
                       srcXs: nat, dstXs: nat, srcYs: nat, dstYs: nat, srcZs: nat, dstZs: nat)

  const UNUSED := Lane(0, 0, 0, 0, 0, 0, 0, 0, 0, 0, 0, 0)

  // Bits 0-3 of pipes switch on the readers of the lanes, bits 4-7 the writers.
  datatype Record =
    | Plain(t: Type0)
    | Routed(id: nat, safe: nat, atomic: nat, readTmp: bool, writeTmp: bool,
             inMatrix: nat, inSwapper: nat, router: nat, pipes: Byte, lanes: seq<Lane>)

  // Bit k of v.
  predicate BitOf(v: nat, k: nat) {
    if k == 0 then v % 2 == 1 else BitOf(v / 2, k - 1)
  }

  predicate Active(pipes: Byte, k: nat) {
    BitOf(pipes, k) && BitOf(pipes, k + 4)
  }

  function ReadSide(l: Lane, tmp: bool): Side {
    Side(tmp, l.src, l.srcX, l.srcY, l.srcXs, l.srcYs, l.srcZs)
  }

  function WriteSide(l: Lane, tmp: bool): Side {
    Side(tmp, l.dst, l.dstX, l.dstY, l.dstXs, l.dstYs, l.dstZs)
  }

  // The swapper reverses bytes only when it is on and its matrix says so.
  function LaneCopy(r: Record, l: Lane): Desc
    requires r.Routed?
  {
    Copy(ReadSide(l, r.readTmp), WriteSide(l, r.writeTmp), r.inSwapper == 3 && r.inMatrix == 0x1248)
  }

  // Lanes k to n - 1 of a type 15 descriptor, those that are on.
  function LanesTo(r: Record, k: nat, n: nat): seq<Desc>
    requires r.Routed? && n <= |r.lanes|
    decreases n - k
  {
    if k >= n then []
    else (if Active(r.pipes, k) then [LaneCopy(r, r.lanes[k])] else []) + LanesTo(r, k + 1, n)
  }

  lemma {:induction false} LanesStop(r: Record, k: nat, n: nat)
    requires r.Routed? && n <= |r.lanes| && forall i: nat :: k <= i < n ==> !Active(r.pipes, i)
    ensures LanesTo(r, k, n) == []
    decreases n - k
  {
    if n <= k {
    } else {
      LanesStop(r, k + 1, n);
    }
  }

  lemma Regroup(a: seq<Desc>, b: seq<Desc>, c: seq<Desc>)
    ensures a + (b + c) == (a + b) + c
  {
  }

  // The active lanes from k on, below n.
  function ActiveFrom(pipes: Byte, k: nat, n: nat): seq<nat>
    decreases n - k
  {
    if k >= n then [] else (if Active(pipes, k) then [k] else []) + ActiveFrom(pipes, k + 1, n)
  }

  // They come once each, in order.
  predicate InOrder(pipes: Byte, ks: seq<nat>, k: nat, n: nat) {
    && (forall i :: 0 <= i < |ks| ==> k <= ks[i] < n && Active(pipes, ks[i]))
    && forall i, j :: 0 <= i < j < |ks| ==> ks[i] < ks[j]
  }

  lemma InOrderCons(pipes: Byte, k: nat, next: nat, n: nat, rest: seq<nat>)
    requires next == k + 1 && k < n && InOrder(pipes, rest, next, n)
    ensures InOrder(pipes, rest, k, n)
    ensures Active(pipes, k) ==> InOrder(pipes, [k] + rest, k, n)
  {
  }

  lemma {:induction false} ActiveOrder(pipes: Byte, k: nat, n: nat)
    ensures InOrder(pipes, ActiveFrom(pipes, k, n), k, n)
    decreases n - k
  {
    if n <= k {
    } else {
      var next := k + 1;
      ActiveOrder(pipes, next, n);
      InOrderCons(pipes, k, next, n, ActiveFrom(pipes, next, n));
      assert [] + ActiveFrom(pipes, next, n) == ActiveFrom(pipes, next, n);
    }
  }

  lemma {:induction false} ActiveIn(pipes: Byte, k: nat, n: nat, i: nat)
    requires k <= i < n && Active(pipes, i)
    ensures i in ActiveFrom(pipes, k, n)
    decreases n - k
  {
    if k == i {
    } else {
      ActiveIn(pipes, k + 1, n, i);
    }
  }

  // Lanes k to n - 1 on, the rest off.
  lemma {:induction false} ActiveRun(pipes: Byte, k: nat, n: nat, top: nat)
    requires k <= n <= top
    requires (forall i :: k <= i < n ==> Active(pipes, i)) && forall i :: n <= i < top ==> !Active(pipes, i)
    ensures ActiveFrom(pipes, k, top) == seq(n - k, i => k + i)
    decreases top - k
  {
    if k < n {
      var next := k + 1;
      ActiveRun(pipes, next, n, top);
      assert seq(n - k, i => k + i) == [k] + seq(n - next, i => next + i);
    } else if k < top {
      var next := k + 1;
      ActiveRun(pipes, next, next, top);
    }
  }

  lemma {:induction false} LanesAre(r: Record, k: nat, n: nat)
    requires r.Routed? && n <= |r.lanes|
    ensures var ks := ActiveFrom(r.pipes, k, n);
            && |LanesTo(r, k, n)| == |ks|
            && forall i :: 0 <= i < |ks| ==> ks[i] < n && LanesTo(r, k, n)[i] == LaneCopy(r, r.lanes[ks[i]])
    decreases n - k
  {
    if n <= k {
    } else {
      LanesAre(r, k + 1, n);
    }
  }

  // The lanes that are on, each once, in some order.
  ghost predicate Order(pipes: Byte, ks: seq<nat>, n: nat) {
    && (forall k: nat :: k in ks <==> k < n && Active(pipes, k))
    && forall i, j :: 0 <= i < j < |ks| ==> ks[i] != ks[j]
  }

  function LanesBy(r: Record, ks: seq<nat>): (q: seq<Desc>)
    requires r.Routed? && forall k :: k in ks ==> k < |r.lanes|
    ensures |q| == |ks|
  {
    seq(|ks|, i requires 0 <= i < |ks| => assert ks[i] in ks; LaneCopy(r, r.lanes[ks[i]]))
  }

  // Ascending is the order of Meaning.
  lemma Ascending(r: Record)
    requires r.Routed?
    ensures Order(r.pipes, ActiveFrom(r.pipes, 0, |r.lanes|), |r.lanes|)
    ensures LanesBy(r, ActiveFrom(r.pipes, 0, |r.lanes|)) == Meaning(r)
  {
    var n := |r.lanes|;
    var ks := ActiveFrom(r.pipes, 0, n);
    LanesAre(r, 0, n);
    ActiveOrder(r.pipes, 0, n);
    forall k: nat | k < n && Active(r.pipes, k)
      ensures k in ks
    {
      ActiveIn(r.pipes, 0, n, k);
    }
  }

  // The lanes below n from the last one down.
  function ActiveDown(pipes: Byte, n: nat): seq<nat> {
    if n == 0 then [] else (if Active(pipes, n - 1) then [n - 1] else []) + ActiveDown(pipes, n - 1)
  }

  lemma {:induction false} Descending(pipes: Byte, n: nat)
    ensures Order(pipes, ActiveDown(pipes, n), n)
    ensures forall i, j :: 0 <= i < j < |ActiveDown(pipes, n)| ==> ActiveDown(pipes, n)[i] > ActiveDown(pipes, n)[j]
  {
    if n == 0 {
    } else {
      var m := n - 1;
      Descending(pipes, m);
      DownCons(pipes, m, n, ActiveDown(pipes, m), ActiveDown(pipes, n));
    }
  }

  lemma DownCons(pipes: Byte, m: nat, n: nat, rest: seq<nat>, ks: seq<nat>)
    requires n == m + 1 && Order(pipes, rest, m) && forall i, j :: 0 <= i < j < |rest| ==> rest[i] > rest[j]
    requires ks == (if Active(pipes, m) then [m] else []) + rest
    ensures Order(pipes, ks, n) && forall i, j :: 0 <= i < j < |ks| ==> ks[i] > ks[j]
  {
    assert forall i :: 0 <= i < |rest| ==> rest[i] in rest;
  }

  function Meaning(r: Record): seq<Desc> {
    if r.Plain? then [DescOf(r.t)] else LanesTo(r, 0, |r.lanes|)
  }

  function Meanings(rs: seq<Record>): seq<Desc> {
    if rs == [] then [] else Meaning(rs[0]) + Meanings(rs[1..])
  }

  lemma {:induction false} MeaningsStep(a: Record, rs: seq<Record>)
    ensures Meanings([a] + rs) == Meaning(a) + Meanings(rs)
  {
    assert ([a] + rs)[0] == a && ([a] + rs)[1..] == rs;
  }

  lemma ThreeMeanings(a: Record, b: Record, c: Record)
    ensures Meanings([a, b, c]) == Meaning(a) + (Meaning(b) + Meaning(c))
  {
    var none: seq<Record> := [];
    assert [a, b, c] == [a] + ([b] + ([c] + none));
    MeaningsStep(a, [b] + ([c] + none));
    MeaningsStep(b, [c] + none);
    MeaningsStep(c, none);
    assert Meaning(c) + Meanings(none) == Meaning(c);
  }
}
