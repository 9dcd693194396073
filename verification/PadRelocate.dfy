// Patching the recorded address fields once the buffers have real addresses.
module PadRelocate {
  import opened Words
  import opened DescRecord
  import opened PadSpec
  import opened PadFill

  // Store v in the address field at this byte offset of the list.
  function PatchField(ts: seq<Type0>, offset: nat, v: Word): (r: seq<Type0>)
    ensures |r| == |ts|
  {
    var k, f := Quot(offset, 64), Rem(offset, 64);
    if k < |ts| && f == SRC_FIELD then ts[k := ts[k].(src := v)]
    else if k < |ts| && f == DST_FIELD then ts[k := ts[k].(dst := v)]
    else ts
  }

  // Every recorded field becomes base + its address within the object.
  function Patched(ts: seq<Type0>, offsets: seq<nat>, addrs: seq<Word>, base: Word): (r: seq<Type0>)
    requires |offsets| == |addrs|
    ensures |r| == |ts|
    decreases |offsets|
  {
    if offsets == [] then ts
    else Patched(PatchField(ts, offsets[0], Wrap(base + addrs[0])), offsets[1..], addrs[1..], base)
  }

  // The request as filled for real: its addresses moved by the two bases.
  function Rebased(p: PadInfo, inBase: Word, outBase: Word): PadInfo {
    p.(src := Wrap(inBase + p.src), dst := Wrap(outBase + p.dst))
  }

  // Fill with object-relative addresses behind the records pre, then patch the
  // input list with one base and the output list with the other.
  function Relocated(pre: seq<Type0>, p: PadInfo, inBase: Word, outBase: Word): seq<Type0> {
    Patched(Patched(pre + Records(p), InOffsets(p, |pre|), InAddrs(p), inBase), OutOffsets(p, |pre|), OutAddrs(p), outBase)
  }

  lemma WrapTwice(base: Word, a: int, d: int)
    ensures Wrap(base + Wrap(a + d)) == Wrap(Wrap(base + a) + d)
  {
    WrapAdd(base, a + d);
    WrapAdd(d, base + a);
  }

  // Two records that differ only in their addresses, and those by a base each.
  predicate Shifted(t: Type0, u: Type0, inBase: Word, outBase: Word) {
    u == t.(src := u.src, dst := u.dst) && u.src == Wrap(inBase + t.src) && u.dst == Wrap(outBase + t.dst)
  }

  lemma MiddleShape(p: PadInfo, q: PadInfo, id: nat, atomic: nat)
    requires q == p.(src := q.src, dst := q.dst)
    ensures var t, u := Middle(p, id, atomic), Middle(q, id, atomic);
            u == t.(src := u.src, dst := u.dst)
  {
    assert StartOf(q) == StartOf(p) && InPitch(q) == InPitch(p) && OutPitch(q) == OutPitch(p);
  }

  lemma MiddleDsts(p: PadInfo, q: PadInfo, id: nat, atomic: nat) returns (ofs: int)
    requires q == p.(src := q.src, dst := q.dst)
    ensures Middle(p, id, atomic).dst == Wrap(p.dst + ofs) && Middle(q, id, atomic).dst == Wrap(q.dst + ofs)
  {
    ofs := StartOf(p) * p.elem;
  }

  lemma MovedBase(base: Word, a: Word, b: Word, ofs: int, d: Word, e: Word)
    requires b == Wrap(base + a) && d == Wrap(a + ofs) && e == Wrap(b + ofs)
    ensures e == Wrap(base + d)
  {
    WrapTwice(base, a, ofs);
  }

  lemma MiddleDst(p: PadInfo, q: PadInfo, id: nat, atomic: nat, inBase: Word, outBase: Word)
    requires q == Rebased(p, inBase, outBase)
    ensures Middle(q, id, atomic).dst == Wrap(outBase + Middle(p, id, atomic).dst)
  {
    var ofs := MiddleDsts(p, q, id, atomic);
    MovedBase(outBase, p.dst, q.dst, ofs, Middle(p, id, atomic).dst, Middle(q, id, atomic).dst);
  }

  lemma MiddleMoves(p: PadInfo, id: nat, atomic: nat, inBase: Word, outBase: Word)
    ensures Shifted(Middle(p, id, atomic), Middle(Rebased(p, inBase, outBase), id, atomic), inBase, outBase)
  {
    MiddleShape(p, Rebased(p, inBase, outBase), id, atomic);
    MiddleDst(p, Rebased(p, inBase, outBase), id, atomic, inBase, outBase);
  }

  // ----- patching one field of consecutive records -----

  function Field(t: Type0, field: nat): Word {
    if field == SRC_FIELD then t.src else t.dst
  }

  function Move(t: Type0, field: nat, base: Word): Type0 {
    if field == SRC_FIELD then t.(src := Wrap(base + t.src)) else t.(dst := Wrap(base + t.dst))
  }

  lemma PatchAt(ts: seq<Type0>, at: nat, k: nat, field: nat, base: Word)
    requires at + k < |ts| && (field == SRC_FIELD || field == DST_FIELD)
    ensures PatchField(ts, Offset(at, k, field), Wrap(base + Field(ts[at + k], field))) == ts[at + k := Move(ts[at + k], field, base)]
  {
    DivModUnique(64, at + k, field);
  }

  // The lists name the field of records at+k, at+k+1, ... in order.
  predicate Names(ts: seq<Type0>, offsets: seq<nat>, addrs: seq<Word>, at: nat, k: nat, field: nat) {
    && |offsets| == |addrs| && at + k + |offsets| <= |ts|
    && forall j :: 0 <= j < |offsets| ==> offsets[j] == Offset(at, k + j, field) && addrs[j] == Field(ts[at + k + j], field)
  }

  // In r, exactly the records lo to hi - 1 have moved.
  predicate Moved(ts: seq<Type0>, r: seq<Type0>, lo: nat, hi: nat, field: nat, base: Word) {
    |r| == |ts| && forall i :: 0 <= i < |ts| ==> r[i] == if lo <= i < hi then Move(ts[i], field, base) else ts[i]
  }

  lemma PatchFirst(ts: seq<Type0>, offsets: seq<nat>, addrs: seq<Word>, at: nat, k: nat, j: nat, field: nat, base: Word)
    returns (next: seq<Type0>)
    requires Names(ts, offsets, addrs, at, k, field) && (field == SRC_FIELD || field == DST_FIELD) && offsets != [] && j == k + 1
    ensures next == ts[at + k := Move(ts[at + k], field, base)] == PatchField(ts, offsets[0], Wrap(base + addrs[0]))
    ensures Names(next, offsets[1..], addrs[1..], at, j, field)
  {
    PatchAt(ts, at, k, field, base);
    assert offsets[0] == Offset(at, k + 0, field) && addrs[0] == Field(ts[at + k + 0], field);
    next := ts[at + k := Move(ts[at + k], field, base)];
    forall m | 0 <= m < |offsets| - 1
      ensures offsets[1..][m] == Offset(at, j + m, field) && addrs[1..][m] == Field(next[at + j + m], field)
    {
      assert offsets[m + 1] == Offset(at, k + (m + 1), field);
    }
  }

  lemma MovedFirst(ts: seq<Type0>, next: seq<Type0>, r: seq<Type0>, lo: nat, mid: nat, hi: nat, field: nat, base: Word)
    requires lo < |ts| && mid == lo + 1 <= hi && next == ts[lo := Move(ts[lo], field, base)] && Moved(next, r, mid, hi, field, base)
    ensures Moved(ts, r, lo, hi, field, base)
  {
  }

  // Then exactly those records move.
  lemma {:induction false} PatchRun(ts: seq<Type0>, offsets: seq<nat>, addrs: seq<Word>, at: nat, k: nat, field: nat, base: Word)
    requires Names(ts, offsets, addrs, at, k, field) && (field == SRC_FIELD || field == DST_FIELD)
    ensures Moved(ts, Patched(ts, offsets, addrs, base), at + k, at + k + |offsets|, field, base)
    decreases |offsets|
  {
    if offsets == [] {
    } else {
      var j := k + 1;
      var next := PatchFirst(ts, offsets, addrs, at, k, j, field, base);
      PatchRun(next, offsets[1..], addrs[1..], at, j, field, base);
      MovedFirst(ts, next, Patched(ts, offsets, addrs, base), at + k, at + j, at + k + |offsets|, field, base);
    }
  }

  // Moving the source fields leaves the destination fields named.
  lemma NamesKept(ts: seq<Type0>, r: seq<Type0>, offsets: seq<nat>, addrs: seq<Word>, at: nat, k: nat)
    requires Names(ts, offsets, addrs, at, k, DST_FIELD) && |r| == |ts|
    requires forall i :: 0 <= i < |ts| ==> r[i].dst == ts[i].dst
    ensures Names(r, offsets, addrs, at, k, DST_FIELD)
  {
  }

  // Record i after both lists, the sources of records from k on and every
  // destination, have been patched.
  function Both(t: Type0, sources: bool, inBase: Word, outBase: Word): Type0 {
    Move(if sources then Move(t, SRC_FIELD, inBase) else t, DST_FIELD, outBase)
  }

  lemma MovedTwice(ts: seq<Type0>, r: seq<Type0>, q: seq<Type0>, n: nat, k: nat, inBase: Word, outBase: Word, i: nat)
    requires Moved(ts, r, n + k, |ts|, SRC_FIELD, inBase) && Moved(r, q, n, |ts|, DST_FIELD, outBase) && i < |ts|
    ensures q[i] == if i < n then ts[i] else Both(ts[i], n + k <= i, inBase, outBase)
  {
  }

  lemma PatchLists(ts: seq<Type0>, ins: seq<nat>, inAddrs: seq<Word>, outs: seq<nat>, outAddrs: seq<Word>, n: nat, k: nat,
                   inBase: Word, outBase: Word, i: nat)
    requires Names(ts, ins, inAddrs, n, k, SRC_FIELD) && Names(ts, outs, outAddrs, n, 0, DST_FIELD)
    requires |ins| == |ts| - n - k && |outs| == |ts| - n && i < |ts|
    ensures Patched(Patched(ts, ins, inAddrs, inBase), outs, outAddrs, outBase)[i]
         == if i < n then ts[i] else Both(ts[i], n + k <= i, inBase, outBase)
  {
    PatchRun(ts, ins, inAddrs, n, k, SRC_FIELD, inBase);
    var r := Patched(ts, ins, inAddrs, inBase);
    NamesKept(ts, r, outs, outAddrs, n, 0);
    PatchRun(r, outs, outAddrs, n, 0, DST_FIELD, outBase);
    MovedTwice(ts, r, Patched(r, outs, outAddrs, outBase), n, k, inBase, outBase, i);
  }

  lemma PatchBoth(pre: seq<Type0>, p: PadInfo, k: nat, inBase: Word, outBase: Word, i: nat)
    requires Names(pre + Records(p), InOffsets(p, |pre|), InAddrs(p), |pre|, k, SRC_FIELD)
    requires Names(pre + Records(p), OutOffsets(p, |pre|), OutAddrs(p), |pre|, 0, DST_FIELD)
    requires |InOffsets(p, |pre|)| == |Records(p)| - k && |OutOffsets(p, |pre|)| == |Records(p)| && i < |pre| + |Records(p)|
    ensures Relocated(pre, p, inBase, outBase)[i]
         == if i < |pre| then pre[i] else Both(Records(p)[i - |pre|], |pre| + k <= i, inBase, outBase)
  {
    PatchLists(pre + Records(p), InOffsets(p, |pre|), InAddrs(p), OutOffsets(p, |pre|), OutAddrs(p), |pre|, k, inBase, outBase, i);
  }

  // ----- constant padding -----

  lemma ConstantNames(pre: seq<Type0>, p: PadInfo)
    requires p.mode == CONSTANT_PADDING
    ensures Names(pre + Records(p), InOffsets(p, |pre|), InAddrs(p), |pre|, 1, SRC_FIELD)
    ensures Names(pre + Records(p), OutOffsets(p, |pre|), OutAddrs(p), |pre|, 0, DST_FIELD)
  {
  }

  lemma ConstantParts(p: PadInfo)
    requires p.mode == CONSTANT_PADDING
    ensures Records(p)[0] == Background(p) && Records(p)[1] == Middle(p, p.descId + 1, 0)
  {
  }

  lemma ConstantBoth(p: PadInfo, q: PadInfo, inBase: Word, outBase: Word, k: nat)
    requires p.mode == CONSTANT_PADDING && k < 2 && q == Rebased(p, inBase, outBase)
    ensures Both(Records(p)[k], 1 <= k, inBase, outBase) == Records(q)[k]
  {
    ConstantParts(p);
    ConstantParts(q);
    if k == 0 {
      BackgroundMoves(p, q, inBase, outBase);
    } else {
      MiddleBoth(p, q, p.descId + 1, inBase, outBase);
    }
  }

  lemma MiddleBoth(p: PadInfo, q: PadInfo, id: nat, inBase: Word, outBase: Word)
    requires q == Rebased(p, inBase, outBase)
    ensures Both(Middle(p, id, 0), true, inBase, outBase) == Middle(q, id, 0)
  {
    MiddleMoves(p, id, 0, inBase, outBase);
    BothMoved(Middle(p, id, 0), Middle(q, id, 0), inBase, outBase);
  }

  lemma BothMoved(t: Type0, u: Type0, inBase: Word, outBase: Word)
    requires Shifted(t, u, inBase, outBase)
    ensures Both(t, true, inBase, outBase) == u
  {
  }

  lemma BackgroundMoves(p: PadInfo, q: PadInfo, inBase: Word, outBase: Word)
    requires q == p.(src := q.src, dst := Wrap(outBase + p.dst))
    ensures Both(Background(p), false, inBase, outBase) == Background(q)
  {
    BackgroundShape(p, q);
    BothDst(Background(p), inBase, outBase);
  }

  lemma BackgroundShape(p: PadInfo, q: PadInfo)
    requires q == p.(src := q.src, dst := q.dst)
    ensures Background(q) == Background(p).(dst := q.dst) && Background(p).dst == p.dst
  {
    assert OutPitch(q) == OutPitch(p) && OutWide(q) == OutWide(p) && OutHigh(q) == OutHigh(p);
  }

  lemma BothDst(t: Type0, inBase: Word, outBase: Word)
    ensures Both(t, false, inBase, outBase) == t.(dst := Wrap(outBase + t.dst))
  {
  }

  // Constant padding: patching gives the records a fill with the real addresses
  // would have given.
  lemma ConstantRelocates(pre: seq<Type0>, p: PadInfo, inBase: Word, outBase: Word)
    requires p.mode == CONSTANT_PADDING
    ensures Relocated(pre, p, inBase, outBase) == pre + Records(Rebased(p, inBase, outBase))
  {
    var r, q := Relocated(pre, p, inBase, outBase), pre + Records(Rebased(p, inBase, outBase));
    ConstantNames(pre, p);
    assert |r| == |q|;
    forall i: nat | i < |q|
      ensures r[i] == q[i]
    {
      PatchBoth(pre, p, 1, inBase, outBase, i);
      if |pre| <= i {
        ConstantBoth(p, Rebased(p, inBase, outBase), inBase, outBase, i - |pre|);
      }
    }
  }

  // ----- edge padding -----

  lemma EdgeNames(pre: seq<Type0>, p: PadInfo)
    requires p.mode == EDGE_PADDING
    ensures Names(pre + Records(p), InOffsets(p, |pre|), InAddrs(p), |pre|, 0, SRC_FIELD)
    ensures Names(pre + Records(p), OutOffsets(p, |pre|), OutAddrs(p), |pre|, 0, DST_FIELD)
  {
    EdgeNamed(p, |pre|);
    var ts := pre + Records(p);
    forall j | 0 <= j < 5
      ensures ts[|pre| + 0 + j] == Records(p)[j]
    {
    }
  }

  lemma EdgeNamed(p: PadInfo, at: nat)
    requires p.mode == EDGE_PADDING
    ensures |Records(p)| == |InOffsets(p, at)| == |InAddrs(p)| == |OutOffsets(p, at)| == |OutAddrs(p)| == 5
    ensures forall j :: 0 <= j < 5 ==> InOffsets(p, at)[j] == Offset(at, 0 + j, SRC_FIELD) && InAddrs(p)[j] == Records(p)[j].src
    ensures forall j :: 0 <= j < 5 ==> OutOffsets(p, at)[j] == Offset(at, 0 + j, DST_FIELD) && OutAddrs(p)[j] == Records(p)[j].dst
  {
  }

  // Adding a base to a wrapped address inside the output.
  lemma ColumnMoves(p: PadInfo, x: int, inBase: Word, outBase: Word)
    ensures ColumnAddr(Rebased(p, inBase, outBase), x) == Wrap(outBase + ColumnAddr(p, x))
  {
    WrapTwice(outBase, p.dst, x * p.elem);
  }

  lemma RowMoves(p: PadInfo, y: int, inBase: Word, outBase: Word)
    ensures RowAddr(Rebased(p, inBase, outBase), y) == Wrap(outBase + RowAddr(p, y))
  {
    WrapTwice(outBase, p.dst, y * p.Row());
  }

  // Nothing but the addresses depends on the bases.
  lemma SameShape(p: PadInfo, inBase: Word, outBase: Word)
    ensures OutPitch(Rebased(p, inBase, outBase)) == OutPitch(p) && OutWide(Rebased(p, inBase, outBase)) == OutWide(p)
    ensures OutHigh(Rebased(p, inBase, outBase)) == OutHigh(p)
  {
  }

  lemma ColumnOfMoves(id: nat, src: Word, dst: Word, pitch: Word, elem: Byte, high: nat, n: Word, base: Word)
    ensures ColumnOf(id, Wrap(base + src), Wrap(base + dst), pitch, elem, high, n) == Both(ColumnOf(id, src, dst, pitch, elem, high, n), true, base, base)
  {
  }

  lemma RowOfMoves(id: nat, atomic: nat, src: Word, dst: Word, pitch: Word, wide: nat, n: Word, base: Word)
    ensures RowOf(id, atomic, Wrap(base + src), Wrap(base + dst), pitch, wide, n) == Both(RowOf(id, atomic, src, dst, pitch, wide, n), true, base, base)
  {
  }

  lemma ColumnSideMoves(p: PadInfo, q: PadInfo, id: nat, src: Word, dst: Word, n: Word, base: Word)
    requires OutPitch(q) == OutPitch(p) && OutHigh(q) == OutHigh(p) && q.elem == p.elem
    ensures ColumnSide(q, id, Wrap(base + src), Wrap(base + dst), n) == Both(ColumnSide(p, id, src, dst, n), true, base, base)
  {
    ColumnOfMoves(id, src, dst, OutPitch(p), p.elem, OutHigh(p), n, base);
  }

  lemma RowSideMoves(p: PadInfo, q: PadInfo, id: nat, atomic: nat, src: Word, dst: Word, n: Word, base: Word)
    requires OutPitch(q) == OutPitch(p) && OutWide(q) == OutWide(p)
    ensures RowSide(q, id, atomic, Wrap(base + src), Wrap(base + dst), n) == Both(RowSide(p, id, atomic, src, dst, n), true, base, base)
  {
    RowOfMoves(id, atomic, src, dst, OutPitch(p), OutWide(p), n, base);
  }

  // A record of a side as filled for real: both its addresses lie in the output.
  lemma LeftMoves(p: PadInfo, inBase: Word, outBase: Word)
    ensures LeftOf(Rebased(p, inBase, outBase)) == Both(LeftOf(p), true, outBase, outBase)
  {
    SameShape(p, inBase, outBase);
    ColumnMoves(p, p.left, inBase, outBase);
    ColumnSideMoves(p, Rebased(p, inBase, outBase), p.descId + 1, ColumnAddr(p, p.left), p.dst, p.left, outBase);
  }

  lemma ColumnMoved(p: PadInfo, inBase: Word, outBase: Word, id: nat, j: int, k: int, n: Word)
    ensures var q := Rebased(p, inBase, outBase);
            ColumnSide(q, id, ColumnAddr(q, j), ColumnAddr(q, k), n) == Both(ColumnSide(p, id, ColumnAddr(p, j), ColumnAddr(p, k), n), true, outBase, outBase)
  {
    SameShape(p, inBase, outBase);
    ColumnMoves(p, j, inBase, outBase);
    ColumnMoves(p, k, inBase, outBase);
    ColumnSideMoves(p, Rebased(p, inBase, outBase), id, ColumnAddr(p, j), ColumnAddr(p, k), n, outBase);
  }

  lemma RightMoves(p: PadInfo, inBase: Word, outBase: Word)
    ensures RightOf(Rebased(p, inBase, outBase)) == Both(RightOf(p), true, outBase, outBase)
  {
    ColumnMoved(p, inBase, outBase, p.descId + 2, p.left + p.sx - 1, p.left + p.sx, p.right);
  }

  lemma TopMoves(p: PadInfo, inBase: Word, outBase: Word)
    ensures TopOf(Rebased(p, inBase, outBase)) == Both(TopOf(p), true, outBase, outBase)
  {
    SameShape(p, inBase, outBase);
    RowMoves(p, p.top, inBase, outBase);
    RowSideMoves(p, Rebased(p, inBase, outBase), p.descId + 3, 1, RowAddr(p, p.top), p.dst, p.top, outBase);
  }

  lemma RowMoved(p: PadInfo, inBase: Word, outBase: Word, id: nat, atomic: nat, j: int, k: int, n: Word)
    ensures var q := Rebased(p, inBase, outBase);
            RowSide(q, id, atomic, RowAddr(q, j), RowAddr(q, k), n) == Both(RowSide(p, id, atomic, RowAddr(p, j), RowAddr(p, k), n), true, outBase, outBase)
  {
    SameShape(p, inBase, outBase);
    RowMoves(p, j, inBase, outBase);
    RowMoves(p, k, inBase, outBase);
    RowSideMoves(p, Rebased(p, inBase, outBase), id, atomic, RowAddr(p, j), RowAddr(p, k), n, outBase);
  }

  lemma BottomMoves(p: PadInfo, inBase: Word, outBase: Word)
    ensures BottomOf(Rebased(p, inBase, outBase)) == Both(BottomOf(p), true, outBase, outBase)
  {
    RowMoved(p, inBase, outBase, p.descId + 4, 0, p.top + p.sy - 1, p.top + p.sy, p.bottom);
  }

  lemma WrapCancel(a: Word, b: Word, x: int)
    ensures Wrap(a + x) == Wrap(b + x) <==> a == b
  {
    if a != b {
      WrapShift(a + x, -((a + x) / 0x1_0000_0000));
      WrapShift(b + x, -((b + x) / 0x1_0000_0000));
    }
  }

  lemma ShiftedIff(t: Type0, u: Type0, inBase: Word, outBase: Word)
    requires u == Both(t, true, outBase, outBase)
    ensures Both(t, true, inBase, outBase) == u <==> inBase == outBase
  {
    WrapCancel(inBase, outBase, t.src);
  }

  lemma EdgeBoth(p: PadInfo, inBase: Word, outBase: Word, k: nat)
    requires p.mode == EDGE_PADDING && k < 5
    ensures Both(Records(p)[k], true, inBase, outBase) == Records(Rebased(p, inBase, outBase))[k] <==> k == 0 || inBase == outBase
  {
    var t, u := Records(p)[k], Records(Rebased(p, inBase, outBase))[k];
    if k == 0 {
      MiddleMoves(p, p.descId, 1, inBase, outBase);
    } else if k == 1 {
      LeftMoves(p, inBase, outBase);
      ShiftedIff(t, u, inBase, outBase);
    } else if k == 2 {
      RightMoves(p, inBase, outBase);
      ShiftedIff(t, u, inBase, outBase);
    } else if k == 3 {
      TopMoves(p, inBase, outBase);
      ShiftedIff(t, u, inBase, outBase);
    } else {
      BottomMoves(p, inBase, outBase);
      ShiftedIff(t, u, inBase, outBase);
    }
  }

  // Edge padding: the four side descriptors read the output buffer, but their
  // source fields are recorded among the input's. Patching is right exactly
  // when both buffers get the same base.
  lemma EdgeRelocatesIff(pre: seq<Type0>, p: PadInfo, inBase: Word, outBase: Word)
    requires p.mode == EDGE_PADDING
    ensures Relocated(pre, p, inBase, outBase) == pre + Records(Rebased(p, inBase, outBase)) <==> inBase == outBase
  {
    var r, q := Relocated(pre, p, inBase, outBase), pre + Records(Rebased(p, inBase, outBase));
    EdgeNames(pre, p);
    EdgeNamed(p, |pre|);
    assert |r| == |q|;
    forall i: nat | i < |q|
      ensures r[i] == q[i] <==> i <= |pre| || inBase == outBase
    {
      PatchBoth(pre, p, 0, inBase, outBase, i);
      if |pre| <= i {
        EdgeBoth(p, inBase, outBase, i - |pre|);
      }
    }
    assert r[|pre| + 1] == q[|pre| + 1] <==> inBase == outBase;
  }
}
