// edma_rotate_addr_list: reordering a list of tile addresses for a turn of the
// tile grid.
module TileOrder {
  import opened Words
  import opened RotationSpec
  import opened Rotation

  const MAX_TILE_ROTATE: nat := 16

  // Entry (i, j) of a list in rows of xn moves to this place.
  function PlaceAt(angle: Angle, xn: nat, yn: nat, i: nat, j: nat): int {
    if angle == 0 then xn * i + j
    else if angle == 1 then yn * (xn - 1) + i - yn * j
    else if angle == 2 then xn * yn - 1 - xn * i - j
    else yn - 1 - i + yn * j
  }

  // Where entry t of the reordered list comes from: the list holds destinations
  // in rows of xn, its new entry t is the one source tile t is turned onto.
  function From(angle: Angle, xn: nat, yn: nat, t: nat): (p: nat)
    requires t < xn * yn
    ensures p < xn * yn
  {
    var w, h := OutW(angle, xn, yn), OutH(angle, xn, yn);
    var i, j := TileRow(w, h, t), Rem(t, w);
    LinBound(xn, yn, 1, RotY(angle, w, h, i, j), RotX(angle, w, h, i, j), 0);
    xn * RotY(angle, w, h, i, j) + RotX(angle, w, h, i, j)
  }

  function TileRow(w: nat, h: nat, t: nat): (i: nat)
    requires t < w * h
    ensures 0 < w && i < h
  {
    assert 0 < w;
    QuotRem(t, w);
    RowBelow(w, h, Quot(t, w), Rem(t, w));
    Quot(t, w)
  }

  lemma RowBelow(w: nat, h: nat, i: nat, j: nat)
    requires i * w + j < w * h
    ensures i < h
  {
    if h <= i {
      MulLe(h, i, w);
    }
  }

  lemma DivideBack(w: nat, i: nat, j: nat, t: nat)
    requires j < w && t == w * i + j
    ensures Quot(t, w) == i && Rem(t, w) == j
  {
    DivModUnique(w, i, j);
  }

  // Source tile (i, j) gets the destination it is turned onto.
  lemma FromTile(angle: Angle, xn: nat, yn: nat, i: nat, j: nat)
    requires i < OutH(angle, xn, yn) && j < OutW(angle, xn, yn)
    ensures var w, h := OutW(angle, xn, yn), OutH(angle, xn, yn);
            && 0 <= w * i + j < xn * yn
            && From(angle, xn, yn, w * i + j) == xn * RotY(angle, w, h, i, j) + RotX(angle, w, h, i, j)
  {
    var w, h := OutW(angle, xn, yn), OutH(angle, xn, yn);
    LinBound(w, h, 1, i, j, 0);
    DivideBack(w, i, j, w * i + j);
  }

  function Back(angle: Angle): Angle {
    (4 - angle) % 4
  }

  lemma PlaceIsTurn(angle: Angle, xn: nat, yn: nat, i: nat, j: nat)
    requires i < yn && j < xn
    ensures PlaceAt(angle, xn, yn, i, j)
         == OutW(angle, xn, yn) * RotY(Back(angle), xn, yn, i, j) + RotX(Back(angle), xn, yn, i, j)
  {
    assert yn * (xn - 1) - yn * j == yn * (xn - 1 - j);
    assert xn * yn - xn * i - xn == xn * (yn - 1 - i);
  }

  // The two directions undo each other, so each entry keeps exactly one place.
  lemma FromPlace(angle: Angle, xn: nat, yn: nat, i: nat, j: nat)
    requires i < yn && j < xn
    ensures 0 <= PlaceAt(angle, xn, yn, i, j) < xn * yn
    ensures From(angle, xn, yn, PlaceAt(angle, xn, yn, i, j)) == xn * i + j
  {
    var b := Back(angle);
    PlaceIsTurn(angle, xn, yn, i, j);
    RotCompose(b, angle, xn, yn, i, j);
    FromTile(angle, xn, yn, RotY(b, xn, yn, i, j), RotX(b, xn, yn, i, j));
  }

  // Row and column of entry t of a list in rows of w.
  lemma Coordinates(w: nat, h: nat, t: nat) returns (i: nat, j: nat)
    requires t < w * h
    ensures i < h && j < w && t == w * i + j
  {
    i, j := TileRow(w, h, t), Rem(t, w);
    QuotRem(t, w);
  }

  lemma PlaceFrom(angle: Angle, xn: nat, yn: nat, t: nat) returns (y: nat, x: nat)
    requires t < xn * yn
    ensures y < yn && x < xn && From(angle, xn, yn, t) == xn * y + x && PlaceAt(angle, xn, yn, y, x) == t
  {
    var w, h := OutW(angle, xn, yn), OutH(angle, xn, yn);
    assert w * h == xn * yn;
    var i, j := Coordinates(w, h, t);
    FromTile(angle, xn, yn, i, j);
    y, x := RotY(angle, w, h, i, j), RotX(angle, w, h, i, j);
    PlaceIsTurn(angle, xn, yn, y, x);
    RotCompose(angle, Back(angle), w, h, i, j);
  }

  lemma SameEntry(n: nat, y: nat, x: nat, y': nat, x': nat)
    requires x < n && x' < n && n * y + x == n * y' + x'
    ensures y == y' && x == x'
  {
    DivModUnique(n, y, x);
    DivModUnique(n, y', x');
  }

  lemma FromInjective(angle: Angle, xn: nat, yn: nat, t: nat, u: nat)
    requires t < xn * yn && u < xn * yn && From(angle, xn, yn, t) == From(angle, xn, yn, u)
    ensures t == u
  {
    var y, x := PlaceFrom(angle, xn, yn, t);
    var y', x' := PlaceFrom(angle, xn, yn, u);
    SameEntry(xn, y, x, y', x');
  }

  function Turned<T>(angle: Angle, xn: nat, yn: nat, s: seq<T>): (r: seq<T>)
    requires |s| == xn * yn
    ensures |r| == |s|
  {
    seq(xn * yn, t requires 0 <= t < xn * yn => s[From(angle, xn, yn, t)])
  }

  lemma FromBack(angle: Angle, xn: nat, yn: nat, w: nat, h: nat, t: nat)
    requires t < xn * yn && w == OutW(angle, xn, yn) && h == OutH(angle, xn, yn) && w * h == xn * yn
    ensures From(angle, xn, yn, From(Back(angle), w, h, t)) == t
  {
    var i, j := Coordinates(xn, yn, t);
    FromTile(Back(angle), w, h, i, j);
    FromTile(angle, xn, yn, RotY(Back(angle), xn, yn, i, j), RotX(Back(angle), xn, yn, i, j));
    RotCompose(Back(angle), angle, xn, yn, i, j);
  }

  // Turning the list and turning it back, angle 1 then 3 among others, is the
  // identity.
  lemma TurnBack<T>(angle: Angle, xn: nat, yn: nat, s: seq<T>)
    requires |s| == xn * yn
    ensures OutW(angle, xn, yn) * OutH(angle, xn, yn) == xn * yn
    ensures Turned(Back(angle), OutW(angle, xn, yn), OutH(angle, xn, yn), Turned(angle, xn, yn, s)) == s
  {
    var w, h := OutW(angle, xn, yn), OutH(angle, xn, yn);
    assert w * h == xn * yn;
    var r := Turned(Back(angle), w, h, Turned(angle, xn, yn, s));
    forall t | 0 <= t < xn * yn
      ensures r[t] == s[t]
    {
      FromBack(angle, xn, yn, w, h, t);
    }
  }

  // ----- reordering in place -----

  // The first p entries are where they belong; what is behind the list is as it was.
  ghost predicate Scattered(angle: Angle, xn: nat, yn: nat, was: seq<Word>, now: seq<Word>, p: nat) {
    && |now| == |was| && xn * yn <= |was|
    && (forall t: nat :: t < xn * yn && From(angle, xn, yn, t) < p ==> now[t] == was[From(angle, xn, yn, t)])
    && forall t :: xn * yn <= t < |was| ==> now[t] == was[t]
  }

  lemma ScatterStep(angle: Angle, xn: nat, yn: nat, was: seq<Word>, now: seq<Word>, i: nat, j: nat, p: nat, next: nat, k: int)
    requires i < yn && j < xn && p == xn * i + j && next == p + 1 && k == PlaceAt(angle, xn, yn, i, j)
    requires Scattered(angle, xn, yn, was, now, p)
    ensures p < xn * yn && 0 <= k < xn * yn
    ensures Scattered(angle, xn, yn, was, now[k := was[p]], next)
  {
    FromPlace(angle, xn, yn, i, j);
    forall t: nat | t < xn * yn && From(angle, xn, yn, t) < next
      ensures now[k := was[p]][t] == was[From(angle, xn, yn, t)]
    {
      if t != k && From(angle, xn, yn, t) == p {
        FromInjective(angle, xn, yn, t, k);
      }
    }
  }

  lemma ScatterDone(angle: Angle, xn: nat, yn: nat, was: seq<Word>, now: seq<Word>)
    requires Scattered(angle, xn, yn, was, now, xn * yn)
    ensures now == Turned(angle, xn, yn, was[..xn * yn]) + was[xn * yn..]
  {
    var r := Turned(angle, xn, yn, was[..xn * yn]) + was[xn * yn..];
    forall t: nat | t < |was|
      ensures now[t] == r[t]
    {
      if t < xn * yn {
        assert From(angle, xn, yn, t) < xn * yn;
      }
    }
  }

  lemma EntryBelow(xn: nat, yn: nat, i: nat, j: nat)
    requires i < yn && j < xn
    ensures 0 <= xn * i + j < xn * yn
  {
    LinBound(xn, yn, 1, i, j, 0);
  }

  function Entry(was: seq<Word>, xn: nat, yn: nat, i: nat, j: nat): Word
    requires i < yn && j < xn && xn * yn <= |was|
  {
    EntryBelow(xn, yn, i, j);
    was[xn * i + j]
  }

  // The first n rows of the matrix are those of the list.
  ghost predicate Filled(m: array2<Word>, xn: nat, yn: nat, was: seq<Word>, n: nat)
    requires xn * yn <= |was| && n <= yn <= m.Length0 && xn <= m.Length1
    reads m
  {
    forall i: nat, j: nat :: i < n && j < xn ==> m[i, j] == Entry(was, xn, yn, i, j)
  }

  method CopyRow(xn: nat, yn: nat, addrList: array<Word>, m: array2<Word>, i: nat, next: nat)
    requires xn * yn <= addrList.Length && i < yn <= m.Length0 && xn <= m.Length1 && next == i + 1
    requires Filled(m, xn, yn, addrList[..], i)
    modifies m
    ensures Filled(m, xn, yn, addrList[..], next)
  {
    ghost var was := addrList[..];
    for j := 0 to xn
      invariant Filled(m, xn, yn, was, i)
      invariant forall b: nat :: b < j ==> m[i, b] == Entry(was, xn, yn, i, b)
    {
      EntryBelow(xn, yn, i, j);
      m[i, j] := addrList[xn * i + j];
    }
  }

  method CopyMatrix(xn: nat, yn: nat, addrList: array<Word>, m: array2<Word>)
    requires xn * yn <= addrList.Length && yn <= m.Length0 && xn <= m.Length1
    modifies m
    ensures Filled(m, xn, yn, addrList[..], yn)
  {
    var i := 0;
    while i < yn
      invariant 0 <= i <= yn
      invariant Filled(m, xn, yn, addrList[..], i)
    {
      var next := i + 1;
      CopyRow(xn, yn, addrList, m, i, next);
      i := next;
    }
  }

  lemma NextRow(xn: nat, i: nat, k: nat)
    requires k == i + 1
    ensures xn * i + xn == xn * k
  {
  }

  method ScatterRow(angle: Angle, xn: nat, yn: nat, m: array2<Word>, i: nat, addrList: array<Word>, ghost was: seq<Word>)
    requires i < yn <= m.Length0 && xn <= m.Length1 && addrList.Length == |was|
    requires xn * yn <= |was| && Filled(m, xn, yn, was, yn) && Scattered(angle, xn, yn, was, addrList[..], xn * i)
    modifies addrList
    ensures Scattered(angle, xn, yn, was, addrList[..], xn * i + xn)
  {
    var j := 0;
    while j < xn
      invariant 0 <= j <= xn
      invariant Scattered(angle, xn, yn, was, addrList[..], xn * i + j)
    {
      var next, k := j + 1, PlaceAt(angle, xn, yn, i, j);
      ghost var p := xn * i + j;
      EntryBelow(xn, yn, i, j);
      assert m[i, j] == Entry(was, xn, yn, i, j) == was[p];
      ScatterStep(angle, xn, yn, was, addrList[..], i, j, p, p + 1, k);
      addrList[k] := m[i, j];
      j := next;
    }
  }

  method Reorder(angle: Angle, xn: nat, yn: nat, addrList: array<Word>, m: array2<Word>)
    requires xn * yn <= addrList.Length && yn <= m.Length0 && xn <= m.Length1
    modifies addrList, m
    ensures addrList[..] == Turned(angle, xn, yn, old(addrList[..])[..xn * yn]) + old(addrList[..])[xn * yn..]
  {
    CopyMatrix(xn, yn, addrList, m);
    ghost var was := addrList[..];
    var i := 0;
    ghost var p := 0;
    while i < yn
      invariant 0 <= i <= yn && p == xn * i
      invariant Scattered(angle, xn, yn, was, addrList[..], p)
      invariant Filled(m, xn, yn, was, yn)
    {
      var next := i + 1;
      NextRow(xn, i, next);
      ScatterRow(angle, xn, yn, m, i, addrList, was);
      i, p := next, p + xn;
    }
    ScatterDone(angle, xn, yn, was, addrList[..]);
  }

  // A grid too big for the matrix, and an angle that is none, leave the list as
  // it is.
  method EdmaRotateAddrList(angle: Byte, xn: Word, yn: Word, addrList: array<Word>)
    requires xn <= MAX_TILE_ROTATE && yn <= MAX_TILE_ROTATE ==> xn * yn <= addrList.Length
    modifies addrList
    ensures xn > 16 || yn > 16 || angle > 3 ==> addrList[..] == old(addrList[..])
    ensures xn <= 16 && yn <= 16 && angle <= 3 ==>
              addrList[..] == Turned(angle, xn, yn, old(addrList[..])[..xn * yn]) + old(addrList[..])[xn * yn..]
  {
    if xn > MAX_TILE_ROTATE || yn > MAX_TILE_ROTATE || angle > 3 {
      return;
    }
    var m := new Word[MAX_TILE_ROTATE, MAX_TILE_ROTATE];
    Reorder(angle, xn, yn, addrList, m);
  }

  // ----- the destinations of the tiles -----

  // A grid of whole tiles and its destination addresses in row order.
  predicate WholeTiles(job: Job, w: nat, h: nat) {
    job.Ok() && 0 < w && 0 < h && job.w == job.tw * w && job.h == job.th * h
  }

  function DstTile(job: Job, u: nat, v: nat): Word {
    Wrap(job.dst + Lin(job.W(), job.c, u * OutH(job.angle, job.tw, job.th), v * OutW(job.angle, job.tw, job.th), 0))
  }

  lemma WholeCount(n: nat, t: nat, k: nat)
    requires 0 < t && 0 < k && n == t * k
    ensures Quot(n - 1, t) + 1 == k && Rem(n - 1, t) + 1 == t
  {
    assert n - 1 == (k - 1) * t + (t - 1);
    DivModUnique(t, k - 1, t - 1);
  }

  lemma WholeGrid(job: Job, w: nat, h: nat)
    requires WholeTiles(job, w, h)
    ensures job.XTiles() == w && job.YTiles() == h
    ensures forall i: nat, j: nat :: i < h && j < w ==> job.Tile(i, j) == Rect(i * job.th, j * job.tw, job.th, job.tw)
  {
    WholeCount(job.w, job.tw, w);
    WholeCount(job.h, job.th, h);
  }

  // On whole tiles the closed formula is the entry the reordering leaves.
  lemma ClosedForm(job: Job, w: nat, h: nat, i: nat, j: nat)
    requires WholeTiles(job, w, h) && i < h && j < w
    ensures job.XTiles() == w && job.YTiles() == h
    ensures TileDst(job, i, j) == DstTile(job, RotY(job.angle, w, h, i, j), RotX(job.angle, w, h, i, j))
  {
    WholeGrid(job, w, h);
    TileDstAddr(job, i, j);
    WholeOrigin(job.angle, job.w, job.h, job.tw, job.th, w, h, i, j, job.Tile(i, j));
    WrapSmall(TileDst(job, i, j));
  }

  // The rotated origin of a whole tile is the turned entry's place.
  lemma WholeOrigin(angle: Angle, W: nat, H: nat, tw: nat, th: nat, w: nat, h: nat, i: nat, j: nat, r: Rect)
    requires W == tw * w && H == th * h && i < h && j < w && r.Inside(W, H)
    requires r.y0 == i * th && r.x0 == j * tw && r.h == th && r.w == tw
    ensures var q := RotRect(angle, W, H, r);
            q.y0 == RotY(angle, w, h, i, j) * OutH(angle, tw, th) && q.x0 == RotX(angle, w, h, i, j) * OutW(angle, tw, th)
  {
    assert (h - 1 - i) * th == H - i * th - th;
    assert (w - 1 - j) * tw == W - j * tw - tw;
  }

  lemma AddrListAgrees(job: Job, w: nat, h: nat, list: seq<Word>, i: nat, j: nat)
    requires WholeTiles(job, w, h) && i < h && j < w
    requires |list| == OutW(job.angle, w, h) * OutH(job.angle, w, h)
    requires forall u: nat, v: nat :: u < OutH(job.angle, w, h) && v < OutW(job.angle, w, h) ==>
               (EntryBelow(OutW(job.angle, w, h), OutH(job.angle, w, h), u, v);
                list[OutW(job.angle, w, h) * u + v] == DstTile(job, u, v))
    ensures job.XTiles() == w && job.YTiles() == h && 0 <= w * i + j < |list|
    ensures Turned(job.angle, OutW(job.angle, w, h), OutH(job.angle, w, h), list)[w * i + j] == TileDst(job, i, j)
  {
    ClosedForm(job, w, h, i, j);
    FromTile(job.angle, OutW(job.angle, w, h), OutH(job.angle, w, h), i, j);
    EntryBelow(OutW(job.angle, w, h), OutH(job.angle, w, h), RotY(job.angle, w, h, i, j), RotX(job.angle, w, h, i, j));
  }
}
