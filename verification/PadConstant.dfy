// Constant padding: fill the padded rectangle, then copy the image over it.
module PadConstant {
  import opened Words
  import opened Machine
  import opened PadSpec
  import opened PadEdge

  // The fill word: a one- or two-byte constant is repeated, any other is taken
  // as it is.
  function FillWord(elem: Byte, constant: Word): Word {
    if elem == 1 then
      var c := constant % 0x100;
      c + c * 0x100 + c * 0x1_0000 + c * 0x100_0000
    else if elem == 2 then
      var c := constant % 0x1_0000;
      c + c * 0x1_0000
    else constant
  }

  lemma BytesOf(w: Word, a0: Byte, a1: Byte, a2: Byte, a3: Byte)
    requires w == a0 + 0x100 * a1 + 0x1_0000 * a2 + 0x100_0000 * a3 as int
    ensures ByteOf(w, 0) == a0 && ByteOf(w, 1) == a1 && ByteOf(w, 2) == a2 && ByteOf(w, 3) == a3
  {
    assert w / 0x100 == a1 + 0x100 * a2 + 0x1_0000 * a3 as int;
    assert w / 0x1_0000 == a2 + 0x100 * a3 as int;
  }

  // Byte k of the fill word is byte k mod elem of the constant.
  lemma FillPeriod(elem: Byte, constant: Word, k: nat)
    requires elem in {1, 2, 4} && k < 4
    ensures ByteOf(FillWord(elem, constant), k) == ByteOf(constant, k % elem)
  {
    if elem == 1 {
      FillPeriod1(constant, k);
    } else if elem == 2 {
      FillPeriod2(constant, k);
    } else {
      assert k % 4 == k;
    }
  }

  lemma FillPeriod1(constant: Word, k: nat)
    requires k < 4
    ensures ByteOf(FillWord(1, constant), k) == ByteOf(constant, k % 1)
  {
    var c: Byte := constant % 0x100;
    BytesOf(FillWord(1, constant), c, c, c, c);
    assert k % 1 == 0;
  }

  lemma FillPeriod2(constant: Word, k: nat)
    requires k < 4
    ensures ByteOf(FillWord(2, constant), k) == ByteOf(constant, k % 2)
  {
    var c0: Byte, c1: Byte := constant % 0x100, constant / 0x100 % 0x100;
    LowBytes(constant);
    BytesOf(FillWord(2, constant), c0, c1, c0, c1);
    assert k % 2 == if k == 0 || k == 2 then 0 else 1;
  }

  lemma LowBytes(w: Word)
    ensures w % 0x1_0000 == w % 0x100 + 0x100 * (w / 0x100 % 0x100)
  {
    var q, r := w / 0x100, w % 0x100;
    var h, m := q / 0x100, q % 0x100;
    assert w == h * 0x1_0000 + (m * 0x100 + r);
    DivModUnique(0x1_0000, h, m * 0x100 + r);
  }

  lemma ElementByte(elem: Byte, q: nat, b: nat)
    requires elem in {1, 2, 4} && b < elem
    ensures (q * elem + b) % 4 % elem == b
  {
    DivModUnique(elem, q, b);
    ModMod(q * elem + b);
  }

  lemma ModMod(n: nat)
    ensures n % 4 % 1 == n % 1 && n % 4 % 2 == n % 2 && n % 4 % 4 == n % 4
  {
    var q, r := n / 4, n % 4;
    assert n == (2 * q + r / 2) * 2 + r % 2;
    DivModUnique(2, 2 * q + r / 2, r % 2);
  }

  // The byte at place m + b of the stream, m the start of element q.
  lemma ShortWord(elem: Byte, q: nat, m: int, b: nat, k: nat, c: Word)
    requires 0 < elem <= 2 && b < elem && m == q * elem && k == (m + b) % 4
    ensures ByteOf(FillWord(elem, c), k) == ByteOf(c, b)
  {
    ElementByte(elem, q, b);
    FillPeriod(elem, c, k);
  }

  lemma LongWord(elem: Byte, m: int, b: nat, k: nat, c: Word)
    requires 2 < elem && b < 4 && k == (m + b) % 4 && m % 4 == 0
    ensures ByteOf(FillWord(elem, c), k) == ByteOf(c, b)
  {
    Shifted(m, b);
  }

  lemma OddWord(elem: Byte, m: int, b: nat, k: nat)
    requires 2 < elem && b < 4 && k == (m + b) % 4 && m % 4 != 0
    ensures exists c: Word :: ByteOf(FillWord(elem, c), k) != ByteOf(c, b)
  {
    Shifted(m, b);
    var c: Word := 0x0302_0100;
    assert forall j: nat :: j < 4 ==> ByteOf(c, j) == j;
    assert ByteOf(FillWord(elem, c), k) != ByteOf(c, b);
  }

  // Byte b of the element at position q of the stream shows byte b of the
  // constant, whatever the constant, exactly when the element starts where the
  // word repeats, or is short enough to be replicated.
  lemma FillExact(elem: Byte, q: nat, b: nat)
    requires 0 < elem && b < elem && b < 4
    ensures (forall c: Word :: ByteOf(FillWord(elem, c), (q * elem + b) % 4) == ByteOf(c, b)) <==> elem <= 2 || q * elem % 4 == 0
  {
    FillAt(elem, q, q * elem, b, (q * elem + b) % 4);
  }

  lemma FillAt(elem: Byte, q: nat, m: int, b: nat, k: nat)
    requires 0 < elem && b < elem && b < 4 && m == q * elem && k == (m + b) % 4
    ensures (forall c: Word :: ByteOf(FillWord(elem, c), k) == ByteOf(c, b)) <==> elem <= 2 || m % 4 == 0
  {
    if elem <= 2 {
      forall c: Word
        ensures ByteOf(FillWord(elem, c), k) == ByteOf(c, b)
      {
        ShortWord(elem, q, m, b, k, c);
      }
    } else if m % 4 == 0 {
      forall c: Word
        ensures ByteOf(FillWord(elem, c), k) == ByteOf(c, b)
      {
        LongWord(elem, m, b, k, c);
      }
    } else {
      OddWord(elem, m, b, k);
    }
  }

  lemma Shifted(n: int, b: nat)
    requires b < 4
    ensures (n + b) % 4 == b <==> n % 4 == 0
  {
  }

  ghost predicate ConstantProgram(p: PadInfo, q: seq<Desc>)
    requires 0 < p.sx && 0 < p.sy
  {
    && |q| == 2 && q[0].Fill? && q[0].word == FillWord(p.elem, p.constant)
    && Streams(q[0].dst, p.Out(), p.H(), p.W(), p.elem)
    && CopiesInner(p, q[1])
  }

  predicate InImage(p: PadInfo, y: nat, x: nat) {
    p.top <= y < p.top + p.sy && p.left <= x < p.left + p.sx
  }

  // The image in the middle, the constant around it, other memory as it was. A
  // constant has four bytes.
  ghost predicate ConstantPadded(p: PadInfo, s: Store, t: Store) {
    && Outside(p, s, t)
    && forall y: nat, x: nat, b: nat :: y < p.H() && x < p.W() && b < p.elem ==> PixelPadded(p, s, t, y, x, b)
  }

  ghost predicate PixelPadded(p: PadInfo, s: Store, t: Store, y: nat, x: nat, b: nat) {
    if InImage(p, y, x) then Pixel(p, t, y, x, b) == Get(s, p.In().At(y - p.top, x - p.left, b))
    else b < 4 ==> Pixel(p, t, y, x, b) == ByteOf(p.constant, b)
  }

  // The pixel starts where the fill word repeats.
  predicate Aligned(p: PadInfo, y: nat, x: nat) {
    (y * p.W() + x) * p.elem % 4 == 0
  }

  predicate BorderAligned(p: PadInfo) {
    p.elem <= 2 || forall y: nat, x: nat :: y < p.H() && x < p.W() && !InImage(p, y, x) ==> Aligned(p, y, x)
  }

  lemma Multiple(q: int, elem: nat)
    requires elem % 4 == 0
    ensures q * elem % 4 == 0
  {
    assert q * elem == (q * (elem / 4)) * 4;
    DivModUnique(4, q * (elem / 4), 0);
  }

  // Elements of 1, 2, 4, 8, ... bytes always are.
  lemma AlwaysAligned(p: PadInfo)
    requires p.elem <= 2 || p.elem % 4 == 0
    ensures BorderAligned(p)
  {
    if p.elem % 4 == 0 {
      forall y: nat, x: nat | y < p.H() && x < p.W()
        ensures Aligned(p, y, x)
      {
        Multiple(y * p.W() + x, p.elem);
      }
    }
  }

  lemma Filled(p: PadInfo, d: Desc, s: Store, y: nat, x: nat, b: nat)
    requires Laid(p) && d.Fill? && Streams(d.dst, p.Out(), p.H(), p.W(), p.elem) && y < p.H() && x < p.W() && b < p.elem
    ensures Pixel(p, Exec(d, s), y, x, b) == ByteOf(d.word, Lin(p.W(), p.elem, y, x, b) % 4)
  {
    PixelFill(d, s, p.Out(), p.H(), p.W(), p.elem);
    OutAt(p, y, x, b, y, x, b);
  }

  lemma FillOutside(p: PadInfo, d: Desc, s: Store)
    requires Laid(p) && d.Fill? && Streams(d.dst, p.Out(), p.H(), p.W(), p.elem)
    ensures Outside(p, s, Exec(d, s))
    ensures forall y: nat, x: nat, b: nat :: y < p.sy && x < p.sx && b < p.elem ==>
              Get(Exec(d, s), p.In().At(y, x, b)) == Get(s, p.In().At(y, x, b))
  {
    PixelFill(d, s, p.Out(), p.H(), p.W(), p.elem);
    forall y: nat, x: nat, b: nat | y < p.sy && x < p.sx && b < p.elem
      ensures Get(Exec(d, s), p.In().At(y, x, b)) == Get(s, p.In().At(y, x, b))
    {
      var a := p.In().At(y, x, b);
      assert 0 <= a - p.In().space < MEMORY;
      assert !Writes(p.Out(), p.H(), p.W(), p.elem, a);
    }
  }

  lemma InnerKept(p: PadInfo, s: Store, d: Desc, y: nat, x: nat, b: nat)
    requires Laid(p) && CopiesInner(p, d) && y < p.H() && x < p.W() && b < p.elem && !InImage(p, y, x)
    ensures Pixel(p, Exec(d, s), y, x, b) == Pixel(p, s, y, x, b)
  {
    InnerMove(p, s, d);
    var a := p.Out().At(y, x, b);
    OutAt(p, y, x, b, y, x, b);
    if Writes(Inner(p), p.sy, p.sx, p.elem, a) {
      var y', x', b' := InnerWrite(p, a);
      OutAt(p, y, x, b, y', x', b');
    }
  }

  lemma ExecTwo(q: seq<Desc>, s: Store)
    requires |q| == 2
    ensures ExecAll(q, s) == Exec(q[1], Exec(q[0], s))
  {
    assert q[1..][1..] == [];
    assert ExecAll(q[1..], Exec(q[0], s)) == ExecAll([], Exec(q[1], Exec(q[0], s)));
  }

  // What the two descriptors leave in a border pixel.
  lemma BorderPixel(p: PadInfo, q: seq<Desc>, s: Store, y: nat, x: nat, b: nat, k: nat)
    requires Laid(p) && ConstantProgram(p, q) && y < p.H() && x < p.W() && b < p.elem && !InImage(p, y, x)
    requires k == Lin(p.W(), p.elem, y, x, b) % 4
    ensures Pixel(p, Exec(q[1], Exec(q[0], s)), y, x, b) == ByteOf(FillWord(p.elem, p.constant), k)
  {
    InnerKept(p, Exec(q[0], s), q[1], y, x, b);
    Filled(p, q[0], s, y, x, b);
  }

  lemma AlignedByte(p: PadInfo, y: nat, x: nat, b: nat, k: nat)
    requires b < p.elem && b < 4 && k == Lin(p.W(), p.elem, y, x, b) % 4
    requires p.elem <= 2 || Aligned(p, y, x)
    ensures ByteOf(FillWord(p.elem, p.constant), k) == ByteOf(p.constant, b)
  {
    var m := (y * p.W() + x) * p.elem;
    if p.elem <= 2 {
      ShortWord(p.elem, y * p.W() + x, m, b, k, p.constant);
    } else {
      LongWord(p.elem, m, b, k, p.constant);
    }
  }

  lemma BorderPadded(p: PadInfo, q: seq<Desc>, s: Store, y: nat, x: nat, b: nat)
    requires Laid(p) && ConstantProgram(p, q) && y < p.H() && x < p.W() && b < p.elem && b < 4 && !InImage(p, y, x)
    requires p.elem <= 2 || Aligned(p, y, x)
    ensures Pixel(p, Exec(q[1], Exec(q[0], s)), y, x, b) == ByteOf(p.constant, b)
  {
    var k := Lin(p.W(), p.elem, y, x, b) % 4;
    AlignedByte(p, y, x, b, k);
    BorderPixel(p, q, s, y, x, b, k);
  }

  lemma ImagePadded(p: PadInfo, q: seq<Desc>, s: Store, y: nat, x: nat, b: nat)
    requires Laid(p) && ConstantProgram(p, q) && y < p.H() && x < p.W() && b < p.elem && InImage(p, y, x)
    ensures Pixel(p, Exec(q[1], Exec(q[0], s)), y, x, b) == Get(s, p.In().At(y - p.top, x - p.left, b))
  {
    FillOutside(p, q[0], s);
    InnerByte(p, Exec(q[0], s), q[1], y - p.top, x - p.left, b, y, x);
  }

  lemma ConstantPixel(p: PadInfo, q: seq<Desc>, s: Store, y: nat, x: nat, b: nat)
    requires Laid(p) && BorderAligned(p) && ConstantProgram(p, q) && y < p.H() && x < p.W() && b < p.elem
    ensures PixelPadded(p, s, Exec(q[1], Exec(q[0], s)), y, x, b)
  {
    if InImage(p, y, x) {
      ImagePadded(p, q, s, y, x, b);
    } else if b < 4 {
      BorderPadded(p, q, s, y, x, b);
    }
  }

  lemma ConstantOutside(p: PadInfo, q: seq<Desc>, s: Store)
    requires Laid(p) && ConstantProgram(p, q)
    ensures Outside(p, s, Exec(q[1], Exec(q[0], s)))
  {
    var t := Exec(q[0], s);
    FillOutside(p, q[0], s);
    InnerOutside(p, t, q[1]);
    OutsideTrans(p, s, t, Exec(q[1], t));
  }

  lemma ConstantCorrect(p: PadInfo, q: seq<Desc>, s: Store)
    requires Laid(p) && BorderAligned(p) && ConstantProgram(p, q)
    ensures ConstantPadded(p, s, ExecAll(q, s))
  {
    ExecTwo(q, s);
    ConstantOutside(p, q, s);
    forall y: nat, x: nat, b: nat | y < p.H() && x < p.W() && b < p.elem
      ensures PixelPadded(p, s, ExecAll(q, s), y, x, b)
    {
      ConstantPixel(p, q, s, y, x, b);
    }
  }

  // A constant whose bytes are all different, in a border pixel that is not aligned.
  lemma Telling(elem: Byte, c: Word, k: nat)
    requires 2 < elem && c == 0x0302_0100 && 0 < k < 4
    ensures ByteOf(FillWord(elem, c), k) != ByteOf(c, 0)
  {
    assert ByteOf(c, 0) == 0 && ByteOf(c, 1) == 1 && ByteOf(c, 2) == 2 && ByteOf(c, 3) == 3;
  }

  lemma ConstantShows(p: PadInfo, q: seq<Desc>, s: Store, y: nat, x: nat)
    requires Laid(p) && ConstantProgram(p, q) && p.constant == 0x0302_0100 && 2 < p.elem
    requires y < p.H() && x < p.W() && !InImage(p, y, x) && !Aligned(p, y, x)
    ensures !PixelPadded(p, s, Exec(q[1], Exec(q[0], s)), y, x, 0)
  {
    var k := ((y * p.W() + x) * p.elem + 0) % 4;
    BorderPixel(p, q, s, y, x, 0, k);
    Telling(p.elem, p.constant, k);
  }

  lemma ConstantFails(p: PadInfo, q: seq<Desc>, s: Store)
    requires Laid(p) && ConstantProgram(p, q) && p.constant == 0x0302_0100 && !BorderAligned(p)
    ensures !ConstantPadded(p, s, ExecAll(q, s))
  {
    var y: nat, x: nat :| y < p.H() && x < p.W() && !InImage(p, y, x) && !Aligned(p, y, x);
    ExecTwo(q, s);
    ConstantShows(p, q, s, y, x);
    assert !PixelPadded(p, s, ExecAll(q, s), y, x, 0);
  }
}
