// 32-bit machine words, 16-bit field pairs and mixed-radix pixel indices.
module Words {

  type Word = x: int | 0 <= x < 0x1_0000_0000
  type Byte = x: int | 0 <= x < 0x100

  // uint32_t arithmetic: +, - and * commute with this map, so a chain of them
  // is written over int and wrapped once.
  function Wrap(x: int): (w: Word) {
    x % 0x1_0000_0000
  }

  function Neg(x: int): int {
    -x
  }

  // Assignment to a 16-bit bit-field.
  function Field16(x: int): (f: nat)
    ensures f < 0x1_0000
  {
    x % 0x1_0000
  }

  lemma SmallField(n: nat)
    requires n < 0x1_0000
    ensures Field16(n) == n
  {
  }

  // Both keep the low bits of any number.
  lemma Truncated(x: int)
    ensures 0 <= Field16(x) < 0x1_0000 && (x - Field16(x)) % 0x1_0000 == 0
    ensures 0 <= Wrap(x) < 0x1_0000_0000 && (x - Wrap(x)) % 0x1_0000_0000 == 0
  {
  }

  // Bitwise or.
  function Or(a: nat, b: nat): (r: nat) {
    if b == 0 then a
    else 2 * Or(a / 2, b / 2) + (if a % 2 == 1 || b % 2 == 1 then 1 else 0)
  }

  // (hi << 16) | lo on uint32_t: the shift drops the upper half of hi, and
  // whatever lo has above bit 15 is or-ed into the upper field.
  function Pack(hi: Word, lo: Word): (w: Word) {
    Wrap(Or(hi % 0x1_0000, lo / 0x1_0000) * 0x1_0000 + lo % 0x1_0000)
  }

  lemma PackFields(hi: Word, lo: Word)
    requires hi < 0x1_0000 && lo < 0x1_0000
    ensures Pack(hi, lo) % 0x1_0000 == lo
    ensures Pack(hi, lo) / 0x1_0000 == hi
  {
  }

  lemma WrapShift(a: int, k: int)
    ensures Wrap(a + k * 0x1_0000_0000) == Wrap(a)
  {
  }

  lemma WrapAdd(a: int, b: int)
    ensures Wrap(a + Wrap(b)) == Wrap(a + b)
  {
    WrapShift(a + b, -(b / 0x1_0000_0000));
  }

  // Wrapping base and strides first does not change a wrapped address, so a
  // two's complement stride steps backwards.
  lemma WrapLinear(base: int, pitch: int, slab: int, y: int, z: int, x: int)
    ensures Wrap(Wrap(base) + z * Wrap(slab) + y * Wrap(pitch) + x)
         == Wrap(base + z * slab + y * pitch + x)
  {
    var m := 0x1_0000_0000;
    assert z * Wrap(slab) == z * slab - m * (z * (slab / m)) by {
      assert Wrap(slab) == slab - m * (slab / m);
    }
    assert y * Wrap(pitch) == y * pitch - m * (y * (pitch / m)) by {
      assert Wrap(pitch) == pitch - m * (pitch / m);
    }
    WrapShift(base + z * slab + y * pitch + x, -(base / m) - z * (slab / m) - y * (pitch / m));
  }

  lemma DivModUnique(d: int, q: int, r: int)
    requires 0 <= r < d
    ensures (q * d + r) / d == q && (q * d + r) % d == r
  {
    var k := (q * d + r) / d;
    var m := (q * d + r) % d;
    assert k * d + m == q * d + r;
    if k < q {
      MulLe(k + 1, q, d);
    } else if k > q {
      MulLe(q + 1, k, d);
    }
  }

  // uint32_t division.
  function Quot(n: nat, d: nat): nat
    requires 0 < d
  {
    n / d
  }

  function Rem(n: nat, d: nat): (r: nat)
    requires 0 < d
    ensures r < d
  {
    n % d
  }

  lemma QuotRem(n: nat, d: nat)
    requires 0 < d
    ensures Quot(n, d) * d + Rem(n, d) == n
    ensures d * Quot(n, d) + Rem(n, d) == n
  {
  }

  lemma WrapSmall(x: int)
    requires 0 <= x < 0x1_0000_0000
    ensures Wrap(x) == x
  {
  }

  lemma MulLe(a: int, b: int, k: int)
    requires a <= b && 0 <= k
    ensures a * k <= b * k
  {
  }

  lemma AreaLe(a: nat, b: nat, a': nat, b': nat, c: nat)
    requires a <= a' && b <= b'
    ensures c * (a * b) <= c * (a' * b')
  {
    MulLe(a, a', b);
    MulLe(b, b', a');
    MulLe(a * b, a' * b', c);
  }

  lemma RowLe(c: nat, w: nat, h: nat)
    requires 0 < h
    ensures 0 <= c * w <= c * (w * h)
  {
    AreaLe(w, 1, w, h, c);
  }

  // Byte b of pixel (y, x) in rows of `width` pixels of `c` bytes.
  function Lin(width: nat, c: nat, y: nat, x: nat, b: nat): (n: nat) {
    (y * width + x) * c + b
  }

  lemma RowMajor(c: int, w: int, y: int, x: int)
    ensures (y * w + x) * c == y * (c * w) + x * c
  {
    assert (y * w) * c == y * (c * w);
  }

  lemma AreaRows(c: int, w: int, h: int)
    ensures (h - 1) * (c * w) + c * w == c * (w * h)
    ensures c * w * h == c * (w * h)
  {
    assert h * (c * w) == c * (w * h);
  }

  lemma LinBound(width: nat, height: nat, c: nat, y: nat, x: nat, b: nat)
    requires y < height && x < width && b < c
    ensures y * width + x < width * height
    ensures Lin(width, c, y, x, b) < c * (width * height)
  {
    MulLe(y + 1, height, width);
    var p := y * width + x;
    MulLe(p + 1, width * height, c);
  }

  lemma LineByte(c: nat, w: nat, x: nat, b: nat)
    requires x < w && b < c
    ensures x * c + b < c * w
  {
    MulLe(x + 1, w, c);
  }

  lemma LinSplit(width: nat, height: nat, c: nat, n: nat) returns (y: nat, x: nat, b: nat)
    requires n < c * (width * height)
    ensures y < height && x < width && b < c
    ensures n == Lin(width, c, y, x, b)
  {
    assert 0 < c && 0 < width;
    var p := Quot(n, c);
    b, y, x := Rem(n, c), Quot(p, width), Rem(p, width);
    QuotRem(n, c);
    QuotRem(p, width);
    if height <= y {
      MulLe(height, y, width);
      MulLe(width * height, p, c);
    }
  }

  lemma LinInjective(width: nat, c: nat, y: nat, x: nat, b: nat, y': nat, x': nat, b': nat)
    requires x < width && x' < width && b < c && b' < c
    requires Lin(width, c, y, x, b) == Lin(width, c, y', x', b')
    ensures y == y' && x == x' && b == b'
  {
    DivModUnique(c, y * width + x, b);
    DivModUnique(c, y' * width + x', b');
    DivModUnique(width, y, x);
    DivModUnique(width, y', x');
  }
}
