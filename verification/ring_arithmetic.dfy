/** The arithmetic behind power-of-two rings with wrapping 32-bit cursors. */
module RingArithmetic {
  import opened Common

  // Bitwise AND of two naturals, digit by digit.
  function BitAnd(a: nat, b: nat): nat
    decreases a
  {
    if a == 0 then 0
    else (if a % 2 == 1 && b % 2 == 1 then 1 else 0) + 2 * BitAnd(a / 2, b / 2)
  }

  predicate IsPow2(x: nat)
    decreases x
  {
    x == 1 || (x > 1 && x % 2 == 0 && IsPow2(x / 2))
  }

  lemma {:induction false} BitAndZero(a: nat)
    ensures BitAnd(a, 0) == 0
    decreases a
  {
    if a != 0 {
      BitAndZero(a / 2);
    }
  }

  // The mask idiom `start & (capacity - 1)` is a remainder.
  lemma {:induction false} MaskIsMod(a: nat, c: nat)
    requires IsPow2(c)
    ensures BitAnd(a, c - 1) == a % c
    decreases c
  {
    if c == 1 {
      BitAndZero(a);
    } else {
      var h := c / 2;
      assert c == 2 * h && h > 0;
      HalfMod(a, h);
      if a != 0 {
        MaskIsMod(a / 2, h);
        assert (c - 1) / 2 == h - 1 && (c - 1) % 2 == 1;
      }
    }
  }

  lemma HalfMod(a: nat, h: nat)
    requires h > 0
    ensures a % (2 * h) == a % 2 + 2 * ((a / 2) % h)
  {
    var q, r := (a / 2) / h, (a / 2) % h;
    assert a == 2 * (a / 2) + a % 2;
    assert a / 2 == q * h + r;
    assert a == q * (2 * h) + (a % 2 + 2 * r) by {
      assert 2 * (q * h) == q * (2 * h);
    }
    ModUnique(a, 2 * h, q, a % 2 + 2 * r);
  }

  lemma ModUnique(a: int, m: int, q: int, r: int)
    requires m > 0 && 0 <= r < m && a == q * m + r
    ensures a % m == r && a / m == q
  {
    var d := a / m - q;
    assert a == (a / m) * m + a % m;
    assert (a / m) * m - q * m == d * m;
    assert d * m == r - a % m;
    if d >= 1 {
      MulLe(1, d, m);
      assert false;
    }
    if d <= -1 {
      MulLe(d, -1, m);
      assert false;
    }
  }

  lemma MulLe(a: int, b: int, m: int)
    requires a <= b && 0 <= m
    ensures a * m <= b * m
  {
    assert (b - a) * m >= 0;
  }

  // Every power of two up to 2^31 divides 2^32.
  lemma {:induction false} Pow2Divides(c: nat, top: nat)
    requires IsPow2(c) && IsPow2(top) && c <= top
    ensures top % c == 0
    decreases c
  {
    if c != 1 {
      Pow2Divides(c / 2, top / 2);
      var q := (top / 2) / (c / 2);
      assert top / 2 == q * (c / 2);
      assert top == q * c;
      ModUnique(top, c, q, 0);
    }
  }

  lemma TwoTo32IsPow2()
    ensures IsPow2(TWO32)
  {
    assert IsPow2(16);
    Pow2Times16(16);
    Pow2Times16(0x100);
    Pow2Times16(0x1000);
    Pow2Times16(0x1_0000);
    Pow2Times16(0x10_0000);
    Pow2Times16(0x100_0000);
    Pow2Times16(0x1000_0000);
  }

  lemma Pow2Times16(x: nat)
    requires IsPow2(x)
    ensures IsPow2(16 * x)
  {
    Pow2Twice(x);
    Pow2Twice(2 * x);
    Pow2Twice(4 * x);
    Pow2Twice(8 * x);
  }

  lemma Pow2Twice(x: nat)
    requires IsPow2(x)
    ensures IsPow2(2 * x)
  {
  }

  // A wrapped cursor still selects the right slot.
  lemma WrapKeepsSlot(x: nat, c: nat)
    requires IsPow2(c) && c <= TWO32
    ensures (x % TWO32) % c == x % c
  {
    TwoTo32IsPow2();
    Pow2Divides(c, TWO32);
    ModOfMod(x, TWO32 / c, c, TWO32);
  }

  lemma ModOfMod(x: nat, k: nat, c: nat, m: nat)
    requires c > 0 && m > 0 && m == k * c
    ensures (x % m) % c == x % c
  {
    var q, r := x / m, x % m;
    assert x == q * m + r;
    assert q * m == (q * k) * c;
    assert x == (q * k + r / c) * c + r % c;
    ModUnique(x, c, q * k + r / c, r % c);
  }

  // The samples in n frames of c channels, n * c. Walking it frame by frame keeps products out of
  // the proofs about buffers.
  function Span(n: nat, c: nat): nat
    decreases n
  {
    if n == 0 then 0 else c + Span(n - 1, c)
  }

  lemma {:induction false} SpanIsProduct(n: nat, c: nat)
    ensures Span(n, c) == n * c
    decreases n
  {
    if n != 0 {
      SpanIsProduct(n - 1, c);
      assert n * c == (n - 1) * c + c;
    }
  }

  lemma {:induction false} SpanAdd(a: nat, b: nat, c: nat)
    ensures Span(a + b, c) == Span(a, c) + Span(b, c)
    decreases b
  {
    if b != 0 {
      SpanAdd(a, b - 1, c);
    }
  }

  lemma SpanZero(c: nat)
    ensures Span(0, c) == 0 && Span(1, c) == c
  {
  }

  lemma SpanStep(n: nat, c: nat)
    ensures Span(n + 1, c) == c + Span(n, c)
  {
  }

  lemma SpanLe(a: nat, b: nat, c: nat)
    requires a <= b
    ensures Span(a, c) + Span(b - a, c) == Span(b, c)
  {
    SpanAdd(a, b - a, c);
  }

  // The remainder p % m by repeated subtraction: where position p of a stream lives in a ring of m slots.
  function Wrap(p: nat, m: nat): (r: nat)
    requires m > 0
    ensures r < m
    decreases p
  {
    if p < m then p else Wrap(p - m, m)
  }

  lemma {:induction false} WrapIsMod(p: nat, m: nat)
    requires m > 0
    ensures Wrap(p, m) == p % m
    decreases p
  {
    if p < m {
      ModUnique(p, m, 0, p);
    } else {
      WrapIsMod(p - m, m);
      var q := (p - m) / m;
      assert p == (q + 1) * m + (p - m) % m by {
        assert (q + 1) * m == q * m + m;
      }
      ModUnique(p, m, q + 1, (p - m) % m);
    }
  }

  // One lap from position p.
  lemma {:induction false} WrapShift(p: nat, j: nat, m: nat)
    requires j <= m && m > 0
    ensures Wrap(p + j, m) == if Wrap(p, m) + j < m then Wrap(p, m) + j else Wrap(p, m) + j - m
    decreases p
  {
    if p >= m {
      WrapShift(p - m, j, m);
    }
  }

  // Slots scale to samples: frame p of the stream starts at sample Span(p, c).
  lemma {:induction false} WrapSpan(p: nat, m: nat, c: nat)
    requires m > 0 && c > 0
    ensures Span(m, c) > 0 && Wrap(Span(p, c), Span(m, c)) == Span(Wrap(p, m), c)
    decreases p
  {
    if p < m {
      SpanLe(p + 1, m, c);
    } else {
      SpanLe(m, p, c);
      WrapSpan(p - m, m, c);
    }
  }

  // Wrapped cursor distance equals true distance while the distance is small.
  lemma WrappedDistance(w: nat, r: nat)
    requires r <= w < r + TWO32
    ensures Sub32(Wrap(w, TWO32), Wrap(r, TWO32)) == w - r
  {
    WrapShift(r, w - r, TWO32);
  }

  lemma WrappedAdvance(x: nat, n: u32)
    ensures Add32(Wrap(x, TWO32), n) == Wrap(x + n, TWO32)
  {
    WrapShift(x, n, TWO32);
  }

  // The slot of a wrapped 32-bit cursor is the slot of the position behind it.
  lemma CursorSlot(p: nat, c: nat)
    requires IsPow2(c) && c <= TWO32
    ensures BitAnd(Wrap(p, TWO32), c - 1) == Wrap(p, c)
  {
    WrapIsMod(p, TWO32);
    MaskIsMod(p % TWO32, c);
    WrapKeepsSlot(p, c);
    WrapIsMod(p, c);
  }
}
