/** Arithmetic on words of 32 bits, as numbers. */
module Words {
  type U8 = n: nat | n < 0x100
  type U32 = n: nat | n < 0x1_0000_0000

  function Power(n: nat): (p: nat)
    ensures p > 0
  {
    if n == 0 then 1 else 2 * Power(n - 1)
  }

  /** The bit of weight 2^i. */
  predicate Bit(a: nat, i: nat) {
    if i == 0 then a % 2 == 1 else Bit(a / 2, i - 1)
  }

  datatype Gate = Or | And | Xor

  predicate Gated(g: Gate, p: bool, q: bool) {
    match g
    case Or => p || q
    case And => p && q
    case Xor => p != q
  }

  /** The last `n` bits of two numbers through a gate. */
  function Bitwise(g: Gate, a: nat, v: nat, n: nat): (r: nat)
    ensures r < Power(n)
  {
    if n == 0 then 0 else 2 * Bitwise(g, a / 2, v / 2, n - 1) + if Gated(g, a % 2 == 1, v % 2 == 1) then 1 else 0
  }

  /** Every bit goes through the gate on its own. */
  lemma {:induction false} GatesBits(g: Gate, a: nat, v: nat, n: nat, i: nat)
    requires i < n
    ensures Bit(Bitwise(g, a, v, n), i) == Gated(g, Bit(a, i), Bit(v, i))
  {
    hide Gated;
    assert Bitwise(g, a, v, n) / 2 == Bitwise(g, a / 2, v / 2, n - 1);
    if i > 0 {
      GatesBits(g, a / 2, v / 2, n - 1, i - 1);
    }
  }

  /** The bits determine the number. */
  lemma {:induction false} SameBits(a: nat, b: nat, n: nat)
    requires a < Power(n) && b < Power(n) && forall i: nat :: i < n ==> Bit(a, i) == Bit(b, i)
    ensures a == b
  {
    if n > 0 {
      assert Bit(a, 0) == Bit(b, 0);
      forall i: nat | i < n - 1 ensures Bit(a / 2, i) == Bit(b / 2, i) {
        assert Bit(a, i + 1) == Bit(b, i + 1);
      }
      SameBits(a / 2, b / 2, n - 1);
    }
  }

  /** Is there a bit, one of the last `n`, that both numbers have? */
  ghost predicate Meet(a: nat, v: nat, n: nat) {
    exists i: nat :: i < n && BothBits(a, v, i)
  }

  predicate BothBits(a: nat, v: nat, i: nat) {
    Bit(a, i) && Bit(v, i)
  }

  /** Something is left of two numbers through "and" exactly if there is such a bit. */
  lemma {:induction false} Meets(a: nat, v: nat, n: nat)
    ensures Bitwise(And, a, v, n) != 0 <==> Meet(a, v, n)
  {
    if n > 0 {
      Meets(a / 2, v / 2, n - 1);
      if Meet(a, v, n) {
        var i: nat :| i < n && BothBits(a, v, i);
        assert i > 0 ==> BothBits(a / 2, v / 2, i - 1);
      } else {
        assert !BothBits(a, v, 0);
        if Meet(a / 2, v / 2, n - 1) {
          var i: nat :| i < n - 1 && BothBits(a / 2, v / 2, i);
          assert BothBits(a, v, i + 1);
        }
      }
    }
  }

  /** `a` shifted by `n`; a shift by 32 or more leaves nothing. */
  function Shifted(a: U32, n: U32, left: bool): (r: U32)
  {
    if n >= 32 then 0
    else if left then a * Power(n) % 0x1_0000_0000
    else Shrink(a, Power(n))
  }

  function Shrink(a: nat, d: nat): (q: nat)
    requires d > 0
    ensures q <= a
  {
    QuotientBound(a, d);
    a / d
  }

  lemma Product(x: nat, y: nat)
    ensures x * y >= 0
  {
  }

  lemma QuotientBound(a: nat, v: nat)
    requires v > 0
    ensures a / v <= a
  {
    Product(v - 1, a / v);
    assert v * (a / v) + a % v == a && v * (a / v) == (v - 1) * (a / v) + a / v;
  }

  lemma Grows(d: nat, e: int)
    ensures (e >= 1 ==> d * e >= d) && (e <= -1 ==> d * e <= 0 - d)
  {
    if e >= 1 {
      Product(d, e - 1);
    } else if e <= -1 {
      Product(d, -1 - e);
    }
  }

  lemma Unique(x: nat, d: nat, q: nat, r: nat)
    requires d > 0 && x == d * q + r && r < d
    ensures x / d == q && x % d == r
  {
    var e := x / d - q;
    assert d * (x / d) + x % d == x;
    assert d * e == r - x % d;
    Grows(d, e);
  }

  lemma Twice(d: int, q: int)
    ensures 2 * d * q == 2 * (d * q)
  {
  }

  lemma HalfMod(x: nat, d: nat)
    requires d > 0
    ensures x % (2 * d) / 2 == x / 2 % d && x % (2 * d) % 2 == x % 2 && x / 2 / d == x / (2 * d)
  {
    var q, r := x / (2 * d), x % (2 * d);
    Twice(d, q);
    assert x == 2 * (d * q) + r;
    assert x / 2 == d * q + r / 2 && x % 2 == r % 2;
    Unique(x / 2, d, q, r / 2);
  }

  lemma {:induction false} LowBits(x: nat, n: nat, i: nat)
    requires i < n
    ensures Bit(x % Power(n), i) == Bit(x, i)
  {
    HalfMod(x, Power(n - 1));
    if i > 0 {
      LowBits(x / 2, n - 1, i - 1);
    }
  }

  lemma {:induction false} RaisedBits(a: nat, k: nat, i: nat)
    ensures a * Power(k) >= 0 && Bit(a * Power(k), i) == (i >= k && Bit(a, i - k))
  {
    Product(a, Power(k));
    if k > 0 {
      Product(a, Power(k - 1));
      assert a * Power(k) == 2 * (a * Power(k - 1));
      if i > 0 {
        RaisedBits(a, k - 1, i - 1);
      }
    }
  }

  lemma {:induction false} LoweredBits(a: nat, k: nat, i: nat)
    ensures Bit(Shrink(a, Power(k)), i) == Bit(a, i + k)
  {
    if k > 0 {
      HalfMod(a, Power(k - 1));
      LoweredBits(a / 2, k - 1, i);
    }
  }

  /** A shift moves every bit by `n` places. */
  lemma ShiftsBits(a: U32, n: U32, i: nat)
    requires i < 32
    ensures Bit(Shifted(a, n, true), i) == (i >= n && Bit(a, i - n))
    ensures Bit(Shifted(a, n, false), i) == (i + n < 32 && Bit(a, i + n))
  {
    assert Power(32) == 0x1_0000_0000 by { Powers(); }
    NoBits(i);
    if n < 32 {
      RaisedBits(a, n, i);
      LowBits(a * Power(n), 32, i);
      LoweredBits(a, n, i);
      if i + n >= 32 {
        HighBits(a, 32, i + n);
      }
    }
  }

  lemma Powers()
    ensures Power(8) == 0x100 && Power(16) == 0x1_0000 && Power(24) == 0x100_0000 && Power(32) == 0x1_0000_0000
  {
    assert Power(4) == 16;
    assert Power(8) == 0x100;
    assert Power(12) == 0x1000;
    assert Power(16) == 0x1_0000;
    assert Power(20) == 0x10_0000;
    assert Power(24) == 0x100_0000;
    assert Power(28) == 0x1000_0000;
  }

  lemma {:induction false} NoBits(i: nat)
    ensures !Bit(0, i)
  {
    if i > 0 {
      NoBits(i - 1);
    }
  }

  lemma {:induction false} HighBits(a: nat, n: nat, i: nat)
    requires a < Power(n) && i >= n
    ensures !Bit(a, i)
  {
    if n == 0 {
      NoBits(i);
    } else {
      HighBits(a / 2, n - 1, i - 1);
    }
  }
}
