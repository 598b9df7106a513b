/** Bitwise operations on natural numbers, as the varint loops use them on machine words. */
module Bits {

  function Pow2(n: nat): (p: nat)
    ensures p > 0
    decreases n + 0
  {
    if n == 0 then 1 else 2 * Pow2(n - 1)
  }

  function And(a: nat, b: nat): nat
    decreases a + b
  {
    if a == 0 || b == 0 then 0 else 2 * And(a / 2, b / 2) + (if a % 2 == 1 && b % 2 == 1 then 1 else 0)
  }

  function Or(a: nat, b: nat): nat
    decreases a + b
  {
    if a == 0 && b == 0 then 0 else 2 * Or(a / 2, b / 2) + (if a % 2 == 1 || b % 2 == 1 then 1 else 0)
  }

  /** A number moved up `shift` places. */
  function Shifted(bits: nat, shift: nat): nat {
    Pow2(shift) * bits
  }

  /** A left shift in a word of `width` bits: what moves out at the top is lost. */
  function Shl(bits: nat, shift: nat, width: nat): (r: nat)
    ensures r < Pow2(width)
  {
    Shifted(bits, shift) % Pow2(width)
  }

  lemma {:induction false} Pow2Seven(n: nat)
    ensures Pow2(n + 7) == 128 * Pow2(n)
  {
    assert Pow2(n + 1) == 2 * Pow2(n);
    assert Pow2(n + 2) == 4 * Pow2(n);
    assert Pow2(n + 3) == 8 * Pow2(n);
    assert Pow2(n + 4) == 16 * Pow2(n);
    assert Pow2(n + 5) == 32 * Pow2(n);
    assert Pow2(n + 6) == 64 * Pow2(n);
  }

  lemma {:induction false} Pow2Grows(a: nat, b: nat)
    requires a <= b
    ensures Pow2(a) <= Pow2(b)
  {
    if a < b { Pow2Grows(a, b - 1); }
  }

  lemma {:induction false} Pow2Product(a: nat, b: nat)
    ensures Pow2(a + b) == Pow2(a) * Pow2(b)
  {
    if b > 0 {
      Pow2Product(a, b - 1);
      assert Pow2(a + b) == 2 * Pow2(a + (b - 1));
      assert Pow2(a) * Pow2(b) == Pow2(a) * (2 * Pow2(b - 1)) == 2 * (Pow2(a) * Pow2(b - 1));
    }
  }

  lemma {:induction false} OrZero(b: nat)
    ensures Or(0, b) == b
  {
    if b > 0 { OrZero(b / 2); }
  }

  lemma Halves(k: nat, b: nat)
    requires k > 0
    ensures Shifted(b, k) / 2 == Shifted(b, k - 1) && Shifted(b, k) % 2 == 0
  {
    assert Shifted(b, k) == 2 * (Pow2(k - 1) * b);
  }

  /** Or-ing bits in above the ones already there adds them. */
  lemma {:induction false} OrIsPlus(a: nat, b: nat, k: nat)
    requires a < Pow2(k)
    ensures Or(a, Shifted(b, k)) == a + Shifted(b, k)
    decreases k
  {
    if k == 0 {
      OrZero(Shifted(b, 0));
    } else {
      OrIsPlus(a / 2, b, k - 1);
      Halves(k, b);
      hide Shifted;
    }
  }

  /** The seven low bits of a byte, and its high bit. */
  lemma SevenBits(b: nat)
    requires b < 256
    ensures And(b, 0x7f) == b % 128 && (And(b, 0x80) == 0 <==> b < 128)
  {
    hide And, Pow2;
    AndMask(b, 7);
    AndBit(b, 7);
    Pow2Seven(0);
    Pow2Zero();
  }

  lemma Pow2Zero()
    ensures Pow2(0) == 1
  {
  }

  lemma {:induction false} AndMask(b: nat, k: nat)
    ensures And(b, Pow2(k) - 1) == b % Pow2(k)
  {
    if k == 0 {
      Pow2Zero();
    } else {
      AndMask(b / 2, k - 1);
      MaskStep(b, Pow2(k - 1));
    }
  }

  lemma MaskStep(b: nat, p: nat)
    requires p > 0 && And(b / 2, p - 1) == (b / 2) % p
    ensures And(b, 2 * p - 1) == b % (2 * p)
  {
    hide And;
    HalfMod(b, p);
    AndOdd(b, p - 1);
    assert 2 * p - 1 == 2 * (p - 1) + 1;
  }

  lemma AndOdd(b: nat, m: nat)
    ensures And(b, 2 * m + 1) == 2 * And(b / 2, m) + b % 2
    ensures And(b, 2 * m) == 2 * And(b / 2, m)
  {
    assert (2 * m + 1) / 2 == m && (2 * m) / 2 == m;
  }

  lemma {:induction false} AndBit(b: nat, k: nat)
    ensures And(b, Pow2(k)) == 0 <==> (b / Pow2(k)) % 2 == 0
  {
    if k == 0 {
      Pow2Zero();
      AndOdd(b, 0);
    } else {
      var p := Pow2(k - 1);
      AndBit(b / 2, k - 1);
      AndOdd(b, p);
      HalfMod(b, p);
    }
  }

  /** Setting bit `k`. */
  lemma {:induction false} OrBit(b: nat, k: nat)
    ensures Or(b, Pow2(k)) == b + (if (b / Pow2(k)) % 2 == 0 then Pow2(k) else 0)
  {
    if k == 0 {
      Pow2Zero();
      OrEven(b, 0);
      ZeroOr(b / 2);
    } else {
      var p := Pow2(k - 1);
      OrBit(b / 2, k - 1);
      OrEven(b, p);
      HalfMod(b, p);
    }
  }

  lemma OrEven(b: nat, m: nat)
    ensures Or(b, 2 * m) == 2 * Or(b / 2, m) + b % 2 && Or(b, 2 * m + 1) == 2 * Or(b / 2, m) + 1
  {
    assert (2 * m + 1) / 2 == m && (2 * m) / 2 == m;
  }

  lemma {:induction false} ZeroOr(b: nat)
    ensures Or(b, 0) == b
  {
    if b > 0 { ZeroOr(b / 2); }
  }

  /** A byte with its high bit set. */
  lemma HighBitSet(v: nat)
    ensures Or(v % 256, 0x80) == 128 + v % 128
  {
    hide Or, Pow2;
    var b := v % 256;
    OrBit(b, 7);
    Pow2Seven(0);
    Pow2Zero();
    assert b % 128 == v % 128;
  }

  lemma HalfMod(b: nat, p: nat)
    requires p > 0
    ensures b % (2 * p) == 2 * ((b / 2) % p) + b % 2 && b / (2 * p) == (b / 2) / p
  {
    var q, r := (b / 2) / p, (b / 2) % p;
    assert b / 2 == p * q + r;
    assert 2 * (p * q) == (2 * p) * q;
    ModOf(b, 2 * p, q, 2 * r + b % 2);
  }

  lemma ModOf(x: nat, m: nat, q: nat, r: nat)
    requires x == m * q + r && r < m
    ensures x % m == r && x / m == q
  {
    var d := x / m - q;
    assert x == m * (x / m) + x % m;
    assert m * d == m * (x / m) - m * q;
    Multiples(m, d);
  }

  lemma ModSmall(x: nat, m: nat)
    requires x < m
    ensures x % m == x
  {
  }

  lemma Multiples(m: int, k: int)
    requires m > 0
    ensures k >= 1 ==> m * k >= m
    ensures k <= -1 ==> m * k <= -m
  {
  }

  /** One step of a loop that collects groups of bits in a word of `width` bits: the result is the
      sum, as far as the word holds it. */
  lemma OrShl(value: nat, bits: nat, shift: nat, width: nat)
    requires value < Pow2(shift) && shift <= width
    ensures Or(value, Shl(bits, shift, width)) == (value + Shifted(bits, shift)) % Pow2(width)
  {
    hide Pow2, Or;
    var p, q := Pow2(shift), Pow2(width - shift);
    Pow2Product(shift, width - shift);
    var kept, lost := bits % q, bits / q;
    assert bits == q * lost + kept;
    Scaled(p, q, lost, kept, value);
    ModOf(p * bits, p * q, lost, p * kept);
    ModOf(value + p * bits, p * q, lost, value + p * kept);
    OrIsPlus(value, kept, shift);
  }

  lemma Scaled(p: nat, q: nat, lost: nat, kept: nat, value: nat)
    requires kept < q && value < p
    ensures p * (q * lost + kept) == (p * q) * lost + p * kept
    ensures p * kept + p <= p * q && value + p * kept < p * q
  {
    assert p * (q * lost + kept) == p * (q * lost) + p * kept;
    assert p * (q * lost) == (p * q) * lost;
    Monotone(p, kept + 1, q);
    assert p * (kept + 1) == p * kept + p;
  }

  lemma Monotone(p: nat, a: nat, b: nat)
    requires a <= b
    ensures p * a <= p * b
  {
    assert p * b == p * a + p * (b - a);
  }
}
