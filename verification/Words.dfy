/** Fixed-width unsigned words of the C++ code, as bounded integers with the
    language's shift and bitwise operators. */
module Words {

  const TWO_32: nat := 0x1_0000_0000

  type uint8 = x: int | 0 <= x < 0x100
  type uint32 = x: int | 0 <= x < 0x1_0000_0000
  type uint64 = x: int | 0 <= x < 0x1_0000_0000_0000_0000
  type bytes = seq<uint8>

  function Pow2(n: nat): (r: nat)
    ensures r > 0
  {
    if n == 0 then 1 else 2 * Pow2(n - 1)
  }

  /** `x << k` on uint32_t: bits shifted past position 31 are lost. */
  function Shl32(x: uint32, k: nat): uint32 {
    (x * Pow2(k)) % TWO_32
  }

  /** `x >> k` on an unsigned word. */
  function Shr(x: nat, k: nat): nat {
    DivNat(x, Pow2(k));
    x / Pow2(k)
  }

  lemma DivNat(x: nat, d: nat)
    requires d > 0
    ensures x / d >= 0
  {
  }

  /** `a | b`, bit by bit. */
  function Or(a: nat, b: nat): nat
    decreases a + b
  {
    if a == 0 then b
    else if b == 0 then a
    else 2 * Or(a / 2, b / 2) + (if a % 2 == 1 || b % 2 == 1 then 1 else 0)
  }

  /** `a & b`, bit by bit. */
  function And(a: nat, b: nat): nat {
    if a == 0 || b == 0 then 0
    else 2 * And(a / 2, b / 2) + (if a % 2 == 1 && b % 2 == 1 then 1 else 0)
  }

  /** `a ^ b`, bit by bit. */
  function Xor(a: nat, b: nat): nat
    decreases a + b
  {
    if a == 0 then b
    else if b == 0 then a
    else 2 * Xor(a / 2, b / 2) + (if a % 2 != b % 2 then 1 else 0)
  }

  lemma {:induction false} Pow2Add(a: nat, b: nat)
    ensures Pow2(a + b) == Pow2(a) * Pow2(b)
  {
    if a > 0 {
      Pow2Add(a - 1, b);
    }
  }

  lemma Pow2Values()
    ensures Pow2(1) == 2 && Pow2(2) == 4 && Pow2(3) == 8 && Pow2(4) == 16
    ensures Pow2(5) == 32 && Pow2(6) == 64 && Pow2(7) == 128 && Pow2(8) == 256
    ensures Pow2(12) == 0x1000 && Pow2(16) == 0x1_0000
    ensures Pow2(18) == 0x4_0000 && Pow2(24) == 0x100_0000
    ensures Pow2(31) == 0x8000_0000 && Pow2(32) == TWO_32
  {
    assert Pow2(4) == 16;
    Pow2Add(4, 4);
    Pow2Add(8, 4);
    Pow2Add(8, 8);
    Pow2Add(16, 2);
    Pow2Add(16, 8);
    Pow2Add(24, 7);
    Pow2Add(16, 16);
  }

  /** Or-ing a word into zeroed low bits is addition. */
  lemma {:induction false} OrDisjoint(a: nat, b: nat, k: nat)
    requires a % Pow2(k) == 0 && b < Pow2(k)
    ensures Or(a, b) == a + b
  {
    if a != 0 && b != 0 {
      var p := Pow2(k - 1);
      var q := a / Pow2(k);
      assert a == 2 * (p * q) by { assert a == Pow2(k) * q; }
      assert a / 2 == p * q && a % 2 == 0;
      assert (p * q) % p == 0 by { ModMul(p, q); }
      OrDisjoint(a / 2, b / 2, k - 1);
    }
  }

  /** The same with the power of two given as a number. */
  lemma OrPlus(q: nat, b: nat, k: nat, p: nat)
    requires p == Pow2(k) && b < p
    ensures p * q >= 0 && Or(p * q, b) == p * q + b
  {
    ModMul(p, q);
    OrDisjoint(p * q, b, k);
  }

  lemma ShlSmall(x: uint32, k: nat, p: nat)
    requires p == Pow2(k) && p * x < TWO_32
    ensures Shl32(x, k) == p * x
  {
    hide Pow2;
  }

  lemma ModMul(p: nat, q: nat)
    requires p > 0
    ensures (p * q) % p == 0
  {
    DivModUnique(p * q, p, q, 0);
  }

  lemma DivModUnique(n: int, d: int, q: int, r: int)
    requires d > 0 && n == d * q + r && 0 <= r < d
    ensures n / d == q && n % d == r
  {
    var q' := n / d;
    assert d * (q - q') == n % d - r by { Distribute(d, q, -q'); }
    if q > q' {
      MulGe(d, q - q');
    } else if q < q' {
      MulGe(d, q' - q);
      Distribute(d, q - q', q' - q);
    }
  }

  lemma MulGe(d: int, m: int)
    requires d > 0 && m >= 1
    ensures d * m >= d
  {
  }

  /** One binary place of a remainder. */
  lemma ModDouble(a: nat, p: nat)
    requires p > 0
    ensures a % (2 * p) == 2 * (a / 2 % p) + a % 2
  {
    DivModSplit(a, 2, p);
    var m := a % (2 * p);
    assert m == 2 * (m / 2) + m % 2;
  }

  /** Masking with k low ones keeps the low k bits. */
  lemma {:induction false} AndMask(a: nat, k: nat)
    ensures And(a, Pow2(k) - 1) == a % Pow2(k)
  {
    if a != 0 && k > 0 {
      var p := Pow2(k - 1);
      AndMask(a / 2, k - 1);
      assert And(a, 2 * p - 1) == 2 * And(a / 2, p - 1) + a % 2 by {
        OddMask(p);
      }
      ModDouble(a, p);
    }
  }

  lemma OddMask(p: nat)
    requires p > 0
    ensures (2 * p - 1) / 2 == p - 1 && (2 * p - 1) % 2 == 1
  {
  }

  lemma {:induction false} XorZero(a: nat, b: nat)
    ensures Xor(a, b) == 0 <==> a == b
    decreases a + b
  {
    if a != 0 && b != 0 {
      XorZero(a / 2, b / 2);
    }
  }

  lemma {:induction false} OrZero(a: nat, b: nat)
    ensures Or(a, b) == 0 <==> a == 0 && b == 0
    decreases a + b
  {
    if a != 0 && b != 0 {
      OrZero(a / 2, b / 2);
    }
  }

  /** Splitting a number at a product of two bases. */
  lemma DivModSplit(n: nat, b: nat, c: nat)
    requires b > 0 && c > 0
    ensures b * c > 0
    ensures (n % (b * c)) / b == n / b % c
    ensures (n % (b * c)) % b == n % b
  {
    MulGe(b, c);
    var h, l := n / b, n % b;
    var q, r := h / c, h % c;
    var rest := b * r + l;
    assert rest < b * c by {
      assert b * r <= b * (c - 1) by { MulLe(b, r, c - 1); }
    }
    assert n == (b * c) * q + rest by {
      Assoc(b, c, q);
      assert b * h == b * (c * q) + b * r by { assert h == c * q + r; Distribute(b, c * q, r); }
    }
    DivModUnique(n, b * c, q, rest);
    DivModUnique(rest, b, r, l);
  }

  lemma MulLe(d: nat, x: nat, y: nat)
    requires x <= y
    ensures d * x <= d * y
  {
  }

  lemma Assoc(a: int, b: int, c: int)
    ensures (a * b) * c == a * (b * c)
  {
  }

  lemma Distribute(a: int, b: int, c: int)
    ensures a * (b + c) == a * b + a * c
  {
  }

  lemma FieldSurvives(n: nat, m: nat, b: nat, w: nat, r: nat)
    requires b > 0 && w > 0 && r > 0 && m == b * (w * r) && m > 0
    ensures (n % m) / b % w == n / b % w
  {
    MulGe(w, r);
    DivModSplit(n, b, w * r);
    DivModSplit(n / b, w, r);
  }

  lemma Pow2Three(m: nat, b: nat, w: nat)
    requires b + w <= m
    ensures Pow2(m) == Pow2(b) * (Pow2(w) * Pow2(m - b - w))
  {
    Pow2Add(w, m - b - w);
    Pow2Add(b, m - b);
  }

  /** Reducing modulo 2^m first leaves every field of w bits below bit m. */
  lemma LowBitsSurvive(n: nat, m: nat, b: nat, w: nat)
    requires b + w <= m
    ensures (n % Pow2(m)) / Pow2(b) % Pow2(w) == n / Pow2(b) % Pow2(w)
  {
    Pow2Three(m, b, w);
    FieldSurvives(n, Pow2(m), Pow2(b), Pow2(w), Pow2(m - b - w));
  }
}
