/** Remainders, and bitwise arithmetic on 32-bit words, as integers. */
module Bits {

  const WRAP: int := 0x1_0000_0000

  type Word = x: int | 0 <= x < WRAP

  lemma {:induction false} MultipleAtLeast(k: nat, div: nat)
    requires 1 <= k
    ensures k * div >= div
  {
    if k > 1 {
      MultipleAtLeast(k - 1, div);
      assert k * div == (k - 1) * div + div;
    }
  }

  /** A remainder is known by its size and its quotient. */
  lemma RemainderOf(number: int, div: int, q: int, temp: int)
    requires 0 <= temp < div && number == q * div + temp
    ensures temp == number % div
  {
    var quotient, rest := number / div, number % div;
    assert number == quotient * div + rest;
    assert (quotient - q) * div == temp - rest && (q - quotient) * div == rest - temp;
    if quotient > q {
      MultipleAtLeast(quotient - q, div);
    } else if quotient < q {
      MultipleAtLeast(q - quotient, div);
    }
  }

  function And(a: nat, b: nat): (r: nat)
    ensures r <= a && r <= b
  {
    if a == 0 || b == 0 then 0 else 2 * And(a / 2, b / 2) + if a % 2 == 1 && b % 2 == 1 then 1 else 0
  }

  function Not(a: Word): Word { WRAP - 1 - a }

  function Add(a: Word, b: Word): Word { (a + b) % WRAP }

  function Sub(a: Word, b: Word): Word { (a - b) % WRAP }

  function Pow2(k: nat): (r: nat)
    ensures r >= 1
  {
    if k == 0 then 1 else 2 * Pow2(k - 1)
  }

  lemma AndHalves(a: nat, b: nat)
    ensures And(a, b) == 2 * And(a / 2, b / 2) + if a % 2 == 1 && b % 2 == 1 then 1 else 0
  {
  }

  lemma Pow2Step(k: nat)
    ensures Pow2(0) == 1
    ensures k > 0 ==> Pow2(k) == 2 * Pow2(k - 1)
  {
  }

  lemma {:induction false} AllOnes(x: nat, w: nat)
    requires x < Pow2(w)
    ensures And(x, Pow2(w) - 1) == x
    decreases w
  {
    hide And, Pow2;
    Pow2Step(w);
    if w > 0 {
      AllOnes(x / 2, w - 1);
      AndHalves(x, Pow2(w) - 1);
      assert (Pow2(w) - 1) / 2 == Pow2(w - 1) - 1;
    }
  }

  lemma {:induction false} Pow2Grows(k: nat, w: nat)
    requires k <= w
    ensures Pow2(k) <= Pow2(w)
    decreases w
  {
    if k < w {
      Pow2Grows(k, w - 1);
    }
  }

  /** The remainder, kept away from the solver's arithmetic. */
  function Mod(x: nat, m: nat): (r: nat)
    requires m >= 1
    ensures r < m && r <= x
  {
    x % m
  }

  lemma HalfRemainder(x: nat, m: nat)
    requires m >= 1
    ensures Mod(x, 2 * m) == 2 * Mod(x / 2, m) + x % 2
  {
    var h := x / 2;
    assert h == h / m * m + h % m;
    assert x == h / m * (2 * m) + (2 * (h % m) + x % 2);
    RemainderOf(x, 2 * m, h / m, 2 * (h % m) + x % 2);
  }

  /** Masking off the low k bits is rounding down to a multiple of 2^k. */
  lemma {:induction false} MaskRoundsDown(x: nat, k: nat, w: nat)
    requires k <= w && x < Pow2(w)
    ensures Pow2(k) <= Pow2(w) && And(x, Pow2(w) - Pow2(k)) == x - Mod(x, Pow2(k))
    decreases w
  {
    hide And, Pow2, Mod;
    Pow2Grows(k, w);
    Pow2Step(k);
    Pow2Step(w);
    if k == 0 {
      AllOnes(x, w);
    } else {
      MaskRoundsDown(x / 2, k - 1, w - 1);
      AndHalves(x, Pow2(w) - Pow2(k));
      HalfRemainder(x, Pow2(k - 1));
      assert (Pow2(w) - Pow2(k)) / 2 == Pow2(w - 1) - Pow2(k - 1);
    }
  }

  lemma WordIsPow2()
    ensures Pow2(32) == WRAP
  {
    assert Pow2(8) == 0x100;
    assert Pow2(16) == 0x1_0000;
    assert Pow2(24) == 0x100_0000;
  }

  // ----- Rounding up to a power of two -----

  predicate PowerOfTwo(size: Word) { exists k: nat :: k < 32 && Pow2(k) == size }

  /** The expression (p + size - 1) & ~(size - 1). */
  function RoundUp(p: Word, size: Word): Word {
    And(Sub(Add(p, size), 1), Not(Sub(size, 1)))
  }

  /** The least multiple of the size from p on. */
  lemma {:induction false} RoundsUp(p: Word, size: Word)
    requires PowerOfTwo(size) && p + size - 1 < WRAP
    ensures p <= RoundUp(p, size) < p + size
    ensures RoundUp(p, size) % size == 0
  {
    hide Pow2, And, Mod;
    var k: nat :| k < 32 && Pow2(k) == size;
    var x := p + size - 1;
    WordIsPow2();
    MaskRoundsDown(x, k, 32);
    assert Sub(Add(p, size), 1) == x;
    assert Not(Sub(size, 1)) == Pow2(32) - Pow2(k);
    RoundedDown(x, size);
  }

  lemma RoundedDown(x: nat, size: nat)
    requires size >= 1
    ensures x - size < x - Mod(x, size) <= x
    ensures (x - Mod(x, size)) % size == 0
  {
    RemainderOf(x - x % size, size, x / size, 0);
  }

  /** A multiple of a power of two is a multiple of every smaller one. */
  lemma {:induction false} SmallerDivides(x: int, j: nat, k: nat)
    requires j <= k && x % Pow2(k) == 0
    ensures x % Pow2(j) == 0
    decreases k
  {
    if j < k {
      var m := Pow2(k - 1);
      var q := x / (2 * m);
      assert x == q * (2 * m) == 2 * q * m;
      RemainderOf(x, m, 2 * q, 0);
      SmallerDivides(x, j, k - 1);
    }
  }

  lemma MultiplesApart(x: int, y: int, size: nat)
    requires size >= 1 && x % size == 0 && y % size == 0 && x < y
    ensures x + size <= y
  {
    var a, b := x / size, y / size;
    assert x == a * size && y == b * size;
    assert (b - a) * size == y - x && (a - b) * size == x - y;
    if a < b {
      MultipleAtLeast(b - a, size);
    } else if a > b {
      MultipleAtLeast(a - b, size);
    }
  }
}
