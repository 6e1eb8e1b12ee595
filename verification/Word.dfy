/** 32-bit unsigned words as the rings use them: arithmetic that wraps, and a
    bitwise AND with a mask that selects a slot. */
module Word {

  const WORD: nat := 0x1_0000_0000

  type u32 = x: int | 0 <= x < WORD

  function Add(a: u32, b: u32): u32 {
    (a + b) % WORD
  }

  function Sub(a: u32, b: u32): u32 {
    (a - b) % WORD
  }

  /** Bitwise AND, bit by bit from the low end. */
  function And(a: nat, b: nat): nat {
    if a == 0 || b == 0 then 0 else 2 * And(a / 2, b / 2) + (if a % 2 == 1 && b % 2 == 1 then 1 else 0)
  }

  function Pow2(k: nat): (n: nat)
    ensures n >= 1
  {
    if k == 0 then 1 else 2 * Pow2(k - 1)
  }

  /** The kernel gives both rings a power-of-two number of entries, at most 2^31. */
  ghost predicate RingSize(n: nat) {
    exists k: nat :: k <= 31 && n == Pow2(k)
  }

  lemma {:induction false} Pow2Sum(a: nat, b: nat)
    ensures Pow2(a + b) == Pow2(a) * Pow2(b)
  {
    if a > 0 {
      Pow2Sum(a - 1, b);
      assert Pow2(a + b) == 2 * Pow2(a - 1 + b);
    }
  }

  /** Masking with one less than a power of two is the remainder. */
  lemma {:induction false} AndLowBits(x: nat, k: nat)
    ensures And(x, Pow2(k) - 1) == x % Pow2(k)
  {
    if k == 0 {
    } else if x == 0 {
      RemainderUnique(0, Pow2(k), 0, 0);
    } else {
      AndLowBits(x / 2, k - 1);
      AndOneBitMore(x, Pow2(k - 1));
    }
  }

  lemma AndOneBitMore(x: nat, n: nat)
    requires x > 0 && n > 0 && And(x / 2, n - 1) == (x / 2) % n
    ensures And(x, 2 * n - 1) == x % (2 * n)
  {
    hide And;
    AndOddMask(x, n);
    DoubledRemainder(x, n);
  }

  lemma AndOddMask(x: nat, n: nat)
    requires x > 0 && n > 0
    ensures And(x, 2 * n - 1) == 2 * And(x / 2, n - 1) + x % 2
  {
    var b := 2 * n - 1;
    assert b / 2 == n - 1 && b % 2 == 1;
  }

  lemma DoubledRemainder(x: nat, n: nat)
    requires n > 0
    ensures x % (2 * n) == 2 * ((x / 2) % n) + x % 2
  {
    var h := x / 2;
    var q, r := h / n, h % n;
    assert h == n * q + r;
    assert (2 * n) * q == 2 * (n * q);
    RemainderUnique(x, 2 * n, q, 2 * r + x % 2);
  }

  lemma ProductBounds(n: int, d: int)
    requires n > 0
    ensures d >= 1 ==> n * d >= n
    ensures d <= -1 ==> n * d <= -n
  {
    if d >= 1 {
      assert n * d == n + n * (d - 1);
    } else if d <= -1 {
      assert n * d == -n + n * (d + 1);
      assert n * -(d + 1) >= 0;
    }
  }

  lemma RemainderUnique(x: int, n: int, q: int, r: int)
    requires n > 0 && 0 <= r < n && x == n * q + r
    ensures x % n == r
  {
    var p, d := x / n, x / n - q;
    assert x == n * p + x % n;
    assert n * d == n * p - n * q;
    ProductBounds(n, d);
  }

  lemma ModAddMultiple(x: int, n: int, q: int)
    requires n > 0
    ensures (x + n * q) % n == x % n
  {
    assert x + n * q == n * (x / n + q) + x % n by {
      assert n * (x / n + q) == n * (x / n) + n * q;
    }
    RemainderUnique(x + n * q, n, x / n + q, x % n);
  }

  lemma {:induction false} WordIsPow2()
    ensures Pow2(32) == WORD
  {
    assert Pow2(4) == 16;
    Pow2Sum(4, 4);
    Pow2Sum(8, 8);
    Pow2Sum(16, 16);
  }

  lemma RingSizeDividesWord(n: nat) returns (m: nat)
    requires RingSize(n)
    ensures n * m == WORD && 1 <= n <= 0x8000_0000
  {
    var k: nat :| k <= 31 && n == Pow2(k);
    var j := 31 - k;
    m := Pow2(j + 1);
    assert k + (j + 1) == 32;
    Pow2Sum(k, j + 1);
    WordIsPow2();
    HalfAtLeast(n, Pow2(j));
  }

  lemma RingSizeBound(n: nat)
    requires RingSize(n)
    ensures 1 <= n <= 0x8000_0000
  {
    var _ := RingSizeDividesWord(n);
  }

  lemma HalfAtLeast(n: nat, p: nat)
    requires p >= 1
    ensures n * (2 * p) >= 2 * n
  {
    assert n * (2 * p) == 2 * n + n * (2 * (p - 1));
  }

  /** Masking a wrapped counter selects the slot of the unbounded counter: the
      ring size divides 2^32, so nothing is lost when a counter wraps. */
  lemma SlotOfWrapped(c: nat, n: nat)
    requires RingSize(n)
    ensures n >= 1
    ensures And(c % WORD, n - 1) == c % n
  {
    var k: nat :| k <= 31 && n == Pow2(k);
    AndLowBits(c % WORD, k);
    var m := RingSizeDividesWord(n);
    RemainderOfRemainder(c, n, m);
  }

  lemma RemainderOfRemainder(c: nat, n: nat, m: nat)
    requires n > 0 && n * m > 0
    ensures (c % (n * m)) % n == c % n
  {
    var w := n * m;
    var q, r := c / w, c % w;
    assert c == w * q + r;
    assert w * q == n * (m * q);
    ModAddMultiple(r, n, m * q);
  }

  /** The difference of two wrapped counters is their true distance, whenever
      that distance fits a word. */
  lemma DifferenceOfWrapped(a: nat, b: nat)
    requires b <= a < b + WORD
    ensures Sub(a % WORD, b % WORD) == a - b
  {
    var x := a / WORD - b / WORD;
    assert a % WORD - b % WORD == (a - b) + WORD * (-x);
    ModAddMultiple(a - b, WORD, -x);
  }

  /** A counter just passed is a whole word away, less one. */
  lemma OneAhead(a: u32)
    ensures Sub(a, Add(a, 1)) == WORD - 1
  {
  }

  lemma SuccessorOfWrapped(a: nat)
    ensures Add(a % WORD, 1) == (a + 1) % WORD
  {
  }

  /** Two counters less than a ring apart share a slot only if they are equal. */
  lemma SlotDeterminesCounter(i: nat, j: nat, n: nat)
    requires n > 0 && i <= j < i + n && i % n == j % n
    ensures i == j
  {
    var p, q := i / n, j / n;
    assert i == n * p + i % n && j == n * q + j % n;
    assert j - i == n * (q - p);
    ProductBounds(n, q - p);
  }
}
