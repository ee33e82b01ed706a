/** Rounding to clicks: the align macro of the boot monitor and the shifts of the kernel. */
module Clicks {

  predicate Times(k: int, c: nat, m: int) { m == k * c }

  /** m is a whole number of clicks. */
  ghost predicate Multiple(m: int, c: nat) { exists k :: Times(k, c, m) }

  /** x rounded up to a click; slightly negative sizes, what is left of a bss that fitted in the
      last data click, round to 0. */
  ghost function Up(x: int, c: nat): (m: nat)
    requires c > 0 && x + c > 0
    ensures x <= m < x + c && Multiple(m, c)
  {
    UpExists(x, c);
    var m: nat :| x <= m < x + c && Multiple(m, c);
    m
  }

  lemma UpExists(x: int, c: nat)
    requires c > 0 && x + c > 0
    ensures exists m: nat :: x <= m < x + c && Multiple(m, c)
  {
    var q := (x + c - 1) / c;
    assert Times(q, c, q * c);
    assert x + c - 1 == q * c + (x + c - 1) % c;
    assert x <= q * c < x + c && Multiple(q * c, c);
  }

  /** align(a, n) in 32-bit arithmetic: ((u32_t) a + (n - 1)) & ~(n - 1), n a power of two. */
  function Align32(a: int, n: nat): int
    requires n > 0
  {
    var y := (a + n - 1) % 0x1_0000_0000;
    y - y % n
  }

  lemma MulStep(j: int, k: int, c: nat)
    requires j < k
    ensures k * c >= j * c + c
  {
    var d := k - j - 1;
    assert k * c == j * c + c + d * c;
    assert d * c >= 0;
  }

  lemma MultipleUnique(a: int, b: int, x: int, c: nat)
    requires c > 0 && Multiple(a, c) && Multiple(b, c) && x <= a < x + c && x <= b < x + c
    ensures a == b
  {
    var j :| Times(j, c, a);
    var k :| Times(k, c, b);
    if j < k { MulStep(j, k, c); }
    if k < j { MulStep(k, j, c); }
  }

  lemma MultipleAdd(a: int, b: int, c: nat)
    requires Multiple(a, c) && Multiple(b, c)
    ensures Multiple(a + b, c) && Multiple(a - b, c)
  {
    var j :| Times(j, c, a);
    var k :| Times(k, c, b);
    assert (j + k) * c == j * c + k * c && (j - k) * c == j * c - k * c;
    assert Times(j + k, c, a + b) && Times(j - k, c, a - b);
  }

  /** Rounding a segment and then what is left of the next one is rounding their sum. */
  lemma UpTelescopes(a: int, b: int, c: nat)
    requires c > 0 && a + c > 0 && b >= 0
    ensures b + (a - Up(a, c)) + c > 0
    ensures Up(a, c) + Up(b + (a - Up(a, c)), c) == Up(a + b, c)
  {
    var m := Up(a, c);
    MultipleAdd(m, Up(a + b - m, c), c);
    MultipleUnique(m + Up(a + b - m, c), Up(a + b, c), a + b, c);
  }

  /** The macro is Up as long as 32 bits do not overflow. */
  lemma Align32IsUp(a: int, n: nat)
    requires n > 0 && a + n > 0 && a + n - 1 < 0x1_0000_0000
    ensures Align32(a, n) == Up(a, n)
  {
    var y := a + n - 1;
    assert y == y / n * n + y % n;
    assert Times(y / n, n, y / n * n);
    MultipleUnique(y / n * n, Up(a, n), a, n);
  }

  /** The kernel's (x + CLICK_SIZE-1) >> CLICK_SHIFT counts the clicks that the monitor set aside. */
  lemma ClickCount(x: nat, c: nat)
    requires c > 0
    ensures Up(x, c) / c == (x + c - 1) / c
  {
    var q := (x + c - 1) / c;
    assert x + c - 1 == q * c + (x + c - 1) % c;
    assert Times(q, c, q * c);
    MultipleUnique(Up(x, c), q * c, x, c);
    ExactQuotient(q, c);
  }

  lemma ExactQuotient(q: nat, c: nat)
    requires c > 0
    ensures q * c / c == q
  {
    var m := q * c;
    assert m == m / c * c + m % c;
    if m / c < q { MulStep(m / c, q, c); }
    if m / c > q { MulStep(q, m / c, c); }
  }
}
