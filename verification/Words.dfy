/** Unsigned words of any width, with the operators the atomic macros apply to them. */
module Words {

  function Pow2(k: nat): (r: nat)
    ensures r >= 1
  {
    if k == 0 then 1 else 2 * Pow2(k - 1)
  }

  /** The value of an integer in an unsigned type of `width` bits. */
  function Wrap(x: int, width: nat): (r: nat)
    ensures r < Pow2(width)
  {
    x % Pow2(width)
  }

  /** x >> k: k times the integer half. */
  function ShiftRight(x: nat, k: nat): nat {
    if k == 0 then x else ShiftRight(x / 2, k - 1)
  }

  /** x << k, unbounded: k times the double. */
  function ShiftLeft(x: nat, k: nat): nat {
    if k == 0 then x else 2 * ShiftLeft(x, k - 1)
  }

  function BitOr(x: nat, y: nat): nat
    decreases x + y
  {
    if x == 0 && y == 0 then 0
    else 2 * BitOr(x / 2, y / 2) + if x % 2 == 1 || y % 2 == 1 then 1 else 0
  }

  function BitAnd(x: nat, y: nat): nat
    decreases x + y
  {
    if x == 0 && y == 0 then 0
    else 2 * BitAnd(x / 2, y / 2) + if x % 2 == 1 && y % 2 == 1 then 1 else 0
  }

  lemma {:induction false} BitsFit(x: nat, y: nat, width: nat)
    requires x < Pow2(width) && y < Pow2(width)
    ensures BitOr(x, y) < Pow2(width) && BitAnd(x, y) < Pow2(width)
  {
    if width > 0 && (x > 0 || y > 0) {
      BitsFit(x / 2, y / 2, width - 1);
    }
  }

  lemma DivModUnique(q: int, r: nat, n: nat)
    requires r < n
    ensures (n * q + r) % n == r
  {
    var a := n * q + r;
    var d := a / n;
    assert a == n * d + a % n;
    if d < q {
      TimesStep(n, d, q);
    } else if q < d {
      TimesStep(n, q, d);
    }
  }

  lemma TimesStep(n: nat, x: int, y: int)
    requires x < y
    ensures n * x + n <= n * y
  {
    assert n * y == n * (x + 1) + n * (y - x - 1);
  }

  lemma LowHalf(x: nat, k: nat)
    requires k > 0
    ensures Wrap(x, k) == 2 * Wrap(x / 2, k - 1) + x % 2
  {
    var n := Pow2(k - 1);
    var q, r := (x / 2) / n, (x / 2) % n;
    assert x == 2 * (n * q + r) + x % 2;
    assert 2 * (n * q) == Pow2(k) * q;
    DivModUnique(q, 2 * r + x % 2, Pow2(k));
  }

  /** Reducing early does not matter. */
  lemma WrapSum(x: int, y: int, width: nat)
    ensures Wrap(Wrap(x, width) + y, width) == Wrap(x + y, width)
  {
    var n := Pow2(width);
    var a := Wrap(x, width) + y;
    assert x == n * (x / n) + x % n;
    assert a == n * (a / n) + a % n;
    assert x + y == n * (x / n + a / n) + a % n;
    DivModUnique(x / n + a / n, a % n, n);
  }

  lemma TimesMinus(n: int, a: int, b: int)
    ensures n * a - n * b == n * (a - b)
  {
  }

  lemma SameRemainder(x: int, y: int, n: nat)
    requires n > 0 && x % n == y % n
    ensures (x - y) % n == 0
  {
    assert x == n * (x / n) + x % n;
    assert y == n * (y / n) + y % n;
    TimesMinus(n, x / n, y / n);
    DivModUnique(x / n - y / n, 0, n);
  }

  lemma MultipleApart(x: int, y: int, n: nat)
    requires n > 0 && (x - y) % n == 0
    ensures x % n == y % n
  {
    var a, b := (x - y) / n, y / n;
    assert x - y == n * a;
    assert y == n * b + y % n;
    TimesMinus(n, a, -b);
    DivModUnique(a + b, y % n, n);
  }

  /** Two integers wrap to the same word exactly when they differ by a multiple of its range. */
  lemma WrapEqual(x: int, y: int, width: nat)
    ensures Wrap(x, width) == Wrap(y, width) <==> (x - y) % Pow2(width) == 0
  {
    if Wrap(x, width) == Wrap(y, width) {
      SameRemainder(x, y, Pow2(width));
    }
    if (x - y) % Pow2(width) == 0 {
      MultipleApart(x, y, Pow2(width));
    }
  }

  lemma ModAdd(a: nat, k: nat, n: nat)
    requires n > 0
    ensures (a % n + k) % n == (a + k) % n
  {
    assert a == n * (a / n) + a % n;
    ModMultiple(a % n + k, a / n, n);
  }

  lemma ModMultiple(x: nat, m: nat, n: nat)
    requires n > 0
    ensures (x + n * m) % n == x % n
  {
    assert x == n * (x / n) + x % n;
    assert x + n * m == n * (x / n + m) + x % n;
    DivModUnique(x / n + m, x % n, n);
  }

  lemma {:induction false} PowSum(a: nat, b: nat)
    ensures Pow2(a + b) == Pow2(a) * Pow2(b)
  {
    if b > 0 {
      PowSum(a, b - 1);
      assert Pow2(a + b) == 2 * Pow2(a + (b - 1));
    }
  }

  lemma {:induction false} PowMono(a: nat, b: nat)
    requires a <= b
    ensures Pow2(a) <= Pow2(b) && (a < b ==> Pow2(a) < Pow2(b))
  {
    if a < b {
      PowMono(a, b - 1);
    }
  }

  /** A power of two is a multiple of another exactly when it is not the smaller. */
  lemma PowDivides(small: nat, big: nat)
    ensures Pow2(big) % Pow2(small) == 0 <==> small <= big
  {
    if small <= big {
      PowSum(small, big - small);
      DivModUnique(Pow2(big - small), 0, Pow2(small));
    } else {
      PowMono(big, small);
      DivModUnique(0, Pow2(big), Pow2(small));
    }
  }

  /** The powers that the programs name. */
  lemma NamedPowers()
    ensures Pow2(20) == 0x10_0000 && Pow2(32) == 0x1_0000_0000
    ensures Pow2(63) == 0x8000_0000_0000_0000 && Pow2(64) == 0x1_0000_0000_0000_0000
  {
    assert Pow2(4) == 16;
    assert Pow2(8) == 256;
    PowSum(8, 8);
    PowSum(16, 4);
    PowSum(16, 16);
    PowSum(32, 32);
    assert Pow2(64) == 2 * Pow2(63);
  }
}
