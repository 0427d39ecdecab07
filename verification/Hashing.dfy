/**
 The two mixers of the lock-free benchmark on 64-bit words: the finaliser that turns a key into
 a bucket number, and the xorshift step that draws the next random word.
 */
module Hashing {
  import opened Words

  const BITS: nat := 64
  const FALLBACK: nat := 0x123456789abcdef

  const M1: nat := 0xff51afd7ed558ccd
  const M2: nat := 0xc4ceb9fe1a85ec53

  /** The inverses of the two multipliers modulo 2^64. */
  const R1: nat := 0x4f74430c22a54005
  const R2: nat := 0x9cb4b2f8129337db

  function Xor(x: nat, y: nat): nat
    decreases x + y
  {
    if x == 0 && y == 0 then 0
    else 2 * Xor(x / 2, y / 2) + if x % 2 != y % 2 then 1 else 0
  }

  /** x << k on the 64-bit word. */
  function Left(x: nat, k: nat): nat {
    Wrap(ShiftLeft(x, k), BITS)
  }

  /** x ^= x >> k */
  function FoldRight(x: nat, k: nat): nat {
    Xor(x, ShiftRight(x, k))
  }

  /** x ^= x << k */
  function FoldLeft(x: nat, k: nat): nat {
    Xor(x, Left(x, k))
  }

  function Times(x: nat, m: nat): nat {
    Wrap(x * m, BITS)
  }

  function Mixed(x: nat): nat {
    FoldRight(Times(FoldRight(Times(FoldRight(x, 33), M1), 33), M2), 33)
  }

  /** The same steps backwards, with the multipliers' inverses. */
  function Unmixed(y: nat): nat {
    FoldRight(Times(FoldRight(Times(FoldRight(y, 33), R2), 33), R1), 33)
  }

  /** The xorshift step without its zero fallback. */
  function Shifted(x: nat): nat {
    FoldLeft(FoldRight(FoldLeft(x, 13), 7), 17)
  }

  /** Its inverse: each fold is undone by the folds of its doubled distances. */
  function Unshifted(y: nat): nat {
    var a := FoldLeft(FoldLeft(y, 17), 34);
    var b := FoldRight(FoldRight(FoldRight(FoldRight(a, 7), 14), 28), 56);
    FoldLeft(FoldLeft(FoldLeft(b, 13), 26), 52)
  }

  function Next(x: nat): nat {
    if Shifted(x) != 0 then Shifted(x) else FALLBACK
  }

  /** bench_mix_u64. The result is a word, and the key can be had back from it. */
  method Mix(key: nat) returns (x: nat)
    requires key < Pow2(BITS)
    ensures x < Pow2(BITS) && Unmixed(x) == key && x == Mixed(key)
  {
    x := key;
    x := Xor(x, ShiftRight(x, 33));
    x := Times(x, M1);
    x := Xor(x, ShiftRight(x, 33));
    x := Times(x, M2);
    x := Xor(x, ShiftRight(x, 33));
    MixIsBijection(key);
  }

  class Generator {
    var state: nat

    constructor (seed: nat)
      ensures state == seed
    {
      state := seed;
    }

    /** bench_xorshift64. A draw never leaves zero behind, and from a non-zero state it can be taken back. */
    method Draw() returns (r: nat)
      requires state < Pow2(BITS)
      modifies this
      ensures 0 < state < Pow2(BITS) && r == state == Next(old(state))
      ensures old(state) != 0 ==> Unshifted(state) == old(state)
      ensures old(state) == 0 ==> state == FALLBACK
    {
      var x := state;
      x := Xor(x, Left(x, 13));
      x := Xor(x, ShiftRight(x, 7));
      x := Xor(x, Left(x, 17));
      ghost var was := state;
      ShiftIsBijection(was);
      assert x == Shifted(was);
      FallbackFits();
      state := if x != 0 then x else FALLBACK;
      r := state;
    }
  }

  // ---- bitwise algebra

  lemma {:induction false} XorFits(x: nat, y: nat, width: nat)
    requires x < Pow2(width) && y < Pow2(width)
    ensures Xor(x, y) < Pow2(width)
  {
    if width > 0 && (x > 0 || y > 0) {
      XorFits(x / 2, y / 2, width - 1);
    }
  }

  lemma {:induction false} XorZero(x: nat)
    ensures Xor(x, 0) == x
  {
    if x > 0 {
      XorZero(x / 2);
    }
  }

  /** The middle term of a telescoping sum cancels. */
  lemma {:induction false} XorTelescopes(x: nat, y: nat, z: nat)
    ensures Xor(Xor(x, y), Xor(y, z)) == Xor(x, z)
    decreases x + y + z
  {
    if x > 0 || y > 0 || z > 0 {
      XorTelescopes(x / 2, y / 2, z / 2);
      XorHalves(x, y);
      XorHalves(y, z);
      XorHalves(x, z);
      XorHalves(Xor(x, y), Xor(y, z));
    }
  }

  lemma {:induction false} XorExchanges(x: nat, a: nat, b: nat, c: nat)
    ensures Xor(Xor(x, a), Xor(b, c)) == Xor(Xor(x, b), Xor(a, c))
    decreases x + a + b + c
  {
    if x > 0 || a > 0 || b > 0 || c > 0 {
      XorExchanges(x / 2, a / 2, b / 2, c / 2);
      XorHalves(x, a);
      XorHalves(b, c);
      XorHalves(x, b);
      XorHalves(a, c);
      XorHalves(Xor(x, a), Xor(b, c));
      XorHalves(Xor(x, b), Xor(a, c));
    }
  }

  lemma XorHalves(x: nat, y: nat)
    ensures Xor(x, y) / 2 == Xor(x / 2, y / 2)
    ensures Xor(x, y) % 2 == (if x % 2 != y % 2 then 1 else 0)
  {
  }

  lemma XorOfLonger(a: nat, b: nat, i: nat, j: nat)
    requires i < 2 && j < 2
    ensures Xor(2 * a + i, 2 * b + j) == 2 * Xor(a, b) + if i != j then 1 else 0
  {
    XorHalves(2 * a + i, 2 * b + j);
  }

  lemma {:induction false} RightOfXor(x: nat, y: nat, k: nat)
    ensures ShiftRight(Xor(x, y), k) == Xor(ShiftRight(x, k), ShiftRight(y, k))
    decreases k
  {
    if k > 0 {
      XorHalves(x, y);
      RightOfXor(x / 2, y / 2, k - 1);
    }
  }

  lemma {:induction false} LongerOfXor(x: nat, y: nat, k: nat)
    ensures ShiftLeft(Xor(x, y), k) == Xor(ShiftLeft(x, k), ShiftLeft(y, k))
  {
    if k > 0 {
      LongerOfXor(x, y, k - 1);
      XorOfLonger(ShiftLeft(x, k - 1), ShiftLeft(y, k - 1), 0, 0);
    }
  }

  lemma {:induction false} LowOfXor(x: nat, y: nat, k: nat)
    ensures Wrap(Xor(x, y), k) == Xor(Wrap(x, k), Wrap(y, k))
  {
    if k > 0 {
      XorHalves(x, y);
      LowHalf(x, k);
      LowHalf(y, k);
      LowHalf(Xor(x, y), k);
      LowOfXor(x / 2, y / 2, k - 1);
      XorOfLonger(Wrap(x / 2, k - 1), Wrap(y / 2, k - 1), x % 2, y % 2);
    }
  }

  lemma LeftOfXor(x: nat, y: nat, k: nat)
    ensures Left(Xor(x, y), k) == Xor(Left(x, k), Left(y, k))
  {
    LongerOfXor(x, y, k);
    LowOfXor(ShiftLeft(x, k), ShiftLeft(y, k), BITS);
  }

  /** Cutting before doubling does not matter. */
  lemma {:induction false} CutThenLonger(x: nat, k: nat)
    ensures Wrap(ShiftLeft(Wrap(x, BITS), k), BITS) == Wrap(ShiftLeft(x, k), BITS)
  {
    if k > 0 {
      CutThenLonger(x, k - 1);
      CutThenDouble(ShiftLeft(Wrap(x, BITS), k - 1));
      CutThenDouble(ShiftLeft(x, k - 1));
    } else {
      CutTwice(x);
    }
  }

  lemma CutThenDouble(x: nat)
    ensures Wrap(2 * Wrap(x, BITS), BITS) == Wrap(2 * x, BITS)
  {
    WrapSum(x, Wrap(x, BITS), BITS);
    WrapSum(x, x, BITS);
  }

  lemma CutTwice(x: nat)
    ensures Wrap(Wrap(x, BITS), BITS) == Wrap(x, BITS)
  {
    WrapSum(x, 0, BITS);
  }

  lemma {:induction false} LongerTwice(x: nat, j: nat, k: nat)
    ensures ShiftLeft(ShiftLeft(x, j), k) == ShiftLeft(x, j + k)
  {
    if k > 0 {
      LongerTwice(x, j, k - 1);
    }
  }

  lemma {:induction false} RightAgain(x: nat, j: nat, k: nat)
    ensures ShiftRight(ShiftRight(x, j), k) == ShiftRight(x, j + k)
    decreases j
  {
    if j > 0 {
      RightAgain(x / 2, j - 1, k);
    }
  }

  // ---- folding twice is folding once at twice the distance

  lemma RightTwice(x: nat, k: nat)
    ensures FoldRight(FoldRight(x, k), k) == FoldRight(x, 2 * k)
  {
    RightOfXor(x, ShiftRight(x, k), k);
    RightAgain(x, k, k);
    XorTelescopes(x, ShiftRight(x, k), ShiftRight(ShiftRight(x, k), k));
  }

  lemma LeftTwice(x: nat, k: nat)
    ensures FoldLeft(FoldLeft(x, k), k) == FoldLeft(x, 2 * k)
  {
    LeftOfXor(x, Left(x, k), k);
    CutThenLonger(ShiftLeft(x, k), k);
    LongerTwice(x, k, k);
    XorTelescopes(x, Left(x, k), Left(Left(x, k), k));
  }

  lemma {:induction false} RightShrinks(x: nat, k: nat)
    ensures ShiftRight(x, k) <= x
    decreases k
  {
    if k > 0 {
      RightShrinks(x / 2, k - 1);
    }
  }

  lemma FoldsFit(x: nat, k: nat)
    requires x < Pow2(BITS)
    ensures FoldRight(x, k) < Pow2(BITS) && FoldLeft(x, k) < Pow2(BITS)
  {
    RightShrinks(x, k);
    XorFits(x, ShiftRight(x, k), BITS);
    XorFits(x, Left(x, k), BITS);
  }

  lemma {:induction false} RightEmpties(x: nat, k: nat)
    requires x < Pow2(k)
    ensures ShiftRight(x, k) == 0
    decreases k
  {
    if k > 0 {
      RightEmpties(x / 2, k - 1);
    }
  }

  lemma {:induction false} LongerIsMultiple(x: nat, k: nat)
    ensures ShiftLeft(x, k) == Pow2(k) * x
  {
    if k > 0 {
      LongerIsMultiple(x, k - 1);
      Regroup(2, Pow2(k - 1), x);
    }
  }

  lemma Regroup(x: int, y: int, z: int)
    ensures x * y * z == x * (y * z)
  {
  }

  lemma FarFoldsDoNothing(x: nat, k: nat)
    requires x < Pow2(BITS) && k >= BITS
    ensures FoldRight(x, k) == x && FoldLeft(x, k) == x
  {
    if k > BITS {
      PowMono(BITS, k);
    }
    RightEmpties(x, k);
    LongerTwice(x, k - BITS, BITS);
    LongerIsMultiple(ShiftLeft(x, k - BITS), BITS);
    DivModUnique(ShiftLeft(x, k - BITS), 0, Pow2(BITS));
    XorZero(x);
  }

  // ---- the finaliser

  lemma TimesInverse(x: nat, m: nat, r: nat)
    requires x < Pow2(BITS) && Wrap(m * r, BITS) == 1
    ensures Times(Times(x, m), r) == x
  {
    TimesTwice(x, m, r, x * m, m * r);
    TimesOne(x, m * r, Pow2(BITS));
  }

  lemma TimesTwice(x: nat, m: nat, r: nat, xm: int, mr: int)
    requires xm == x * m && mr == m * r
    ensures Times(Times(x, m), r) == Wrap(x * mr, BITS)
  {
    WrapProduct(xm, r);
    Regroup(x, m, r);
  }

  lemma WrapProduct(x: int, m: int)
    ensures Wrap(Wrap(x, BITS) * m, BITS) == Wrap(x * m, BITS)
  {
    var n := Pow2(BITS);
    var q := x / n;
    assert x == n * q + x % n;
    assert x * m - (x % n) * m == n * (q * m) + 0;
    DivModUnique(q * m, 0, n);
    WrapEqual(x * m, (x % n) * m, BITS);
  }

  lemma TimesOne(x: nat, p: int, n: nat)
    requires x < n && p % n == 1
    ensures (x * p) % n == x
  {
    var q := p / n;
    assert p == n * q + 1;
    Spread(x, n, q);
    DivModUnique(q * x, x, n);
  }

  lemma Spread(x: int, n: int, q: int)
    ensures x * (n * q + 1) == n * (q * x) + x
  {
  }

  lemma MultipliersInvert()
    ensures Wrap(M1 * R1, BITS) == 1 && Wrap(M2 * R2, BITS) == 1
  {
    NamedPowers();
    DivModUnique((M1 * R1) / 0x1_0000_0000_0000_0000, 1, 0x1_0000_0000_0000_0000);
    DivModUnique((M2 * R2) / 0x1_0000_0000_0000_0000, 1, 0x1_0000_0000_0000_0000);
  }

  lemma RightUndone(x: nat, k: nat)
    requires x < Pow2(BITS) && 2 * k >= BITS
    ensures FoldRight(FoldRight(x, k), k) == x
  {
    RightTwice(x, k);
    FarFoldsDoNothing(x, 2 * k);
  }

  /** The finaliser is a bijection of the 64-bit words, with Unmixed as its inverse on both sides. */
  lemma MixIsBijection(x: nat)
    requires x < Pow2(BITS)
    ensures Mixed(x) < Pow2(BITS) && Unmixed(Mixed(x)) == x
    ensures Unmixed(x) < Pow2(BITS) && Mixed(Unmixed(x)) == x
  {
    MultipliersInvert();
    FiveStepsUndone(x, M1, M2, R2, R1);
    FiveStepsUndone(x, R2, R1, M1, M2);
  }

  lemma FiveStepsUndone(x: nat, m: nat, n: nat, n': nat, m': nat)
    requires x < Pow2(BITS) && Wrap(m * m', BITS) == 1 && Wrap(n * n', BITS) == 1
    ensures var y := FoldRight(Times(FoldRight(Times(FoldRight(x, 33), m), 33), n), 33);
            && y < Pow2(BITS)
            && FoldRight(Times(FoldRight(Times(FoldRight(y, 33), n'), 33), m'), 33) == x
  {
    var a := FoldRight(x, 33);
    var b := Times(a, m);
    var c := FoldRight(b, 33);
    var d := Times(c, n);
    FoldsFit(x, 33);
    FoldsFit(b, 33);
    FoldsFit(d, 33);
    RightUndone(d, 33);
    TimesInverse(c, n, n');
    RightUndone(b, 33);
    TimesInverse(a, m, m');
    RightUndone(x, 33);
  }

  /** Keys that differ keep different hashes: only the reduction to a bucket number can collide. */
  lemma MixSeparatesKeys(x: nat, y: nat)
    requires x < Pow2(BITS) && y < Pow2(BITS)
    ensures Mixed(x) == Mixed(y) <==> x == y
  {
    MixIsBijection(x);
    MixIsBijection(y);
  }

  // ---- the generator

  lemma FallbackFits()
    ensures 0 < FALLBACK < Pow2(BITS)
  {
    NamedPowers();
  }

  lemma Left13Undone(x: nat)
    requires x < Pow2(BITS)
    ensures FoldLeft(FoldLeft(FoldLeft(FoldLeft(x, 13), 13), 26), 52) == x
  {
    LeftTwice(x, 13);
    LeftTwice(x, 26);
    LeftTwice(x, 52);
    FarFoldsDoNothing(x, 104);
  }

  lemma Right7Undone(x: nat)
    requires x < Pow2(BITS)
    ensures FoldRight(FoldRight(FoldRight(FoldRight(FoldRight(x, 7), 7), 14), 28), 56) == x
  {
    RightTwice(x, 7);
    RightTwice(x, 14);
    RightTwice(x, 28);
    RightTwice(x, 56);
    FarFoldsDoNothing(x, 112);
  }

  lemma Left17Undone(x: nat)
    requires x < Pow2(BITS)
    ensures FoldLeft(FoldLeft(FoldLeft(x, 17), 17), 34) == x
  {
    LeftTwice(x, 17);
    LeftTwice(x, 34);
    FarFoldsDoNothing(x, 68);
  }

  lemma ShiftIsUndone(x: nat)
    requires x < Pow2(BITS)
    ensures Shifted(x) < Pow2(BITS) && Unshifted(Shifted(x)) == x
  {
    var a := FoldLeft(x, 13);
    var b := FoldRight(a, 7);
    FoldsFit(x, 13);
    FoldsFit(a, 7);
    FoldsFit(b, 17);
    Left17Undone(b);
    Right7Undone(a);
    Left13Undone(x);
  }

  lemma UnshiftFits(y: nat)
    requires y < Pow2(BITS)
    ensures Unshifted(y) < Pow2(BITS)
  {
    FoldsFit(y, 17);
    var a := FoldLeft(FoldLeft(y, 17), 34);
    FoldsFit(FoldLeft(y, 17), 34);
    FoldsFit(a, 7);
    FoldsFit(FoldRight(a, 7), 14);
    FoldsFit(FoldRight(FoldRight(a, 7), 14), 28);
    var b := FoldRight(FoldRight(FoldRight(FoldRight(a, 7), 14), 28), 56);
    FoldsFit(FoldRight(FoldRight(FoldRight(a, 7), 14), 28), 56);
    FoldsFit(b, 13);
    FoldsFit(FoldLeft(b, 13), 26);
    FoldsFit(FoldLeft(FoldLeft(b, 13), 26), 52);
  }

  /** The order of two folds to the same side does not matter. */
  lemma LeftsCommute(x: nat, j: nat, k: nat)
    ensures FoldLeft(FoldLeft(x, j), k) == FoldLeft(FoldLeft(x, k), j)
  {
    LeftOfXor(x, Left(x, j), k);
    LeftOfXor(x, Left(x, k), j);
    CutThenLonger(ShiftLeft(x, j), k);
    CutThenLonger(ShiftLeft(x, k), j);
    LongerTwice(x, j, k);
    LongerTwice(x, k, j);
    XorExchanges(x, Left(x, j), Left(x, k), Left(Left(x, j), k));
  }

  lemma RightsCommute(x: nat, j: nat, k: nat)
    ensures FoldRight(FoldRight(x, j), k) == FoldRight(FoldRight(x, k), j)
  {
    RightOfXor(x, ShiftRight(x, j), k);
    RightOfXor(x, ShiftRight(x, k), j);
    RightAgain(x, j, k);
    RightAgain(x, k, j);
    XorExchanges(x, ShiftRight(x, j), ShiftRight(x, k), ShiftRight(ShiftRight(x, j), k));
  }

  lemma UnshiftIsUndone(y: nat)
    requires y < Pow2(BITS)
    ensures Unshifted(y) < Pow2(BITS) && Shifted(Unshifted(y)) == y
  {
    UnshiftFits(y);
    LeftsCommute(FoldLeft(y, 17), 34, 17);
    Left17Undone(y);
    var a := FoldLeft(FoldLeft(y, 17), 34);
    FoldsFit(y, 17);
    FoldsFit(FoldLeft(y, 17), 34);
    assert FoldLeft(a, 17) == y;
    Right7Returns(a);
    var b := FoldRight(FoldRight(FoldRight(FoldRight(a, 7), 14), 28), 56);
    FoldsFit(a, 7);
    FoldsFit(FoldRight(a, 7), 14);
    FoldsFit(FoldRight(FoldRight(a, 7), 14), 28);
    FoldsFit(FoldRight(FoldRight(FoldRight(a, 7), 14), 28), 56);
    Left13Returns(b);
  }

  lemma Right7Returns(a: nat)
    requires a < Pow2(BITS)
    ensures FoldRight(FoldRight(FoldRight(FoldRight(FoldRight(a, 7), 14), 28), 56), 7) == a
  {
    var x := FoldRight(a, 7);
    RightsCommute(FoldRight(FoldRight(x, 14), 28), 56, 7);
    RightsCommute(FoldRight(x, 14), 28, 7);
    RightsCommute(x, 14, 7);
    Right7Undone(a);
  }

  lemma Left13Returns(b: nat)
    requires b < Pow2(BITS)
    ensures FoldLeft(FoldLeft(FoldLeft(FoldLeft(b, 13), 26), 52), 13) == b
  {
    var x := FoldLeft(b, 13);
    LeftsCommute(FoldLeft(x, 26), 52, 13);
    LeftsCommute(x, 26, 13);
    Left13Undone(b);
  }

  /**
   The step, without its fallback, is a bijection of the 64-bit words that fixes zero and only
   maps zero to zero; so it is a bijection of the non-zero states.
   */
  lemma ShiftIsBijection(x: nat)
    requires x < Pow2(BITS)
    ensures Shifted(x) < Pow2(BITS) && Unshifted(Shifted(x)) == x
    ensures Unshifted(x) < Pow2(BITS) && Shifted(Unshifted(x)) == x
    ensures Shifted(x) == 0 <==> x == 0
  {
    ShiftIsUndone(x);
    UnshiftIsUndone(x);
    OnlyZeroFallsBack(x);
  }

  /** Zero is the only state that shifts to zero: the fallback is taken from it alone. */
  lemma OnlyZeroFallsBack(x: nat)
    requires x < Pow2(BITS)
    ensures Shifted(x) == 0 <==> x == 0
  {
    assert Shifted(0) == 0 by {
      ZeroShifts();
    }
    ShiftIsUndone(x);
    ShiftIsUndone(0);
  }

  lemma {:induction false} ZeroFolds(k: nat)
    ensures ShiftRight(0, k) == 0 && ShiftLeft(0, k) == 0
    ensures FoldRight(0, k) == 0 && FoldLeft(0, k) == 0
  {
    if k > 0 {
      ZeroFolds(k - 1);
    }
    DivModUnique(0, 0, Pow2(BITS));
  }

  lemma ZeroShifts()
    ensures Shifted(0) == 0
  {
    ZeroFolds(13);
    ZeroFolds(7);
    ZeroFolds(17);
  }

  function Repeated(f: nat -> nat, x: nat, n: nat): nat {
    if n == 0 then x else f(Repeated(f, x, n - 1))
  }

  lemma {:induction false} RepeatedFromInside(f: nat -> nat, x: nat, n: nat)
    requires n > 0
    ensures Repeated(f, x, n) == Repeated(f, f(x), n - 1)
  {
    if n > 1 {
      RepeatedFromInside(f, x, n - 1);
    }
  }

  ghost predicate TakesBack(g: nat -> nat, f: nat -> nat, top: nat) {
    forall x: nat | 0 < x < top :: 0 < f(x) < top && g(f(x)) == x
  }

  lemma {:induction false} RunTakenBack(g: nat -> nat, f: nat -> nat, top: nat, x: nat, n: nat)
    requires TakesBack(g, f, top) && 0 < x < top
    ensures 0 < Repeated(f, x, n) < top
    ensures Repeated(g, Repeated(f, x, n), n) == x
  {
    if n > 0 {
      RunTakenBack(g, f, top, x, n - 1);
      var y := Repeated(f, x, n - 1);
      assert g(f(y)) == y;
      RepeatedFromInside(g, f(y), n);
    }
  }

  /** A draw from a non-zero state does not fall back, ends in a non-zero word, and is undone by Unshifted. */
  lemma DrawIsUndone(x: nat)
    requires 0 < x < Pow2(BITS)
    ensures Next(x) == Shifted(x) && 0 < Next(x) < Pow2(BITS)
    ensures Unshifted(Next(x)) == x
  {
    OnlyZeroFallsBack(x);
    ShiftIsUndone(x);
  }

  /**
   From a non-zero seed every state ever drawn is a non-zero word reached without the fallback, and
   n draws are taken back to the seed by n inverse steps, so the n-th draw differs for
   different seeds.
   */
  lemma DrawsAreReversible(seed: nat, n: nat)
    requires 0 < seed < Pow2(BITS)
    ensures 0 < Repeated(Next, seed, n) < Pow2(BITS)
    ensures Repeated(Next, seed, n) == Repeated(Shifted, seed, n)
    ensures Repeated(Unshifted, Repeated(Next, seed, n), n) == seed
  {
    NextTakenBack();
    RunTakenBack(Unshifted, Next, Pow2(BITS), seed, n);
    RunsAgree(Unshifted, Next, Shifted, Pow2(BITS), seed, n);
  }

  lemma NextTakenBack()
    ensures TakesBack(Unshifted, Next, Pow2(BITS)) && Agree(Next, Shifted, Pow2(BITS))
  {
    forall x: nat | 0 < x < Pow2(BITS)
      ensures 0 < Next(x) < Pow2(BITS) && Unshifted(Next(x)) == x && Next(x) == Shifted(x)
    {
      DrawIsUndone(x);
    }
  }

  ghost predicate Agree(f: nat -> nat, h: nat -> nat, top: nat) {
    forall x: nat | 0 < x < top :: f(x) == h(x)
  }

  lemma {:induction false} RunsAgree(g: nat -> nat, f: nat -> nat, h: nat -> nat, top: nat, x: nat, n: nat)
    requires TakesBack(g, f, top) && Agree(f, h, top) && 0 < x < top
    ensures Repeated(f, x, n) == Repeated(h, x, n)
  {
    if n > 0 {
      RunsAgree(g, f, h, top, x, n - 1);
      RunTakenBack(g, f, top, x, n - 1);
    }
  }
}
