/** How a worker of the lock-free benchmark spaces its writes among its reads. */
module WritePacing {
  import opened Words

  /** The period that means "never write". */
  const NEVER: nat := 0xFFFF_FFFF

  const UINT32: nat := 0x1_0000_0000

  /** The configured share of writes, and the two globals derived from it. */
  class Settings {
    var percent: nat
    var shift: nat
    var mask: nat
    var period: nat

    constructor (percent: nat, shift: nat)
      ensures this.percent == percent && this.shift == shift
    {
      this.percent, this.shift, mask, period := percent, shift, 5, 100;
    }

    /** bench_refresh_write_mask */
    method Refresh()
      modifies this
      ensures shift == old(shift)
      ensures percent == Refreshed(old(percent), old(shift)) && mask == percent
      ensures period == if mask == 0 then NEVER else 100
    {
      if percent == 0 {
        if shift >= 31 {
          percent := 0;
        } else {
          var denom := Pow2(shift);
          percent := if denom >= 100 then 1 else 100 / denom;
          if percent == 0 {
            percent := 1;
          }
        }
      }
      if percent > 100 {
        percent := 100;
      }
      mask := percent;
      period := if percent == 0 then NEVER else 100;
    }
  }

  function Refreshed(percent: nat, shift: nat): nat {
    if percent > 100 then 100
    else if percent > 0 then percent
    else if shift >= 31 then 0
    else if Pow2(shift) >= 100 then 1
    else 100 / Pow2(shift)
  }

  /**
   The refreshed share is a percentage, a second refresh changes nothing, and writing is switched
   off exactly by a zero share together with a shift of at least 31; any smaller shift turns a
   zero share into at least one percent.
   */
  lemma RefreshSettles(percent: nat, shift: nat)
    ensures Refreshed(percent, shift) <= 100
    ensures Refreshed(Refreshed(percent, shift), shift) == Refreshed(percent, shift)
    ensures Refreshed(percent, shift) == 0 <==> percent == 0 && shift >= 31
  {
    if percent == 0 && shift < 31 && Pow2(shift) < 100 {
      Quotient(100, Pow2(shift));
    }
  }

  lemma Quotient(x: nat, n: nat)
    requires 0 < n <= x
    ensures 1 <= x / n <= x
  {
    var q := x / n;
    assert x == n * q + x % n;
    if q > 0 {
      TimesStep(q, 0, n);
    }
  }

  /** The environment accepts shifts up to 30 only: through it, a share of zero never means "no writes". */
  lemma ZeroShareStillWrites(shift: nat)
    requires shift <= 30
    ensures 1 <= Refreshed(0, shift) <= 100
  {
    RefreshSettles(0, shift);
  }

  class Worker {
    var accumulator: nat

    constructor (start: nat)
      ensures accumulator == start
    {
      accumulator := start;
    }

    /** bench_consume_ops */
    method ConsumeOps(ops: nat, mask: nat, period: nat) returns (trigger: bool)
      requires accumulator < UINT32 && ops < UINT32 && mask <= 100
      requires period == NEVER || period == 100
      modifies this
      ensures period == NEVER || mask == 0 ==> accumulator == 0 && !trigger
      ensures period != NEVER && mask > 0 ==>
                && trigger == (old(accumulator) + ops * mask >= 100)
                && accumulator == (old(accumulator) + ops * mask) % 100
    {
      if period == NEVER || mask == 0 {
        accumulator := 0;
        return false;
      }
      TimesNat(ops, mask);
      var sum: nat := accumulator + ops * mask;
      ghost var start := sum;
      trigger := false;
      while sum >= period
        invariant sum % 100 == start % 100
        invariant trigger == (sum < start) && sum <= start
      {
        sum := sum - period;
        trigger := true;
      }
      accumulator := sum;
    }
  }

  lemma TimesNat(x: nat, y: nat)
    ensures x * y >= 0
  {
  }

  /** The accumulator after n one-op calls at a share of p percent. */
  function Accumulated(a: nat, p: nat, n: nat): nat {
    if n == 0 then a else (Accumulated(a, p, n - 1) + p) % 100
  }

  /** The number of those calls that asked for a write. */
  function Writes(a: nat, p: nat, n: nat): nat {
    if n == 0 then 0
    else Writes(a, p, n - 1) + if Accumulated(a, p, n - 1) + p >= 100 then 1 else 0
  }

  /** From an accumulator below 100, n calls ask for exactly the whole percentages passed. */
  lemma {:induction false} PacingIsExact(a: nat, p: nat, n: nat)
    requires a < 100 && 1 <= p <= 100
    ensures Writes(a, p, n) == (a + n * p) / 100
    ensures Accumulated(a, p, n) == (a + n * p) % 100
  {
    if n > 0 {
      PacingIsExact(a, p, n - 1);
      NextHundred(a + (n - 1) * p, p);
      assert a + n * p == a + (n - 1) * p + p;
    }
  }

  lemma NextHundred(t: int, p: nat)
    requires p <= 100
    ensures (t + p) / 100 == t / 100 + if t % 100 + p >= 100 then 1 else 0
    ensures (t + p) % 100 == (t % 100 + p) % 100
  {
  }

  /** One call brings any 32-bit start below 100, and the pacing is exact from then on. */
  lemma PacingFromAnyStart(a: nat, p: nat, n: nat)
    requires 1 <= p <= 100 && n > 0
    ensures Accumulated(a, p, n) < 100
    ensures Writes(a, p, n) == (if a + p >= 100 then 1 else 0) + ((a + p) % 100 + (n - 1) * p) / 100
  {
    FirstCall(a, p, n);
    PacingIsExact((a + p) % 100, p, n - 1);
  }

  lemma {:induction false} FirstCall(a: nat, p: nat, n: nat)
    requires n > 0
    ensures Accumulated(a, p, n) == Accumulated((a + p) % 100, p, n - 1)
    ensures Writes(a, p, n) == (if a + p >= 100 then 1 else 0) + Writes((a + p) % 100, p, n - 1)
  {
    if n > 1 {
      FirstCall(a, p, n - 1);
    }
  }

  /** In any window of n calls after the first, writes differ from p percent of n by less than one. */
  lemma WindowsAreEven(a: nat, p: nat, before: nat, n: nat)
    requires 1 <= p <= 100 && before > 0
    ensures -100 < 100 * (Writes(a, p, before + n) - Writes(a, p, before)) - n * p < 100
  {
    PacingFromAnyStart(a, p, before);
    Continued(a, p, before, n);
    PacingIsExact(Accumulated(a, p, before), p, n);
  }

  lemma {:induction false} Continued(a: nat, p: nat, before: nat, n: nat)
    ensures Accumulated(a, p, before + n) == Accumulated(Accumulated(a, p, before), p, n)
    ensures Writes(a, p, before + n) == Writes(a, p, before) + Writes(Accumulated(a, p, before), p, n)
  {
    if n > 0 {
      Continued(a, p, before, n - 1);
      assert before + n - 1 == before + (n - 1);
    }
  }
}
