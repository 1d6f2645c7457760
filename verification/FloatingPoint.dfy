/** Compensated summation of the telescoping series 1/(1*2) + 1/(2*3) + ..., under any rounding that
    meets the standard model, and its distance from the closed form n/(n+1). */
module FloatingPoint {
  import opened Models
  import opened Control

  /** 2^53: one over the unit roundoff of binary64. */
  const SCALE: real := 9007199254740992.0

  function Abs(x: real): (r: real)
    ensures r >= 0.0 && (r == x || r == -x)
  {
    if x < 0.0 then -x else x
  }

  /** Conversion of an integer to floating point. */
  function FromInt(fl: real -> real, n: int): real {
    fl(n as real)
  }

  /** Rounding to nearest without overflow or underflow (section 4.3.1 of IEEE 754-2019): the
      relative error is at most 2^-53, and integers up to 2^53 are exact. */
  ghost predicate Rounds(fl: real -> real) {
    && (forall x: real :: Abs(fl(x) - x) * SCALE <= Abs(x))
    && (forall n: int :: -0x20_0000_0000_0000 <= n <= 0x20_0000_0000_0000 ==> FromInt(fl, n) == n as real)
  }

  /** One iteration of the loop: the new total and the new compensation. */
  function Iterate(fl: real -> real, index: nat, total: real, compensation: real): (real, real)
    requires index >= 1 && fl((index * (index + 1)) as real) != 0.0
  {
    var term := fl(1.0 / fl((index * (index + 1)) as real));
    var adjusted := fl(term - compensation);
    var updated := fl(total + adjusted);
    (updated, fl(fl(updated - total) - adjusted))
  }

  /** The sum of the first `k` exact terms. */
  function ClosedForm(k: nat): real {
    k as real / (k + 1) as real
  }

  lemma Telescope(k: nat)
    requires k >= 1
    ensures ClosedForm(k) == ClosedForm(k - 1) + 1.0 / (k * (k + 1)) as real
    ensures 0.0 < 1.0 / (k * (k + 1)) as real <= 0.5
    ensures 0.0 <= ClosedForm(k) <= 1.0
  {
    var r, s := k as real, (k + 1) as real;
    assert (k * (k + 1)) as real == r * s by { ProductCast(k, k + 1); }
    Fractions(r);
  }

  lemma ProductCast(a: nat, b: nat)
    ensures (a * b) as real == a as real * b as real
  {
  }

  lemma Fractions(r: real)
    requires r >= 1.0
    ensures r / (r + 1.0) == (r - 1.0) / r + 1.0 / (r * (r + 1.0))
    ensures 0.0 < 1.0 / (r * (r + 1.0)) <= 0.5
    ensures 0.0 <= r / (r + 1.0) <= 1.0
  {
    var s, p := r + 1.0, r * (r + 1.0);
    assert p >= 2.0;
    assert (r - 1.0) / r == ((r - 1.0) * s) / p;
    assert r / s == (r * r) / p;
  }

  predicate Within(x: real, bound: real) {
    -bound <= x <= bound
  }

  /** A rounded value, given a bound on the exact one. */
  lemma RoundedWithin(fl: real -> real, x: real, bound: real)
    requires Rounds(fl) && Within(x, bound)
    ensures Within((fl(x) - x) * SCALE, bound)
  {
    assert Abs(fl(x) - x) * SCALE <= Abs(x);
  }

  /** The five roundings of one iteration: `w` is the unit roundoff. */
  lemma IterationErrors(fl: real -> real, w: real, a: real, t: real, s: real, c: real)
    requires Rounds(fl) && w * SCALE == 1.0
    requires 0.0 < a <= 0.5 && 0.0 <= t && t + a <= 1.0
    requires Within(c, 5.0 * w) && Within(s - c - t, 5.0 * w)
    ensures var x := fl(a); var y := fl(x - c); var u := fl(s + y); var d := fl(u - s); var e := fl(d - y);
            && Within((x - a) * SCALE, a)
            && Within((y - (x - c)) * SCALE, a + 6.0 * w)
            && Within((u - (s + y)) * SCALE, 2.0)
            && Within((d - (u - s)) * SCALE, a + 9.0 * w)
            && Within((e - (d - y)) * SCALE, 3.0 * w)
            && Within(e, 5.0 * w)
  {
    var x := fl(a);
    RoundedWithin(fl, a, a);
    var y := fl(x - c);
    RoundedWithin(fl, x - c, a + 6.0 * w);
    var u := fl(s + y);
    RoundedWithin(fl, s + y, 2.0);
    var d := fl(u - s);
    RoundedWithin(fl, u - s, a + 9.0 * w);
    RoundedWithin(fl, d - y, 3.0 * w);
  }

  /** The errors of one iteration add at most 3 a + 18 w to the scaled error of the running sum. */
  lemma ErrorsAdd(w: real, a: real, t: real, bound: real, s: real, c: real, x: real, y: real, u: real, d: real, e: real)
    requires Within((s - c - t) * SCALE, bound)
    requires Within((x - a) * SCALE, a)
    requires Within((y - (x - c)) * SCALE, a + 6.0 * w)
    requires Within((d - (u - s)) * SCALE, a + 9.0 * w)
    requires Within((e - (d - y)) * SCALE, 3.0 * w)
    ensures Within((u - e - (t + a)) * SCALE, bound + 3.0 * a + 18.0 * w)
  {
    assert u - e - (t + a) == (s - c - t) + (x - a) + (y - (x - c)) - (d - (u - s)) - (e - (d - y));
  }

  /** The error of total minus compensation against the exact partial sum stays below
      3 T + 18 k w in units of the roundoff `w`, and the compensation below 5 w. */
  ghost predicate Tracks(k: nat, w: real, total: real, compensation: real) {
    && Within(compensation, 5.0 * w)
    && Within((total - compensation - ClosedForm(k)) * SCALE, 3.0 * ClosedForm(k) + 18.0 * (k as real * w))
  }

  const MAX_ITERATIONS := 20_000_000

  lemma SmallProduct(k: nat, w: real)
    requires k <= MAX_ITERATIONS && w * SCALE == 1.0
    ensures 0.0 <= k as real * w <= 0.0000001
  {
    assert k as real <= 20000000.0;
    assert k as real * w <= 20000000.0 * w;
  }

  /** The rounded operations of one iteration, from the rounded term on. */
  function Compensate(fl: real -> real, term: real, total: real, compensation: real): (real, real) {
    var adjusted := fl(term - compensation);
    var updated := fl(total + adjusted);
    (updated, fl(fl(updated - total) - adjusted))
  }

  lemma CompensateTracks(fl: real -> real, w: real, a: real, t: real, kw: real, s: real, c: real)
    requires Rounds(fl) && w * SCALE == 1.0
    requires 0.0 < a <= 0.5 && 0.0 <= t && t + a <= 1.0 && 0.0 <= kw <= 0.0000001
    requires Within(c, 5.0 * w)
    requires Within((s - c - t) * SCALE, 3.0 * t + 18.0 * kw)
    ensures var (u, e) := Compensate(fl, fl(a), s, c);
            && Within(e, 5.0 * w)
            && Within((u - e - (t + a)) * SCALE, 3.0 * (t + a) + 18.0 * (kw + w))
  {
    hide Rounds;
    IterationErrors(fl, w, a, t, s, c);
    var x := fl(a);
    var y := fl(x - c);
    var u := fl(s + y);
    var d := fl(u - s);
    ErrorsAdd(w, a, t, 3.0 * t + 18.0 * kw, s, c, x, y, u, d, fl(d - y));
  }

  lemma ClosedFormRange(k: nat)
    ensures 0.0 <= ClosedForm(k) <= 1.0
  {
    if k > 0 {
      Telescope(k);
    }
  }

  /** The product of consecutive integers is exact, so one iteration is the rounded reciprocal
      followed by the compensated addition. */
  lemma IterateIsCompensate(fl: real -> real, index: nat, total: real, compensation: real)
    requires Rounds(fl) && 1 <= index <= MAX_ITERATIONS
    ensures fl((index * (index + 1)) as real) == (index * (index + 1)) as real != 0.0
    ensures Iterate(fl, index, total, compensation) ==
            Compensate(fl, fl(1.0 / (index * (index + 1)) as real), total, compensation)
  {
    hide Rounds;
    RoundedProduct(fl, index);
  }

  lemma RoundedProduct(fl: real -> real, index: nat)
    requires Rounds(fl) && 1 <= index <= MAX_ITERATIONS
    ensures fl((index * (index + 1)) as real) == (index * (index + 1)) as real != 0.0
  {
    ExactProduct(index);
    ExactInteger(fl, index * (index + 1));
    hide Rounds;
  }

  lemma ExactInteger(fl: real -> real, n: nat)
    requires Rounds(fl) && n <= 0x20_0000_0000_0000
    ensures fl(n as real) == n as real
  {
    assert FromInt(fl, n) == n as real;
  }

  /** One iteration keeps the error bound. */
  lemma IterateTracks(fl: real -> real, w: real, index: nat, total: real, compensation: real)
    requires Rounds(fl) && w * SCALE == 1.0
    requires 1 <= index <= MAX_ITERATIONS
    requires Tracks(index - 1, w, total, compensation)
    ensures fl((index * (index + 1)) as real) != 0.0
    ensures var (updated, rest) := Iterate(fl, index, total, compensation);
            Tracks(index, w, updated, rest)
  {
    hide Rounds, Iterate, Compensate, ClosedForm;
    IterateIsCompensate(fl, index, total, compensation);
    Telescope(index);
    ClosedFormRange(index - 1);
    SmallProduct(index - 1, w);
    CompensateTracks(fl, w, 1.0 / (index * (index + 1)) as real, ClosedForm(index - 1), (index - 1) as real * w, total, compensation);
    NextMultiple(index, w);
  }

  lemma NextMultiple(index: nat, w: real)
    requires index >= 1
    ensures (index - 1) as real * w + w == index as real * w
  {
  }

  lemma ExactProduct(index: nat)
    requires index <= MAX_ITERATIONS
    ensures index * (index + 1) <= 0x20_0000_0000_0000
    ensures index >= 1 ==> index * (index + 1) >= 2
  {
    assert index * (index + 1) <= MAX_ITERATIONS * (MAX_ITERATIONS + 1);
  }

  datatype Measurement = Measurement(actual: real, expected: real, absoluteError: real, correct: bool)

  lemma TracksZero(w: real)
    requires w > 0.0
    ensures Tracks(0, w, 0.0, 0.0)
  {
  }

  /** The divisor of term `i` as the machine has it. */
  function Divisor(fl: real -> real, i: nat): real {
    fl((i * (i + 1)) as real)
  }

  /** No divisor of the first `n` terms rounds to zero. */
  ghost predicate Divisible(fl: real -> real, n: nat) {
    forall i: nat :: 1 <= i <= n ==> Divisor(fl, i) != 0.0
  }

  /** The total and the compensation after `n` iterations, from zero. */
  ghost function SumAfter(fl: real -> real, n: nat): (real, real)
    requires Divisible(fl, n)
  {
    if n == 0 then (0.0, 0.0)
    else
      assert Divisor(fl, n) != 0.0;
      var (total, compensation) := SumAfter(fl, n - 1);
      Iterate(fl, n, total, compensation)
  }

  lemma RoundingDivides(fl: real -> real, n: nat)
    requires Rounds(fl) && n <= MAX_ITERATIONS
    ensures Divisible(fl, n)
  {
    hide Rounds;
    forall i: nat | 1 <= i <= n
      ensures Divisor(fl, i) != 0.0
    {
      RoundedProduct(fl, i);
    }
  }

  /** Under a rounding to nearest the compensated sum follows the exact one at every length. */
  lemma {:induction false} SumTracks(fl: real -> real, w: real, n: nat)
    requires Rounds(fl) && w * SCALE == 1.0
    requires n <= MAX_ITERATIONS && Divisible(fl, n)
    ensures Tracks(n, w, SumAfter(fl, n).0, SumAfter(fl, n).1)
  {
    hide Rounds, Tracks, Iterate, Divisible;
    if n == 0 {
      TracksZero(w);
    } else {
      Shorter(fl, n);
      SumTracks(fl, w, n - 1);
      IterateTracks(fl, w, n, SumAfter(fl, n - 1).0, SumAfter(fl, n - 1).1);
    }
  }

  lemma Shorter(fl: real -> real, n: nat)
    requires n > 0 && Divisible(fl, n)
    ensures Divisible(fl, n - 1)
  {
  }

  /** The verdict under a rounding to nearest. */
  lemma VerdictIsSound(fl: real -> real, n: nat)
    requires Rounds(fl) && 1 <= n <= MAX_ITERATIONS && Divisible(fl, n)
    ensures var actual := SumAfter(fl, n).0;
            && Abs(actual - ClosedForm(n)) * SCALE <= 10.0
            && Abs(fl(actual - fl(ClosedForm(n)))) * SCALE <= 12.0
  {
    hide Rounds, Divisible, SumAfter;
    var w := 1.0 / SCALE;
    SumTracks(fl, w, n);
    FinalError(fl, w, n, SumAfter(fl, n).0, SumAfter(fl, n).1);
  }

  /** The workload: a checkpoint on entry, at every 4096th term and at the end, each of which may
      interrupt it. Whatever the arithmetic does, `actual` is the total of the iterations, `expected`
      the rounded n/(n+1), and the verdict compares their rounded difference with the tolerance. Under
      a rounding to nearest the total is within 10 units of roundoff of n/(n+1) and the error within 12,
      so the verdict is positive at any tolerance of at least 12 units, the default of some 9007 among
      them. */
  method RunFloatingPointWorkload(fl: real -> real, iterations: nat, tolerance: real, checkpoint: nat -> Option<Interrupt>)
    returns (r: Result<Measurement, Interrupt>)
    requires 1 <= iterations <= MAX_ITERATIONS && Divisible(fl, iterations)
    ensures r.Ok? <==> checkpoint(0).None? && checkpoint(iterations + 1).None?
                       && forall i :: 1 <= i <= iterations && i % 4096 == 0 ==> checkpoint(i).None?
    ensures r.Err? ==> exists i :: 0 <= i <= iterations + 1 && checkpoint(i) == Some(r.error)
    ensures r.Ok? ==>
              && r.value.actual == SumAfter(fl, iterations).0
              && r.value.expected == fl(iterations as real / (iterations + 1) as real)
              && r.value.absoluteError == Abs(fl(r.value.actual - r.value.expected))
              && (r.value.correct <==> r.value.absoluteError <= tolerance)
    ensures r.Ok? && Rounds(fl) ==>
              && Abs(r.value.actual - ClosedForm(iterations)) * SCALE <= 10.0
              && r.value.absoluteError * SCALE <= 12.0
              && (tolerance * SCALE >= 12.0 ==> r.value.correct)
  {
    hide Rounds, ClosedForm, SumAfter, Divisible;
    var entry := checkpoint(0);
    if entry.Some? {
      return Err(entry.value);
    }
    var total, compensation := 0.0, 0.0;
    Start(fl, iterations);
    var index := 1;
    while index <= iterations
      invariant 1 <= index <= iterations + 1
      invariant Divisible(fl, index - 1) && (total, compensation) == SumAfter(fl, index - 1)
      invariant forall i :: 1 <= i < index && i % 4096 == 0 ==> checkpoint(i).None?
    {
      if index % 4096 == 0 {
        var stop := checkpoint(index);
        if stop.Some? {
          return Err(stop.value);
        }
      }
      NextSum(fl, index, iterations);
      var term := fl(1.0 / fl((index * (index + 1)) as real));
      var adjusted := fl(term - compensation);
      var updated := fl(total + adjusted);
      compensation := fl(fl(updated - total) - adjusted);
      total := updated;
      index := index + 1;
    }
    var stop := checkpoint(iterations + 1);
    if stop.Some? {
      return Err(stop.value);
    }
    var expected := fl(iterations as real / (iterations + 1) as real);
    var absoluteError := Abs(fl(total - expected));
    if Rounds(fl) {
      ClosedFormIs(iterations);
      VerdictIsSound(fl, iterations);
    }
    r := Ok(Measurement(total, expected, absoluteError, absoluteError <= tolerance));
  }

  lemma Start(fl: real -> real, n: nat)
    requires Divisible(fl, n)
    ensures Divisible(fl, 0) && SumAfter(fl, 0) == (0.0, 0.0)
  {
  }

  lemma NextSum(fl: real -> real, n: nat, last: nat)
    requires 1 <= n <= last && Divisible(fl, last) && Divisible(fl, n - 1)
    ensures fl((n * (n + 1)) as real) != 0.0
    ensures Divisible(fl, n)
    ensures var (total, compensation) := SumAfter(fl, n - 1);
            var term := fl(1.0 / fl((n * (n + 1)) as real));
            var adjusted := fl(term - compensation);
            var updated := fl(total + adjusted);
            SumAfter(fl, n) == (updated, fl(fl(updated - total) - adjusted))
  {
    assert Divisor(fl, n) != 0.0;
  }

  lemma ClosedFormIs(n: nat)
    ensures ClosedForm(n) == n as real / (n + 1) as real
  {
  }

  lemma FinalError(fl: real -> real, w: real, n: nat, total: real, compensation: real)
    requires Rounds(fl) && w * SCALE == 1.0
    requires 1 <= n <= MAX_ITERATIONS && Tracks(n, w, total, compensation)
    ensures Abs(fl(total - fl(ClosedForm(n)))) * SCALE <= 12.0
    ensures Abs(total - ClosedForm(n)) * SCALE <= 10.0
  {
    Telescope(n);
    SmallProduct(n, w);
    var t := ClosedForm(n);
    hide ClosedForm, Rounds;
    RoundedWithin(fl, t, 1.0);
    assert Within(total - fl(t), 11.0 * w);
    RoundedWithin(fl, total - fl(t), 11.0 * w);
  }
}
