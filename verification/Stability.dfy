/** The median, the median absolute deviation and the stability workload built on them. */
module Stability {
  import opened Models
  import opened ByteStrings
  import opened Control
  import opened IntegerHashing

  predicate Sorted(s: seq<real>) {
    forall i, j :: 0 <= i < j < |s| ==> s[i] <= s[j]
  }

  lemma SortedCons(x: real, s: seq<real>)
    requires Sorted(s) && forall y :: y in s ==> x <= y
    ensures Sorted([x] + s)
  {
    forall i | 0 <= i < |s|
      ensures x <= s[i]
    {
      assert s[i] in s;
    }
  }

  function Insert(x: real, s: seq<real>): (r: seq<real>)
    requires Sorted(s)
    ensures multiset(r) == multiset(s) + multiset{x}
    ensures |r| == |s| + 1 && (forall y :: y in r ==> y == x || y in s)
    ensures Sorted(r)
  {
    if s == [] then [x]
    else if x <= s[0] then SortedCons(x, s); [x] + s
    else
      assert s == [s[0]] + s[1..];
      assert forall y :: y in s[1..] ==> s[0] <= y;
      var rest := Insert(x, s[1..]);
      SortedCons(s[0], rest);
      [s[0]] + rest
  }

  function Sort(s: seq<real>): (r: seq<real>)
    ensures Sorted(r) && multiset(r) == multiset(s) && |r| == |s|
  {
    if s == [] then []
    else
      assert s == [s[0]] + s[1..];
      Insert(s[0], Sort(s[1..]))
  }

  /** The middle value, or the mean of the two middle values. */
  function Median(s: seq<real>): real
    requires s != []
  {
    var t, n := Sort(s), |s|;
    if n % 2 == 1 then t[n / 2] else (t[n / 2 - 1] + t[n / 2]) / 2.0
  }

  function Distance(x: real, m: real): (d: real)
    ensures d >= 0.0 && (d == x - m || d == m - x)
  {
    if x < m then m - x else x - m
  }

  function Deviations(s: seq<real>, m: real): seq<real> {
    seq(|s|, i requires 0 <= i < |s| => Distance(s[i], m))
  }

  /** Median absolute deviation from the median. */
  function Mad(s: seq<real>): real
    requires s != []
  {
    Median(Deviations(s, Median(s)))
  }

  // ---- What they mean ----

  lemma HeadAndTail(s: seq<real>)
    requires s != []
    ensures multiset(s) == multiset(s[1..]) + multiset{s[0]}
  {
    assert s == [s[0]] + s[1..];
  }

  lemma SmallestFirst(a: seq<real>, b: seq<real>)
    requires a != [] && Sorted(a) && Sorted(b) && multiset(a) == multiset(b)
    ensures |a| == |b| && b[0] <= a[0]
  {
    assert |multiset(a)| == |a| && |multiset(b)| == |b|;
    assert a[0] in multiset(b);
    var i :| 0 <= i < |b| && b[i] == a[0];
  }

  /** There is only one sorted arrangement. */
  lemma {:induction false} SortedUnique(a: seq<real>, b: seq<real>)
    requires Sorted(a) && Sorted(b) && multiset(a) == multiset(b)
    ensures a == b
  {
    if a == [] {
      assert |multiset(b)| == 0;
    } else {
      SmallestFirst(a, b);
      SmallestFirst(b, a);
      HeadAndTail(a);
      HeadAndTail(b);
      MultisetCancel(multiset(a[1..]), multiset(b[1..]), a[0]);
      SortedUnique(a[1..], b[1..]);
      assert a == [a[0]] + a[1..] && b == [b[0]] + b[1..];
    }
  }

  /** In any sorted arrangement the median is the mean of the two middle values, which are one and the
      same when their number is odd. */
  lemma MedianIsMiddle(s: seq<real>, t: seq<real>)
    requires s != [] && Sorted(t) && multiset(t) == multiset(s)
    ensures |t| == |s| && Median(s) == (t[(|s| - 1) / 2] + t[|s| / 2]) / 2.0
  {
    SortedUnique(t, Sort(s));
  }

  /** The deviation is the median of the distances from the median. */
  lemma MadIsMedianDistance(s: seq<real>, distances: seq<real>)
    requires s != [] && |distances| == |s|
    requires forall i :: 0 <= i < |s| ==>
               distances[i] == if s[i] >= Median(s) then s[i] - Median(s) else Median(s) - s[i]
    ensures Mad(s) == Median(distances)
  {
    hide Median;
    assert distances == Deviations(s, Median(s));
  }

  /** The variability is the deviation in percent of a positive median. */
  lemma VariabilityIsPercentage(durations: seq<real>)
    requires durations != []
    ensures var m, v := Median(durations), Variability(durations);
            if m > 0.0 then v.Some? && v.value * m == 100.0 * Mad(durations) else v.None?
  {
    hide Median, Mad;
    var m := Median(durations);
    if m > 0.0 {
      var x := 100.0 * Mad(durations);
      assert x / m * m == x;
    }
  }

  // ---- Counting ----

  function Count(s: seq<real>, lo: real, hi: real): (n: nat)
    ensures n <= |s|
  {
    if s == [] then 0 else (if lo <= s[0] <= hi then 1 else 0) + Count(s[1..], lo, hi)
  }

  lemma {:induction false} CountRemove(s: seq<real>, lo: real, hi: real, k: nat)
    requires k < |s|
    ensures Count(s, lo, hi) == Count(s[..k] + s[k + 1..], lo, hi) + if lo <= s[k] <= hi then 1 else 0
  {
    if k == 0 {
      assert s[..k] + s[k + 1..] == s[1..];
    } else {
      var t := s[..k] + s[k + 1..];
      assert t[0] == s[0] && t[1..] == s[1..][..k - 1] + s[1..][k..];
      CountRemove(s[1..], lo, hi, k - 1);
    }
  }

  lemma MultisetRemove(s: seq<real>, k: nat)
    requires k < |s|
    ensures multiset(s) == multiset(s[..k] + s[k + 1..]) + multiset{s[k]}
  {
    assert s == s[..k] + ([s[k]] + s[k + 1..]);
  }

  lemma MultisetCancel(a: multiset<real>, b: multiset<real>, x: real)
    requires a + multiset{x} == b + multiset{x}
    ensures a == b
  {
    assert a == (a + multiset{x}) - multiset{x};
    assert b == (b + multiset{x}) - multiset{x};
  }

  /** Counting depends on the values, not on their order. */
  lemma {:induction false} CountPermutation(a: seq<real>, b: seq<real>, lo: real, hi: real)
    requires multiset(a) == multiset(b)
    ensures Count(a, lo, hi) == Count(b, lo, hi)
  {
    if a == [] {
      assert |multiset(b)| == 0;
    } else {
      assert a == [a[0]] + a[1..];
      assert a[0] in multiset(b);
      var k :| 0 <= k < |b| && b[k] == a[0];
      MultisetRemove(b, k);
      MultisetRemove(a, 0);
      assert a[..0] + a[0 + 1..] == a[1..];
      MultisetCancel(multiset(b[..k] + b[k + 1..]), multiset(a[1..]), a[0]);
      assert multiset(b[..k] + b[k + 1..]) == multiset(a[1..]);
      CountPermutation(a[1..], b[..k] + b[k + 1..], lo, hi);
      CountRemove(b, lo, hi, k);
    }
  }

  lemma {:induction false} CountSuffix(s: seq<real>, lo: real, hi: real, k: nat)
    requires k <= |s| && forall i :: 0 <= i < k ==> !(lo <= s[i] <= hi)
    ensures Count(s, lo, hi) <= |s| - k
  {
    if k > 0 {
      CountSuffix(s[1..], lo, hi, k - 1);
    }
  }

  lemma {:induction false} CountPrefix(s: seq<real>, lo: real, hi: real, k: nat)
    requires k <= |s| && forall i :: k <= i < |s| ==> !(lo <= s[i] <= hi)
    ensures Count(s, lo, hi) <= k
  {
    if s != [] && k > 0 {
      CountPrefix(s[1..], lo, hi, k - 1);
    } else if s != [] {
      CountPrefix(s[1..], lo, hi, 0);
    }
  }

  /** In a sorted list most of whose values lie in [lo, hi], a position that has at least half of
      the list on either side lies there too. */
  lemma MiddleIsInside(t: seq<real>, lo: real, hi: real, k: nat)
    requires Sorted(t) && k < |t|
    requires Count(t, lo, hi) > |t| - (k + 1) && Count(t, lo, hi) > k
    ensures lo <= t[k] <= hi
  {
    if t[k] < lo {
      CountSuffix(t, lo, hi, k + 1);
    } else if hi < t[k] {
      CountPrefix(t, lo, hi, k);
    }
  }

  /** If more than half of the values lie in an interval, so does the median, whatever the others are. */
  lemma MedianIsRobust(s: seq<real>, lo: real, hi: real)
    requires s != [] && 2 * Count(s, lo, hi) > |s|
    ensures lo <= Median(s) <= hi
  {
    var t, n := Sort(s), |s|;
    CountPermutation(s, t, lo, hi);
    MiddleIsInside(t, lo, hi, n / 2);
    if n % 2 == 0 {
      MiddleIsInside(t, lo, hi, n / 2 - 1);
    }
  }

  lemma {:induction false} CloseValuesHaveSmallDeviations(s: seq<real>, m: real, lo: real, hi: real)
    requires lo <= m <= hi
    ensures Count(Deviations(s, m), 0.0, hi - lo) >= Count(s, lo, hi)
  {
    if s != [] {
      CloseValuesHaveSmallDeviations(s[1..], m, lo, hi);
      assert Deviations(s, m)[1..] == Deviations(s[1..], m);
    }
  }

  lemma DeviationsLength(s: seq<real>, m: real)
    ensures |Deviations(s, m)| == |s|
  {
  }

  /** ... and the median absolute deviation is at most the width of the interval. */
  lemma MadIsRobust(s: seq<real>, lo: real, hi: real)
    requires s != [] && 2 * Count(s, lo, hi) > |s|
    ensures 0.0 <= Mad(s) <= hi - lo
  {
    hide Median, Count, Deviations;
    MedianIsRobust(s, lo, hi);
    assert |Deviations(s, Median(s))| == |s| by { DeviationsLength(s, Median(s)); }
    CloseValuesHaveSmallDeviations(s, Median(s), lo, hi);
    MedianIsRobust(Deviations(s, Median(s)), 0.0, hi - lo);
  }

  // ---- Scaling ----

  function Product(k: real, x: real): real {
    k * x
  }

  function Scaled(s: seq<real>, k: real): (r: seq<real>)
    ensures |r| == |s|
  {
    seq(|s|, i requires 0 <= i < |s| => Product(k, s[i]))
  }

  lemma ScaleOrder(k: real, x: real, y: real)
    requires k > 0.0
    ensures x <= y <==> Product(k, x) <= Product(k, y)
  {
    if x <= y {
      assert k * (y - x) >= 0.0;
    } else {
      assert k * (x - y) > 0.0;
    }
  }

  lemma ScaledCons(x: real, s: seq<real>, k: real)
    ensures Scaled([x] + s, k) == [Product(k, x)] + Scaled(s, k)
  {
    hide Product;
  }

  lemma ScaledSorted(s: seq<real>, k: real)
    requires k > 0.0 && Sorted(s)
    ensures Sorted(Scaled(s, k))
  {
    hide Product;
    forall i, j | 0 <= i < j < |s|
      ensures Scaled(s, k)[i] <= Scaled(s, k)[j]
    {
      ScaleOrder(k, s[i], s[j]);
    }
  }

  lemma {:induction false} InsertScaled(x: real, s: seq<real>, k: real)
    requires k > 0.0 && Sorted(s)
    ensures Sorted(Scaled(s, k))
    ensures Insert(Product(k, x), Scaled(s, k)) == Scaled(Insert(x, s), k)
  {
    hide Product, Scaled;
    ScaledSorted(s, k);
    if s == [] {
      ScaledCons(x, [], k);
      assert [x] + [] == [x];
      assert |Scaled([], k)| == 0;
    } else {
      var rest := s[1..];
      assert s == [s[0]] + rest;
      ScaledCons(s[0], rest, k);
      ScaleOrder(k, x, s[0]);
      ScaledCons(x, s, k);
      InsertScaled(x, rest, k);
      ScaledCons(s[0], Insert(x, rest), k);
      assert Scaled(s, k)[1..] == Scaled(rest, k);
    }
  }

  lemma {:induction false} SortScaled(s: seq<real>, k: real)
    requires k > 0.0
    ensures Sort(Scaled(s, k)) == Scaled(Sort(s), k)
  {
    hide Product, Scaled, Sorted, Insert;
    if s == [] {
      assert |Scaled(s, k)| == 0;
      assert |Scaled(Sort(s), k)| == 0;
    } else {
      var rest := s[1..];
      assert s == [s[0]] + rest;
      ScaledCons(s[0], rest, k);
      assert Scaled(s, k)[1..] == Scaled(rest, k);
      SortScaled(rest, k);
      InsertScaled(s[0], Sort(rest), k);
    }
  }

  lemma ScaledAt(s: seq<real>, k: real, i: nat)
    requires i < |s|
    ensures Scaled(s, k)[i] == Product(k, s[i])
  {
  }

  lemma HalfSum(k: real, x: real, y: real)
    ensures (Product(k, x) + Product(k, y)) / 2.0 == Product(k, (x + y) / 2.0)
  {
  }

  lemma MedianScaled(s: seq<real>, k: real)
    requires k > 0.0 && s != []
    ensures Median(Scaled(s, k)) == Product(k, Median(s))
  {
    hide Product, Scaled, Sort, Sorted;
    SortScaled(s, k);
    var t, n := Sort(s), |s|;
    ScaledAt(t, k, n / 2);
    if n % 2 == 0 {
      ScaledAt(t, k, n / 2 - 1);
      HalfSum(k, t[n / 2 - 1], t[n / 2]);
    }
  }

  lemma DistanceScaled(k: real, x: real, m: real)
    requires k > 0.0
    ensures Distance(Product(k, x), Product(k, m)) == Product(k, Distance(x, m))
  {
    ScaleOrder(k, m, x);
    ScaleOrder(k, x, m);
  }

  lemma DeviationsScaled(s: seq<real>, m: real, k: real)
    requires k > 0.0
    ensures Deviations(Scaled(s, k), Product(k, m)) == Scaled(Deviations(s, m), k)
  {
    hide Product, Distance;
    forall i | 0 <= i < |s|
      ensures Distance(Product(k, s[i]), Product(k, m)) == Product(k, Distance(s[i], m))
    {
      DistanceScaled(k, s[i], m);
    }
  }

  /** A rate is unavailable unless the duration is positive. */
  function RatePerSecond(amount: real, duration: real): Option<real> {
    if duration <= 0.0 then None else Some(amount / duration)
  }

  function Variability(durations: seq<real>): Option<real>
    requires durations != []
  {
    RatePerSecond(100.0 * Mad(durations), Median(durations))
  }

  lemma RatioScaled(k: real, x: real, y: real)
    requires k > 0.0
    ensures Product(k, y) <= 0.0 <==> y <= 0.0
    ensures y > 0.0 ==> (100.0 * Product(k, x)) / Product(k, y) == (100.0 * x) / y
  {
    ScaleOrder(k, y, 0.0);
    if y > 0.0 {
      var q := (100.0 * x) / y;
      assert q * y == 100.0 * x;
      assert q * (k * y) == k * (q * y) == 100.0 * (k * x);
      Quotient(100.0 * (k * x), k * y, q);
    }
  }

  lemma Quotient(p: real, d: real, q: real)
    requires d > 0.0 && q * d == p
    ensures p / d == q
  {
  }

  /** Measuring in other time units changes neither the availability nor the value of the variability. */
  lemma VariabilityIsScaleFree(durations: seq<real>, k: real)
    requires k > 0.0 && durations != []
    ensures Variability(Scaled(durations, k)) == Variability(durations)
  {
    hide Product, Scaled, Median, Deviations;
    var m := Median(durations);
    MedianScaled(durations, k);
    DeviationsScaled(durations, m, k);
    DeviationsLength(durations, m);
    MedianScaled(Deviations(durations, m), k);
    RatioScaled(k, Mad(durations), m);
  }

  /** For durations read from a clock, variability is unavailable exactly when the median is zero. */
  lemma VariabilityUnavailableIffMedianZero(durations: seq<real>)
    requires durations != [] && forall i :: 0 <= i < |durations| ==> durations[i] >= 0.0
    ensures Variability(durations).None? <==> Median(durations) == 0.0
  {
    var t := Sort(durations);
    forall i | 0 <= i < |t|
      ensures t[i] >= 0.0
    {
      assert t[i] in multiset(t);
      assert t[i] in durations;
    }
  }

  // ---- The workload ----

  /** Why a repetition has no result: it was cancelled or timed out, or the checkpoint passed and no
      time was left, which the nested workload refuses. */
  datatype Stop = Interrupted(why: Interrupt) | NoTimeLeft

  /** What one repetition of the integer workload observed. */
  datatype Repetition = Repetition(checksum: Bytes, duration: real)

  datatype StabilityResult = StabilityResult(
    correct: bool,
    checksum: Bytes,
    medianDuration: real,
    mad: real,
    variability: Option<real>)

  /** What the first repetition is compared with. */
  function FirstExpected(sha256: Bytes -> Bytes, c: Config): Bytes
    requires ValidConfig(c)
  {
    if c.expected.Some? then c.expected.value else Reference(sha256, c)
  }

  function Durations(observe: nat -> Result<Repetition, Stop>, n: nat): (durations: seq<real>)
    requires forall i: nat :: i < n ==> observe(i).Ok?
    ensures |durations| == n
  {
    if n == 0 then [] else Durations(observe, n - 1) + [observe(n - 1).value.duration]
  }

  predicate AllAgree(observe: nat -> Result<Repetition, Stop>, n: nat, checksum: Bytes)
    requires forall i: nat :: i < n ==> observe(i).Ok?
  {
    forall i: nat :: i < n ==> observe(i).value.checksum == checksum
  }

  /** Each repetition is checked against the checksum of the one before it; the verdict is that all of
      them agree with each other and with what the first one was compared with. */
  method RunStabilityWorkload(sha256: Bytes -> Bytes, repetitions: nat, c: Config, observe: nat -> Result<Repetition, Stop>)
    returns (r: Result<StabilityResult, Stop>)
    requires 3 <= repetitions <= 20 && ValidConfig(c)
    ensures r.Ok? <==> forall i: nat :: i < repetitions ==> observe(i).Ok?
    ensures r.Ok? ==>
              var durations := Durations(observe, repetitions);
              && (r.value.correct <==> AllAgree(observe, repetitions, FirstExpected(sha256, c)))
              && r.value.checksum == observe(repetitions - 1).value.checksum
              && r.value.medianDuration == Median(durations) && r.value.mad == Mad(durations)
              && r.value.variability == Variability(durations)
  {
    hide Median, Deviations, Reference;
    var durations: seq<real> := [];
    var expected, correct := c.expected, true;
    for i: nat := 0 to repetitions
      invariant forall j: nat :: j < i ==> observe(j).Ok?
      invariant durations == Durations(observe, i)
      invariant i == 0 ==> expected == c.expected
      invariant i > 0 ==> expected == Some(observe(i - 1).value.checksum)
      invariant correct <==> AllAgree(observe, i, FirstExpected(sha256, c))
    {
      var repetition := observe(i);
      if repetition.Err? {
        return Err(repetition.error);
      }
      var reference := if expected.Some? then expected.value else Reference(sha256, c);
      assert correct ==> reference == FirstExpected(sha256, c);
      correct := correct && repetition.value.checksum == reference;
      expected := Some(repetition.value.checksum);
      durations := durations + [repetition.value.duration];
    }
    var median := Median(durations);
    DeviationsLength(durations, median);
    var mad := Median(Deviations(durations, median));
    r := Ok(StabilityResult(correct, expected.value, median, mad, RatePerSecond(100.0 * mad, median)));
  }
}
