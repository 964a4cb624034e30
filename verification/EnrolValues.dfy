/** The value of every percentage that an enrolment shows, in terms of the counters. */
module EnrolValues {
  import opened Vocabulary
  import opened AdapterSpec
  import opened EnrolProgress

  /** The share of an enrolment that is done, in percent, in exact arithmetic over the counters. */
  function Done(first: U32, remaining: U32): real {
    (100 * (first + 1 - remaining)) as real / (first + 1) as real
  }

  /** The percentage is the share done, rounded down, up to the error that all the roundings add up to. */
  predicate Reads(u: real, first: U32, remaining: U32, percent: Option<int>) {
    && percent.Some?
    && Done(first, remaining) - 700.0 * u - 1.0 < percent.value as real <= Done(first, remaining) + 700.0 * u
  }

  // ---- Products and quotients ----

  lemma {:induction false} Times(a: real, b: real)
    requires 0.0 <= a && 0.0 <= b
    ensures 0.0 <= a * b
    ensures 0.0 < a && 0.0 < b ==> 0.0 < a * b
  {
  }

  lemma {:induction false} TimesMore(x: real, y: real, n: real)
    requires x < y && 0.0 < n
    ensures x * n < y * n
  {
    Times(y - x, n);
    assert (y - x) * n == y * n - x * n;
  }

  lemma {:induction false} Quotient(a: real, n: real, x: real)
    requires n > 0.0
    ensures a / n == x <==> a == x * n
  {
    var y := a / n;
    assert y * n == a;
    if y > x {
      TimesMore(x, y, n);
    } else if y < x {
      TimesMore(y, x, n);
    }
  }

  lemma {:induction false} ScaledDown(y: real, z: real, e: real)
    requires 0.0 <= y <= 1.0 && -e <= z <= e
    ensures -e <= y * z <= e
  {
    if z >= 0.0 {
      Times(1.0 - y, z);
      Times(y, z);
    } else {
      Times(1.0 - y, -z);
      Times(y, -z);
    }
  }

  lemma {:induction false} FactorAtMost(d: real, b: real, m: real, bound: real)
    requires b > 0.0 && d * b <= m && m <= bound * b
    ensures d <= bound
  {
    assert (d - bound) * b == d * b - bound * b;
    if d > bound {
      Times(d - bound, b);
    }
  }

  /** Numbers near to others have a quotient near to theirs. */
  lemma {:induction false} QuotientsNear(x: real, y: real, b: real, n: real, u: real)
    requires 0.0 <= y <= 1.0 && n >= 1.0 && 0.0 <= u && 3.0 * u <= 1.0
    requires n - u * n <= b <= n + u * n
    requires y * n - u * n <= x * b <= y * n + u * n
    ensures -3.0 * u <= x - y <= 3.0 * u
  {
    var e := u * n;
    Times(1.0 - 3.0 * u, n);
    assert (1.0 - 3.0 * u) * n == n - 3.0 * e;
    Times(u, 3.0 * b - 2.0 * n);
    assert u * (3.0 * b - 2.0 * n) == 3.0 * (u * b) - 2.0 * e;
    ScaledDown(y, n - b, e);
    assert (x - y) * b == x * b - y * n + y * (n - b);
    assert (3.0 * u) * b == 3.0 * (u * b);
    assert (y - x) * b == -((x - y) * b);
    FactorAtMost(x - y, b, 2.0 * e, 3.0 * u);
    FactorAtMost(y - x, b, 2.0 * e, 3.0 * u);
  }

  // ---- One counter value ----

  lemma {:induction false} NearUpTo(y: real, x: real, u: real, bound: real)
    requires Near(y, x, u) && 0.0 <= u && x <= bound && 1.0 <= bound
    ensures x - u * bound <= y <= x + u * bound
  {
    Times(u, bound - (if x > 1.0 then x else 1.0));
  }

  /** The quotient of the rounded counters is near to the exact one. */
  lemma {:induction false} RatioNear(rounding: Rounding, u: real, first: U32, remaining: U32, q: real, exact: real)
    requires rounding.Sound() && rounding.Accurate(u) && 0.0 <= u && 3.0 * u <= 1.0
    requires remaining <= first < MAX_U32
    requires q == rounding.single(remaining as real) / rounding.single((first + 1) as real)
    requires exact == remaining as real / (first + 1) as real
    ensures 0.0 <= q <= 1.0 && -3.0 * u <= q - exact <= 3.0 * u
  {
    var n, r := (first + 1) as real, remaining as real;
    var b, h := rounding.single(n), rounding.single(r);
    BaselineCovers(rounding, first);
    assert Near(b, n, u) && Near(h, r, u);
    assert rounding.single(0.0) <= h <= b;
    NearUpTo(b, n, u, n);
    NearUpTo(h, r, u, n);
    RatioIsNear(h, b, r, n, u);
  }

  lemma {:induction false} RatioIsNear(h: real, b: real, r: real, n: real, u: real)
    requires 0.0 <= h <= b && 1.0 <= b && 0.0 <= r <= n && 1.0 <= n && 0.0 <= u && 3.0 * u <= 1.0
    requires n - u * n <= b <= n + u * n && r - u * n <= h <= r + u * n
    ensures 0.0 <= h / b <= 1.0 && -3.0 * u <= h / b - r / n <= 3.0 * u
  {
    QuotientMonotone(h, b, b);
    QuotientMonotone(r, n, n);
    Quotient(h, b, h / b);
    Quotient(r, n, r / n);
    QuotientsNear(h / b, r / n, b, n, u);
  }

  /** What the four roundings after the division add. */
  lemma {:induction false} RoundedComplement(rounding: Rounding, u: real, q: real) returns (s: real)
    requires rounding.Sound() && rounding.Accurate(u) && 0.0 <= u && 0.0 <= q <= 1.0
    ensures s == rounding.single(rounding.single(rounding.double(1.0 - rounding.single(q))) * 100.0)
    ensures 0.0 <= s <= 100.0
    ensures 100.0 * (1.0 - q) - 400.0 * u <= s <= 100.0 * (1.0 - q) + 400.0 * u
  {
    var q' := rounding.single(q);
    assert Near(q', q, u) && 0.0 <= q' <= 1.0;
    var p := rounding.double(1.0 - q');
    assert Near(p, 1.0 - q', u) && 0.0 <= p <= 1.0;
    var p' := rounding.single(p);
    assert Near(p', p, u) && 0.0 <= p' <= 1.0;
    s := rounding.single(p' * 100.0);
    assert Near(s, p' * 100.0, u) && 0.0 <= s <= 100.0;
    NearUpTo(s, p' * 100.0, u, 100.0);
  }

  lemma {:induction false} FloorNear(s: real, exact: real, e: real)
    requires 0.0 <= s <= 100.0 && exact - e <= s <= exact + e
    ensures ToInt(s).Some? && exact - e - 1.0 < ToInt(s).value as real <= exact + e
  {
  }

  lemma {:induction false} DoneIsComplement(first: U32, remaining: U32)
    requires remaining <= first
    ensures Done(first, remaining) == 100.0 * (1.0 - remaining as real / (first + 1) as real)
  {
    var n, r := (first + 1) as real, remaining as real;
    Quotient(r, n, r / n);
    assert (100 * (first + 1 - remaining)) as real == 100.0 * n - 100.0 * r;
    assert (100.0 * (1.0 - r / n)) * n == 100.0 * n - 100.0 * ((r / n) * n);
    Quotient((100 * (first + 1 - remaining)) as real, n, 100.0 * (1.0 - r / n));
  }

  lemma {:induction false} PercentOfCounter(rounding: Rounding, baseline: real, remaining: U32)
    requires remaining > 0 && baseline != 0.0
    ensures var q := rounding.single(remaining as real) / baseline;
      PercentAt(rounding, baseline, remaining)
      == ToInt(rounding.single(rounding.single(rounding.double(1.0 - rounding.single(q))) * 100.0))
  {
  }

  /** Under any sound rounding of this accuracy, a counter value shows the share done. */
  lemma {:induction false} PercentReads(rounding: Rounding, u: real, first: U32, remaining: U32)
    requires rounding.Sound() && rounding.Accurate(u) && 0.0 <= u && 3.0 * u <= 1.0
    requires remaining <= first < MAX_U32
    ensures Reads(u, first, remaining, PercentAt(rounding, rounding.single((first + 1) as real), remaining))
  {
    DoneIsComplement(first, remaining);
    if remaining == 0 {
      FloorNear(100.0, 100.0, 700.0 * u);
      assert rounding.single(1.0 * 100.0) == 100.0;
    } else {
      PositiveReads(rounding, u, first, remaining, Done(first, remaining));
    }
  }

  lemma {:induction false} PositiveReads(rounding: Rounding, u: real, first: U32, remaining: U32, done: real)
    requires rounding.Sound() && rounding.Accurate(u) && 0.0 <= u && 3.0 * u <= 1.0
    requires 0 < remaining <= first < MAX_U32
    requires done == 100.0 * (1.0 - remaining as real / (first + 1) as real)
    ensures var percent := PercentAt(rounding, rounding.single((first + 1) as real), remaining);
      percent.Some? && done - 700.0 * u - 1.0 < percent.value as real <= done + 700.0 * u
  {
    BaselineCovers(rounding, first);
    var q := rounding.single(remaining as real) / rounding.single((first + 1) as real);
    RatioNear(rounding, u, first, remaining, q, remaining as real / (first + 1) as real);
    PercentOfCounter(rounding, rounding.single((first + 1) as real), remaining);
    var s := RoundedComplement(rounding, u, q);
    FloorNear(s, done, 700.0 * u);
  }

  lemma {:induction false} AtLeastOnce(h: real, b: real)
    requires 0.0 < b <= h
    ensures 1.0 <= h / b
  {
    var q := h / b;
    assert q * b == h;
    if q < 1.0 {
      TimesMore(q, 1.0, b);
    }
  }

  lemma {:induction false} RoundedExcess(rounding: Rounding, q: real) returns (s: real)
    requires rounding.Sound() && 1.0 <= q
    ensures s == rounding.single(rounding.single(rounding.double(1.0 - rounding.single(q))) * 100.0)
    ensures s <= 0.0
  {
    var q' := rounding.single(q);
    assert rounding.single(1.0) <= q';
    var p := rounding.double(1.0 - q');
    assert p <= rounding.double(0.0);
    var p' := rounding.single(p);
    assert p' <= rounding.single(0.0);
    s := rounding.single(p' * 100.0);
    assert s <= rounding.single(0.0);
  }

  lemma {:induction false} NotPositive(s: real)
    requires s <= 0.0
    ensures ToInt(s) == None || ToInt(s).value <= 0
  {
  }

  /** A counter above the first one shows no positive percentage. */
  lemma {:induction false} RisenReads(rounding: Rounding, first: U32, remaining: U32)
    requires rounding.Sound() && first < MAX_U32 && first < remaining
    ensures var percent := PercentAt(rounding, rounding.single((first + 1) as real), remaining);
      percent == None || percent.value <= 0
  {
    var b, h := rounding.single((first + 1) as real), rounding.single(remaining as real);
    BaselineCovers(rounding, first);
    AtLeastOnce(h, b);
    PercentOfCounter(rounding, b, remaining);
    var s := RoundedExcess(rounding, h / b);
    NotPositive(s);
  }

  // ---- A whole enrolment ----

  ghost predicate AllRead(u: real, rs: seq<U32>, ps: seq<Option<int>>) {
    && |ps| == |rs|
    && forall i :: 0 <= i < |rs| ==> Reads(u, rs[0], rs[i], ps[i])
  }

  lemma {:induction false} ShownReads(rounding: Rounding, u: real, rs: seq<U32>)
    requires rounding.Sound() && rounding.Accurate(u) && 0.0 <= u && 3.0 * u <= 1.0
    requires rs != [] && rs[0] != MAX_U32 && forall i :: 0 <= i < |rs| ==> rs[i] <= rs[0]
    ensures AllRead(u, rs, Shown(rounding, rounding.single((rs[0] + 1) as real), rs))
  {
    forall i | 0 <= i < |rs|
      ensures Reads(u, rs[0], rs[i], PercentAt(rounding, rounding.single((rs[0] + 1) as real), rs[i]))
    {
      PercentReads(rounding, u, rs[0], rs[i]);
    }
  }

  /** After an enroll request, and among any other callbacks, there is one percentage for each enrolment
      result: 100 times the part of the first counter, plus one, that is done, rounded down, up to the
      rounding error. */
  lemma {:induction false} EnrolmentValues(a: Adapter, cbs: seq<Callback>, u: real)
    requires a.rounding.Sound() && a.rounding.Accurate(u) && 0.0 <= u && 3.0 * u <= 1.0
    requires EnrolmentStream(cbs) && Counters(cbs)[0] != MAX_U32
    ensures var ps, rs := PercentsIn(a.rounding, Reported(Enroll(a), cbs)), Counters(cbs);
      && |ps| == |rs|
      && forall i :: 0 <= i < |rs| ==> Reads(u, rs[0], rs[i], ps[i])
  {
    EnrolmentShows(Enroll(a), cbs);
    ShownReads(a.rounding, u, Counters(cbs));
    assert AllRead(u, Counters(cbs), PercentsIn(a.rounding, Reported(Enroll(a), cbs)));
  }

  // ---- Without rounding ----

  lemma {:induction false} TimesNoLess(a: int, b: int, n: nat)
    requires a <= b
    ensures a * n <= b * n
  {
    assert b * n - a * n == (b - a) * n;
  }

  lemma {:induction false} UniqueQuotient(p: int, m: nat, n: nat)
    requires n > 0
    ensures p * n <= m < (p + 1) * n <==> p == m / n
  {
    var q := m / n;
    assert q * n <= m < (q + 1) * n;
    if p < q {
      TimesNoLess(p + 1, q, n);
    } else if p > q {
      TimesNoLess(q + 1, p, n);
    }
  }

  lemma {:induction false} IntTimes(p: int, n: int)
    ensures (p * n) as real == p as real * n as real
  {
  }

  lemma {:induction false} AtMostQuotient(x: real, p: int, m: int, n: int)
    requires n > 0 && x * n as real == m as real
    ensures p as real <= x <==> p * n <= m
    ensures p as real < x <==> p * n < m
  {
    IntTimes(p, n);
    var d := x - p as real;
    assert d * n as real == m as real - (p * n) as real;
    if d > 0.0 {
      Times(d, n as real);
    } else if d < 0.0 {
      Times(-d, n as real);
    }
  }

  /** Without rounding errors the percentage is exactly the share done, rounded down. */
  lemma {:induction false} ReadsExactly(first: U32, remaining: U32, percent: Option<int>)
    requires remaining <= first
    ensures Reads(0.0, first, remaining, percent) <==>
            percent == Some(100 * (first + 1 - remaining) / (first + 1))
  {
    var n, m := first + 1, 100 * (first + 1 - remaining);
    var x := Done(first, remaining);
    Quotient(m as real, n as real, x);
    if percent.Some? {
      var p := percent.value;
      AtMostQuotient(x, p, m, n);
      AtMostQuotient(x, p + 1, m, n);
      UniqueQuotient(p, m, n);
    }
  }
}
