/** The percentages an enrolment shows: defined, within 0..100, never falling, ending at 100. */
module EnrolProgress {
  import opened Vocabulary
  import opened AdapterSpec

  const MAX_U32: U32 := 0xFFFF_FFFF

  /** The C++ conversion of a float to int: towards zero, undefined outside the int range. */
  function ToInt(x: real): Option<int> {
    if -2147483649.0 < x < 2147483648.0
    then Some(if x >= 0.0 then x.Floor else -((-x).Floor))
    else None
  }

  /** The percentage the daemon emits for a reported progress. */
  function PercentOf(rounding: Rounding, progress: Option<real>): Option<int> {
    match progress
    case None => None
    case Some(pc) => ToInt(rounding.single(pc * 100.0))
  }

  /** The percentages of all progress notices, in order. */
  function PercentsIn(rounding: Rounding, notices: seq<Notice>): seq<Option<int>> {
    if notices == [] then [] else
      match notices[0]
      case EnrollProgress(progress) =>
        [PercentOf(rounding, progress)] + PercentsIn(rounding, notices[1..])
      case _ => PercentsIn(rounding, notices[1..])
  }

  /** The counter values of the enrolment results in a stream of callbacks, in order. */
  function Counters(cbs: seq<Callback>): seq<U32> {
    if cbs == [] then [] else
      (if cbs[0].EnrollResult? then [cbs[0].remaining] else []) + Counters(cbs[1..])
  }

  /** A HAL enrolment, among any other callbacks: the counter never rises and reaches 0 at the end. */
  ghost predicate EnrolmentStream(cbs: seq<Callback>) {
    var rs := Counters(cbs);
    && rs != []
    && (forall i, j :: 0 <= i <= j < |rs| ==> rs[j] <= rs[i])
    && rs[|rs| - 1] == 0
  }

  /** The percentage shown for a counter value under a baseline. */
  function PercentAt(rounding: Rounding, baseline: real, remaining: U32): Option<int> {
    PercentOf(rounding, if remaining == 0 then Some(1.0) else Progress(rounding, baseline, remaining))
  }

  lemma {:induction false} QuotientMonotone(x: real, y: real, b: real)
    requires 0.0 <= x <= y <= b && b > 0.0
    ensures 0.0 <= x / b <= y / b <= 1.0
  {
    assert (y / b) * b == y;
    assert (x / b) * b == x;
  }

  /** Under a baseline that covers the counter, a smaller counter shows no smaller a percentage. */
  lemma {:induction false} PercentMonotone(rounding: Rounding, baseline: real, high: U32, low: U32)
    requires rounding.Sound()
    requires baseline >= 1.0 && rounding.single(high as real) <= baseline
    requires low <= high
    ensures PercentAt(rounding, baseline, high).Some? && PercentAt(rounding, baseline, low).Some?
    ensures 0 <= PercentAt(rounding, baseline, high).value
                 <= PercentAt(rounding, baseline, low).value <= 100
    ensures PercentAt(rounding, baseline, 0) == Some(100)
  {
    var h, l := rounding.single(high as real), rounding.single(low as real);
    assert rounding.single(0 as real) == 0.0;
    QuotientMonotone(l, h, baseline);
    var qh, ql := rounding.single(h / baseline), rounding.single(l / baseline);
    assert 0.0 <= ql <= qh <= 1.0;
    var ph, pl := rounding.single(rounding.double(1.0 - qh)), rounding.single(rounding.double(1.0 - ql));
    assert 0.0 <= rounding.double(1.0 - qh) <= rounding.double(1.0 - ql) <= 1.0;
    assert 0.0 <= ph <= pl <= 1.0;
    assert 0.0 <= rounding.single(ph * 100.0) <= rounding.single(pl * 100.0) <= 100.0;
    assert rounding.single(1.0 * 100.0) == 100.0;
  }

  /** The percentages of some counter values under one baseline. */
  function Shown(rounding: Rounding, baseline: real, rs: seq<U32>): seq<Option<int>> {
    seq(|rs|, i requires 0 <= i < |rs| => PercentAt(rounding, baseline, rs[i]))
  }

  /** Other callbacks show nothing and leave the baseline alone. */
  lemma {:induction false} OthersShowNothing(a: Adapter, cb: Callback, rest: seq<Notice>)
    requires !cb.EnrollResult?
    ensures var (a', out) := OnCallback(a, cb);
      && a'.rounding == a.rounding && a'.enrollRemaining == a.enrollRemaining
      && PercentsIn(a.rounding, out + rest) == PercentsIn(a.rounding, rest)
  {
    var (a', out) := OnCallback(a, cb);
    if out == [] {
      assert out + rest == rest;
    } else {
      assert (out + rest)[1..] == rest;
    }
  }

  /** An enrolment result shows one percentage. */
  lemma {:induction false} ResultShowsOne(a: Adapter, cb: Callback, rest: seq<Notice>)
    requires cb.EnrollResult?
    ensures var (a', out) := OnCallback(a, cb);
      && a'.rounding == a.rounding
      && (a.enrollRemaining != 0.0 ==> a'.enrollRemaining == a.enrollRemaining)
      && PercentsIn(a.rounding, out + rest)
         == [PercentAt(a.rounding, Baseline(a, cb.remaining), cb.remaining)] + PercentsIn(a.rounding, rest)
  {
    var (a', out) := OnCallback(a, cb);
    assert (out + rest)[1..] == out[1..] + rest;
    if cb.remaining == 0 {
      assert (out[1..] + rest)[1..] == rest;
    } else {
      assert out[1..] + rest == rest;
    }
  }

  lemma {:induction false} ShownMore(rounding: Rounding, baseline: real, r: U32, rs: seq<U32>)
    ensures Shown(rounding, baseline, [r] + rs) == [PercentAt(rounding, baseline, r)] + Shown(rounding, baseline, rs)
  {
  }

  predicate AllZero(rs: seq<U32>) {
    forall i :: 0 <= i < |rs| ==> rs[i] == 0
  }

  /** The baseline is set, or never consulted: zero counters do not need it. */
  predicate Settled(a: Adapter, baseline: real, rs: seq<U32>) {
    (baseline != 0.0 && a.enrollRemaining == baseline) || AllZero(rs)
  }

  lemma {:induction false} SettledResult(a: Adapter, baseline: real, r: U32, rs: seq<U32>)
    requires Settled(a, baseline, [r] + rs)
    ensures PercentAt(a.rounding, Baseline(a, r), r) == PercentAt(a.rounding, baseline, r)
    ensures AllZero([r] + rs) ==> AllZero(rs)
  {
    if AllZero([r] + rs) {
      assert ([r] + rs)[0] == 0;
      assert forall i :: 0 <= i < |rs| ==> rs[i] == ([r] + rs)[i + 1];
    }
  }

  /** Once the baseline is settled, the stream shows PercentAt of every counter value. */
  lemma {:induction false} StreamShows(a: Adapter, baseline: real, cbs: seq<Callback>)
    requires Settled(a, baseline, Counters(cbs))
    ensures PercentsIn(a.rounding, Reported(a, cbs)) == Shown(a.rounding, baseline, Counters(cbs))
    decreases |cbs|
  {
    if cbs != [] {
      var (a', out) := OnCallback(a, cbs[0]);
      var rest, later := Reported(a', cbs[1..]), Counters(cbs[1..]);
      if cbs[0].EnrollResult? {
        ResultShowsOne(a, cbs[0], rest);
        SettledResult(a, baseline, cbs[0].remaining, later);
        ShownMore(a.rounding, baseline, cbs[0].remaining, later);
      } else {
        OthersShowNothing(a, cbs[0], rest);
        assert Counters(cbs) == later;
      }
      StreamShows(a', baseline, cbs[1..]);
    }
  }

  lemma {:induction false} BaselineCovers(rounding: Rounding, first: U32)
    requires rounding.Sound() && first != MAX_U32
    ensures rounding.single(first as real) <= rounding.single((first + 1) as real)
    ensures 1.0 <= rounding.single((first + 1) as real)
  {
    assert rounding.single(1.0) <= rounding.single((first + 1) as real);
  }

  /** A first counter value above 0 sets the baseline: it might as well have been set before. */
  lemma {:induction false} FirstResultSets(a: Adapter, baseline: real, cbs: seq<Callback>)
    requires a.enrollRemaining == 0.0 && baseline != 0.0
    requires cbs != [] && cbs[0].EnrollResult? && cbs[0].remaining > 0
    requires Baseline(a, cbs[0].remaining) == baseline
    ensures Reported(a, cbs) == Reported(a.(enrollRemaining := baseline), cbs)
  {
    assert OnCallback(a, cbs[0]) == OnCallback(a.(enrollRemaining := baseline), cbs[0]);
  }

  lemma {:induction false} FallsFrom0(rs: seq<U32>)
    requires rs != [] && rs[0] == 0 && forall i, j :: 0 <= i <= j < |rs| ==> rs[j] <= rs[i]
    ensures AllZero(rs)
  {
  }

  /** The first result settles the baseline. */
  lemma {:induction false} FirstResultSettles(a: Adapter, baseline: real, cbs: seq<Callback>)
    requires a.rounding.Sound() && a.enrollRemaining == 0.0
    requires EnrolmentStream(cbs) && cbs[0].EnrollResult? && cbs[0].remaining != MAX_U32
    requires baseline == a.rounding.single((cbs[0].remaining + 1) as real)
    ensures PercentsIn(a.rounding, Reported(a, cbs)) == Shown(a.rounding, baseline, Counters(cbs))
  {
    BaselineCovers(a.rounding, cbs[0].remaining);
    if cbs[0].remaining == 0 {
      FallsFrom0(Counters(cbs));
      StreamShows(a, baseline, cbs);
    } else {
      FirstResultSets(a, baseline, cbs);
      StreamShows(a.(enrollRemaining := baseline), baseline, cbs);
    }
  }

  /** A whole enrolment shows PercentAt of every counter value, under the baseline of the first one. */
  lemma {:induction false} EnrolmentShows(a: Adapter, cbs: seq<Callback>)
    requires a.rounding.Sound() && a.enrollRemaining == 0.0
    requires EnrolmentStream(cbs) && Counters(cbs)[0] != MAX_U32
    ensures var baseline := a.rounding.single((Counters(cbs)[0] + 1) as real);
      PercentsIn(a.rounding, Reported(a, cbs)) == Shown(a.rounding, baseline, Counters(cbs))
    decreases |cbs|
  {
    if cbs[0].EnrollResult? {
      FirstResultSettles(a, a.rounding.single((cbs[0].remaining + 1) as real), cbs);
    } else {
      assert Counters(cbs) == Counters(cbs[1..]);
      var a' := OnCallback(a, cbs[0]).0;
      OthersShowNothing(a, cbs[0], Reported(a', cbs[1..]));
      EnrolmentShows(a', cbs[1..]);
    }
  }

  /** A counter that starts at its largest value wraps the baseline to 0: the first percentage is
      the conversion of an infinity. */
  lemma {:induction false} LargestCounterHasNoPercentage(a: Adapter, cbs: seq<Callback>)
    requires a.rounding.Sound()
    requires a.enrollRemaining == 0.0
    requires Counters(cbs) != [] && Counters(cbs)[0] == MAX_U32
    ensures var ps := PercentsIn(a.rounding, Reported(a, cbs)); ps != [] && ps[0] == None
    decreases |cbs|
  {
    var (a', out) := OnCallback(a, cbs[0]);
    if cbs[0].EnrollResult? {
      assert a.rounding.single(0 as real) == 0.0;
      assert Baseline(a, MAX_U32) == 0.0;
      ResultShowsOne(a, cbs[0], Reported(a', cbs[1..]));
    } else {
      assert Counters(cbs) == Counters(cbs[1..]);
      OthersShowNothing(a, cbs[0], Reported(a', cbs[1..]));
      LargestCounterHasNoPercentage(a', cbs[1..]);
    }
  }

  /** After an enroll request, whatever an earlier enrolment left and whatever other callbacks come in
      between: every percentage has a defined value exactly when the first counter value is not the
      largest one; then there is one percentage for each result, and they lie in 0..100, never fall and
      end at 100. */
  lemma {:induction false} EnrolmentPercentages(a: Adapter, cbs: seq<Callback>)
    requires a.rounding.Sound()
    requires EnrolmentStream(cbs)
    ensures var ps := PercentsIn(a.rounding, Reported(Enroll(a), cbs));
      && ((forall i :: 0 <= i < |ps| ==> ps[i].Some?) <==> Counters(cbs)[0] != MAX_U32)
      && (Counters(cbs)[0] != MAX_U32 ==>
            && |ps| == |Counters(cbs)|
            && (forall i :: 0 <= i < |ps| ==> 0 <= ps[i].value <= 100)
            && (forall i, j :: 0 <= i <= j < |ps| ==> ps[i].value <= ps[j].value)
            && ps[|ps| - 1] == Some(100))
  {
    var rs := Counters(cbs);
    if rs[0] == MAX_U32 {
      LargestCounterHasNoPercentage(Enroll(a), cbs);
    } else {
      var baseline := a.rounding.single((rs[0] + 1) as real);
      EnrolmentShows(Enroll(a), cbs);
      BaselineCovers(a.rounding, rs[0]);
      var ps := PercentsIn(a.rounding, Reported(Enroll(a), cbs));
      forall i, j | 0 <= i <= j < |ps|
        ensures ps[i].Some? && ps[j].Some? && 0 <= ps[i].value <= ps[j].value <= 100
      {
        assert a.rounding.single(rs[i] as real) <= a.rounding.single(rs[0] as real);
        PercentMonotone(a.rounding, baseline, rs[i], rs[j]);
      }
      PercentMonotone(a.rounding, baseline, rs[0], 0);
    }
  }
}
