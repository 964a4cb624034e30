/** The progress of enrolments, from the HAL's counters to the signals on the bus, over whole runs. */
module ProgressBar {
  import opened Vocabulary
  import Adapter = AdapterSpec
  import opened EnrolProgress
  import opened EnrolValues
  import opened System
  import DaemonSpec
  import RequestShape
  import Runs
  import Speech
  import Streams
  import TraceGrammar

  /** What a percentage stands for: the start of an enrolment or verification, or a counter value of it,
      together with the first one. */
  datatype Mark = AtStart | Counted(first: U32, remaining: U32)

  /** The first positive counter since the last enroll request, what is queued, and what has been shown. */
  datatype Bar = Bar(first: Option<U32>, queued: seq<Mark>, shown: seq<Mark>)

  predicate StartsBar(w: World, e: Event) {
    (e.CallEnroll? || e.CallVerify?) && Reaches(w.d, e)
  }

  predicate DeliversProgress(w: World, e: Event) {
    e.Dispatch? && w.queue != [] && w.queue[0].EnrollProgress?
  }

  /** The first counter that counts for this one. */
  function FirstOf(first: Option<U32>, remaining: U32): U32 {
    if first.Some? then first.value else remaining
  }

  function Next(b: Bar, w: World, e: Event): Bar {
    match e
    case Restart(_, _) => Bar(None, [], [])
    case HalCallback(EnrollResult(_, remaining, _)) =>
      var first := FirstOf(b.first, remaining);
      Bar(if remaining == 0 then b.first else if first == MAX_U32 then None else Some(first),
          b.queued + [Counted(first, remaining)], b.shown)
    case Dispatch(_, _) =>
      if DeliversProgress(w, e) && b.queued != [] then
        b.(queued := b.queued[1..], shown := b.shown + [b.queued[0]])
      else b
    case _ =>
      if StartsBar(w, e) then b.(first := None, shown := b.shown + [AtStart]) else b
  }

  ghost function BarAt(step: (World, Event) -> World, w0: World, es: seq<Event>, n: nat): Bar
    requires n <= |es|
  {
    if n == 0 then Bar(None, [], []) else
      Next(BarAt(step, w0, es, n - 1), Runs.After(step, w0, es, n - 1), es[n - 1])
  }

  /** The percentage is the mark's: 0 at the start, 100 at the end, without a defined value if the first
      counter is the largest one, and otherwise the share done. */
  predicate Shows(u: real, mark: Mark, percent: Option<int>) {
    match mark
    case AtStart => percent == Some(0)
    case Counted(first, remaining) =>
      if remaining == 0 then percent == Some(100)
      else if first == MAX_U32 then percent == None
      else if remaining <= first then Reads(u, first, remaining, percent)
      else percent == None || percent.value <= 0
  }

  ghost predicate AllShow(u: real, marks: seq<Mark>, percents: seq<Option<int>>) {
    && |percents| == |marks|
    && forall i :: 0 <= i < |marks| ==> Shows(u, marks[i], percents[i])
  }

  function PercentSaid(s: Signal): Option<Option<int>> {
    if s.EnrollProgressChanged? then Some(s.percent) else None
  }

  /** The percentage that the delivery of a notice will show. */
  function PercentQueued(rounding: Adapter.Rounding): Notice -> Option<Option<int>> {
    (n: Notice) => if n.EnrollProgress? then Some(PercentOf(rounding, n.progress)) else None
  }

  ghost predicate Usable(rounding: Adapter.Rounding, u: real) {
    rounding.Sound() && rounding.Accurate(u) && 0.0 <= u && 3.0 * u <= 1.0
  }

  ghost predicate Based(rounding: Adapter.Rounding, first: Option<U32>, baseline: real) {
    match first
    case None => baseline == 0.0
    case Some(f) => f != MAX_U32 && baseline == rounding.single((f + 1) as real)
  }

  ghost predicate Tracks(rounding: Adapter.Rounding, u: real, w: World, b: Bar) {
    && w.d.fp.rounding == rounding && Usable(rounding, u)
    && Based(rounding, b.first, w.d.fp.enrollRemaining)
    && AllShow(u, b.queued, Streams.Pick(PercentQueued(rounding), w.queue))
    && AllShow(u, b.shown, Streams.Pick(PercentSaid, w.d.trace))
  }

  // ---- The adapter ----

  lemma {:induction false} DeliveryKeepsBaseline(w: World, e: Event)
    requires e.Dispatch? && w.queue != []
    ensures var fp := Step(w, e).d.fp;
      fp.rounding == w.d.fp.rounding && fp.enrollRemaining == w.d.fp.enrollRemaining
  {
    match w.queue[0] {
      case EnrollProgress(_) =>
      case Succeeded(_) =>
      case FailedWith(_) =>
      case RemovedId(_) =>
      case AcquiredCode(_) =>
      case Authenticated(_) =>
      case Enumerated =>
    }
  }

  lemma {:induction false} RequestBaseline(w: World, e: Event)
    requires Reaches(w.d, e)
    ensures var fp := Step(w, e).d.fp;
      && fp.rounding == w.d.fp.rounding
      && fp.enrollRemaining == if StartsBar(w, e) then 0.0 else w.d.fp.enrollRemaining
  {
    RequestShape.ReachingShape(w, e);
    RequestShape.AskedAdapter(w.d, e);
    RequestShape.RequestedOutcome(RequestShape.Asking(w, e), RequestShape.Asked(w.d, e), e.status);
  }

  lemma {:induction false} BootBaseline(
      rounding: Adapter.Rounding, database: Option<map<U32, string>>, gs: int, st: int)
    ensures var fp := DaemonSpec.Boot(rounding, database, gs, st).fp;
      fp.rounding == rounding && fp.enrollRemaining == 0.0
  {
  }

  /** Only enroll requests, enrolment results and new processes touch the baseline. */
  lemma {:induction false} StepBaseline(w: World, e: Event)
    requires !e.HalCallback?
    ensures var fp := Step(w, e).d.fp;
      && fp.rounding == w.d.fp.rounding
      && fp.enrollRemaining == if StartsBar(w, e) || e.Restart? then 0.0 else w.d.fp.enrollRemaining
  {
    match e {
      case CallAbort(_) =>
      case Dispatch(_, _) =>
        if w.queue != [] {
          DeliveryKeepsBaseline(w, e);
        }
      case TimerFires =>
      case Advance(_) =>
      case Restart(gs, st) => BootBaseline(w.d.fp.rounding, w.d.database, gs, st);
      case _ =>
        if Reaches(w.d, e) {
          RequestBaseline(w, e);
        } else {
          TraceGrammar.RejectedRequestsDoNothing(w, e);
        }
    }
  }

  // ---- One enrolment result ----

  /** What the adapter posts for a result is the percentage of its mark. */
  lemma {:induction false} ResultShows(a: Adapter.Adapter, u: real, first: Option<U32>, cb: Callback)
    requires Usable(a.rounding, u) && Based(a.rounding, first, a.enrollRemaining) && cb.EnrollResult?
    ensures var (a', out) := Adapter.OnCallback(a, cb);
            var f := FirstOf(first, cb.remaining);
      && out != [] && out[0].EnrollProgress?
      && Shows(u, Counted(f, cb.remaining), PercentOf(a.rounding, out[0].progress))
      && (cb.remaining > 0 ==> Based(a.rounding, if f == MAX_U32 then None else Some(f), a'.enrollRemaining))
  {
    var f := FirstOf(first, cb.remaining);
    if cb.remaining == 0 {
      assert a.rounding.single(1.0 * 100.0) == 100.0;
    } else {
      FirstBaseline(a, u, first, cb.remaining);
      if f != MAX_U32 && cb.remaining <= f {
        PercentReads(a.rounding, u, f, cb.remaining);
      } else if f != MAX_U32 {
        RisenReads(a.rounding, f, cb.remaining);
      }
    }
  }

  lemma {:induction false} FirstBaseline(a: Adapter.Adapter, u: real, first: Option<U32>, remaining: U32)
    requires Usable(a.rounding, u) && Based(a.rounding, first, a.enrollRemaining) && remaining > 0
    ensures var f := FirstOf(first, remaining);
      Adapter.Baseline(a, remaining) == if f == MAX_U32 then 0.0 else a.rounding.single((f + 1) as real)
  {
    if first.Some? {
      BaselineCovers(a.rounding, first.value);
      assert a.enrollRemaining != 0.0;
    } else {
      assert a.enrollRemaining == 0.0;
      WrappedCounter(remaining);
    }
  }

  lemma {:induction false} WrappedCounter(remaining: U32)
    ensures (remaining + 1) % 0x1_0000_0000 == if remaining == MAX_U32 then 0 else remaining + 1
  {
  }

  // ---- Every event ----

  lemma {:induction false} AllShowMore(u: real, ms: seq<Mark>, ps: seq<Option<int>>, m: Mark, p: Option<int>)
    requires AllShow(u, ms, ps) && Shows(u, m, p)
    ensures AllShow(u, ms + [m], ps + [p])
  {
  }

  lemma {:induction false} ResultPosts(a: Adapter.Adapter, cb: Callback)
    requires cb.EnrollResult?
    ensures var (a', posted) := Adapter.OnCallback(a, cb);
      && a'.rounding == a.rounding && (cb.remaining == 0 ==> a'.enrollRemaining == a.enrollRemaining)
      && posted != [] && posted[0].EnrollProgress?
      && Streams.Pick(PercentQueued(a.rounding), posted) == [PercentOf(a.rounding, posted[0].progress)]
  {
    var posted := Adapter.OnCallback(a, cb).1;
    assert posted == [posted[0]] + posted[1..];
    Streams.PickFirst(PercentQueued(a.rounding), posted[0], posted[1..]);
  }

  lemma {:induction false} OthersPostNoProgress(a: Adapter.Adapter, cb: Callback)
    requires !cb.EnrollResult?
    ensures var (a', posted) := Adapter.OnCallback(a, cb);
      && a'.rounding == a.rounding && a'.enrollRemaining == a.enrollRemaining
      && Streams.Pick(PercentQueued(a.rounding), posted) == []
  {
    Streams.PickNone(PercentQueued(a.rounding), Adapter.OnCallback(a, cb).1);
  }

  lemma {:induction false} CallbackTracks(rounding: Adapter.Rounding, u: real, w: World, b: Bar, e: Event)
    requires Tracks(rounding, u, w, b) && e.HalCallback?
    ensures Tracks(rounding, u, Step(w, e), Next(b, w, e))
  {
    var (fp, posted) := Adapter.OnCallback(w.d.fp, e.cb);
    var f := PercentQueued(rounding);
    Streams.PickBoth(f, w.queue, posted);
    if e.cb.EnrollResult? {
      ResultPosts(w.d.fp, e.cb);
      ResultShows(w.d.fp, u, b.first, e.cb);
      var mark := Counted(FirstOf(b.first, e.cb.remaining), e.cb.remaining);
      AllShowMore(u, b.queued, Streams.Pick(f, w.queue), mark, PercentOf(rounding, posted[0].progress));
    } else {
      OthersPostNoProgress(w.d.fp, e.cb);
      assert Streams.Pick(f, w.queue) + [] == Streams.Pick(f, w.queue);
    }
  }

  /** The percentages that an event says. */
  function PercentsOf(w: World, e: Event): seq<Option<int>> {
    if StartsBar(w, e) then [Some(0)]
    else if DeliversProgress(w, e) then [PercentOf(w.d.fp.rounding, w.queue[0].progress)]
    else []
  }

  lemma {:induction false} StartSays(w: World, e: Event)
    requires StartsBar(w, e)
    ensures Streams.Pick(PercentSaid, Speech.Says(w, e)) == [Some(0)]
  {
    var s := Speech.Says(w, e);
    var front := [s[0]] + Speech.Refused(e.status);
    assert s == front + [EnrollProgressChanged(Some(0))];
    Streams.PickBoth(PercentSaid, front, [EnrollProgressChanged(Some(0))]);
    Streams.PickNone(PercentSaid, front);
    Streams.PickFirst(PercentSaid, EnrollProgressChanged(Some(0)), []);
    assert [EnrollProgressChanged(Some(0))] + [] == [EnrollProgressChanged(Some(0))];
  }

  lemma {:induction false} DeliverySays(d: DaemonSpec.Daemon, n: Notice)
    ensures Streams.Pick(PercentSaid, Speech.OnDelivery(d, n))
         == if n.EnrollProgress? then [PercentOf(d.fp.rounding, n.progress)] else []
  {
    var s := Speech.OnDelivery(d, n);
    if n.EnrollProgress? {
      assert s == [s[0]] + s[1..];
      Streams.PickFirst(PercentSaid, s[0], s[1..]);
    } else {
      Streams.PickNone(PercentSaid, s);
    }
  }

  lemma {:induction false} OthersSayNoPercent(w: World, e: Event)
    requires !e.Dispatch? && !StartsBar(w, e)
    ensures forall i :: 0 <= i < |Speech.Says(w, e)| ==> !Speech.Says(w, e)[i].EnrollProgressChanged?
  {
  }

  lemma {:induction false} PercentsAreSaid(w: World, e: Event)
    ensures Streams.Pick(PercentSaid, Speech.Says(w, e)) == PercentsOf(w, e)
  {
    if StartsBar(w, e) {
      StartSays(w, e);
    } else if e.Dispatch? {
      if w.queue != [] {
        DeliverySays(w.d, w.queue[0]);
      }
    } else {
      OthersSayNoPercent(w, e);
      Streams.PickNone(PercentSaid, Speech.Says(w, e));
    }
  }

  lemma {:induction false} StepPercents(w: World, e: Event)
    ensures Streams.Pick(PercentSaid, Step(w, e).d.trace)
         == (if e.Restart? then [] else Streams.Pick(PercentSaid, w.d.trace)) + PercentsOf(w, e)
  {
    Speech.StepSays(w, e);
    PercentsAreSaid(w, e);
    Streams.PickBoth(PercentSaid, if e.Restart? then [] else w.d.trace, Speech.Says(w, e));
  }

  lemma {:induction false} DeliveryTracks(rounding: Adapter.Rounding, u: real, w: World, b: Bar, e: Event)
    requires Tracks(rounding, u, w, b) && e.Dispatch? && w.queue != []
    ensures Tracks(rounding, u, Step(w, e), Next(b, w, e))
  {
    StepBaseline(w, e);
    StepPercents(w, e);
    var f := PercentQueued(rounding);
    assert w.queue == [w.queue[0]] + w.queue[1..];
    Streams.PickBoth(f, [w.queue[0]], w.queue[1..]);
    if w.queue[0].EnrollProgress? {
      var p := PercentOf(rounding, w.queue[0].progress);
      assert Streams.Pick(f, w.queue) == [p] + Streams.Pick(f, w.queue[1..]);
      assert Streams.Pick(f, w.queue)[0] == p && Streams.Pick(f, w.queue)[1..] == Streams.Pick(f, w.queue[1..]);
      AllShowMore(u, b.shown, Streams.Pick(PercentSaid, w.d.trace), b.queued[0], p);
    } else {
      assert Streams.Pick(f, w.queue) == Streams.Pick(f, w.queue[1..]);
    }
  }

  lemma {:induction false} OtherTracks(rounding: Adapter.Rounding, u: real, w: World, b: Bar, e: Event)
    requires Tracks(rounding, u, w, b) && !e.HalCallback? && (e.Dispatch? ==> w.queue == [])
    ensures Tracks(rounding, u, Step(w, e), Next(b, w, e))
  {
    StepBaseline(w, e);
    StepPercents(w, e);
    Speech.StepPosts(w, e);
    if StartsBar(w, e) {
      AllShowMore(u, b.shown, Streams.Pick(PercentSaid, w.d.trace), AtStart, Some(0));
    }
  }

  lemma {:induction false} StepTracks(rounding: Adapter.Rounding, u: real, w: World, b: Bar, e: Event)
    requires Tracks(rounding, u, w, b)
    ensures Tracks(rounding, u, Step(w, e), Next(b, w, e))
  {
    if e.HalCallback? {
      CallbackTracks(rounding, u, w, b, e);
    } else if e.Dispatch? && w.queue != [] {
      DeliveryTracks(rounding, u, w, b, e);
    } else {
      OtherTracks(rounding, u, w, b, e);
    }
  }

  // ---- Whole runs ----

  lemma {:induction false} TracksAlong(
      step: (World, Event) -> World, rounding: Adapter.Rounding, u: real, w0: World, es: seq<Event>, n: nat)
    requires n <= |es|
    requires Tracks(rounding, u, w0, Bar(None, [], []))
    requires forall w, e, b :: Tracks(rounding, u, w, b) ==> Tracks(rounding, u, step(w, e), Next(b, w, e))
    ensures Tracks(rounding, u, Runs.After(step, w0, es, n), BarAt(step, w0, es, n))
  {
    if n > 0 {
      TracksAlong(step, rounding, u, w0, es, n - 1);
    }
  }

  lemma {:induction false} OpeningShowsNothing(t: seq<Signal>, gs: int, st: int)
    requires t == Speech.Opening(gs, st)
    ensures Streams.Pick(PercentSaid, t) == []
  {
    Streams.PickNone(PercentSaid, t);
  }

  lemma {:induction false} PoweredTracks(w0: World, u: real)
    requires Powered(w0) && Usable(w0.d.fp.rounding, u)
    ensures Tracks(w0.d.fp.rounding, u, w0, Bar(None, [], []))
  {
    var gs, st :| w0 == Power(w0.d.fp.rounding, w0.d.database, w0.hal.templates, w0.clock, gs, st);
    BootBaseline(w0.d.fp.rounding, w0.d.database, gs, st);
    Speech.BootSays(w0.d.fp.rounding, w0.d.database, gs, st);
    OpeningShowsNothing(w0.d.trace, gs, st);
  }

  /** On every run the progress signals of a process are, in order and one for one, the starts of its
      enrolments and verifications and the enrolment results delivered to it: 0 at a start, 100 at the end,
      no defined value while the first counter since the start is 2^32-1, and otherwise
      100 * (first + 1 - counter) / (first + 1), rounded down, up to the rounding error - or nothing
      positive if the counter has risen above the first one. */
  lemma {:induction false} ProgressIsShown(w0: World, es: seq<Event>, n: nat, u: real)
    requires Powered(w0) && n <= |es| && Usable(w0.d.fp.rounding, u)
    ensures var marks, percents := BarAt(Step, w0, es, n).shown, Streams.Pick(PercentSaid, At(w0, es, n).d.trace);
      && |percents| == |marks|
      && forall i :: 0 <= i < |marks| ==> Shows(u, marks[i], percents[i])
  {
    var rounding := w0.d.fp.rounding;
    PoweredTracks(w0, u);
    forall w, e, b | Tracks(rounding, u, w, b) ensures Tracks(rounding, u, Step(w, e), Next(b, w, e)) {
      StepTracks(rounding, u, w, b, e);
    }
    TracksAlong(Step, rounding, u, w0, es, n);
  }
}
