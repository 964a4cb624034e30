/** The acquisition signals: the delivered codes, translated, without repetitions. */
module Acquisition {
  import opened Vocabulary
  import opened DaemonSpec
  import opened System
  import opened Frames
  import Index
  import Observers
  import Runs
  import Speech

  /** The acquisition signals of a trace. */
  function Infos(t: seq<Signal>): seq<AcquiredState> {
    if t == [] then [] else
      var last := t[|t| - 1];
      Infos(t[..|t| - 1]) + if last.AcquisitionInfo? then [last.info] else []
  }

  /** Consecutive duplicates dropped. */
  function Destutter<T(==)>(xs: seq<T>): seq<T> {
    if xs == [] then [] else
      var front, last := xs[..|xs| - 1], xs[|xs| - 1];
      if front != [] && front[|front| - 1] == last then Destutter(front) else Destutter(front) + [last]
  }

  lemma {:induction false} DestutterMore<T>(xs: seq<T>, x: T)
    ensures Destutter(xs + [x])
         == if xs != [] && xs[|xs| - 1] == x then Destutter(xs) else Destutter(xs) + [x]
  {
    assert (xs + [x])[..|xs|] == xs;
  }

  lemma {:induction false} InfosBoth(a: seq<Signal>, b: seq<Signal>)
    requires forall i :: 0 <= i < |b| ==> !b[i].AcquisitionInfo?
    ensures Infos(a + b) == Infos(a)
    decreases |b|
  {
    if b == [] {
      assert a + b == a;
    } else {
      assert (a + b)[..|a + b| - 1] == a + b[..|b| - 1];
      InfosBoth(a, b[..|b| - 1]);
    }
  }

  lemma {:induction false} InfosMore(t: seq<Signal>, info: AcquiredState)
    ensures Infos(t + [AcquisitionInfo(info)]) == Infos(t) + [info]
  {
    assert (t + [AcquisitionInfo(info)])[..|t|] == t;
  }

  /** The acquisition code that an event delivers. */
  function CodeOf(w: World, e: Event): Option<int> {
    if e.Dispatch? && w.queue != [] && w.queue[0].AcquiredCode? then Some(w.queue[0].code) else None
  }

  /** The seven codes of src/biometry.h and all others: what the daemon remembers when a code is delivered,
      and that it says so exactly when that differs from the last image. */
  lemma {:induction false} EachCodeHasItsImage(w: World, e: Event)
    requires CodeOf(w, e).Some?
    ensures var code, d' := CodeOf(w, e).value, Step(w, e).d;
      && (code == 0 ==> d'.acquired == Good)
      && (code == 1 ==> d'.acquired == Partial)
      && (code == 2 ==> d'.acquired == Insufficient)
      && (code == 3 ==> d'.acquired == ImagerDirty)
      && (code == 4 ==> d'.acquired == TooSlow)
      && (code == 5 ==> d'.acquired == TooFast)
      && (code == 6 ==> d'.acquired == Unrecognized)
      && (code < 0 || code > 6 ==> d'.acquired == Good)
      && d'.trace == w.d.trace + if d'.acquired == w.d.acquired then [] else [AcquisitionInfo(d'.acquired)]
  {
    Speech.CodeHasImage(CodeOf(w, e).value);
    Speech.StepSays(w, e);
  }

  /** The translated codes that a process has been told, after one more event. */
  function NextImages(images: seq<AcquiredState>, w: World, e: Event): seq<AcquiredState> {
    if e.Restart? then []
    else match CodeOf(w, e)
      case Some(code) => images + [Speech.ImageOf(code)]
      case None => images
  }

  /** The codes that the process has been told up to event n, translated. */
  ghost function Images(step: (World, Event) -> World, w0: World, es: seq<Event>, n: nat): seq<AcquiredState>
    requires n <= |es|
  {
    if n == 0 then [] else
      NextImages(Images(step, w0, es, n - 1), Runs.After(step, w0, es, n - 1), es[n - 1])
  }

  /** How one event adds to the acquisition signals. */
  ghost predicate AcquireStep(w: World, e: Event, d': Daemon) {
    if e.Restart? then
      Infos(d'.trace) == [] && d'.acquired == Unspecified
    else
      match CodeOf(w, e)
      case None => Infos(d'.trace) == Infos(w.d.trace) && d'.acquired == w.d.acquired
      case Some(code) =>
        && d'.acquired == Speech.ImageOf(code)
        && Infos(d'.trace) == if Speech.ImageOf(code) == w.d.acquired then Infos(w.d.trace)
                              else Infos(w.d.trace) + [Speech.ImageOf(code)]
  }

  lemma {:induction false} UntouchedInfos(d: Daemon, d': Daemon)
    requires Untouched(d, d')
    ensures Infos(d'.trace) == Infos(d.trace) && d'.acquired == d.acquired
  {
    assert d'.trace == d.trace + d'.trace[|d.trace|..];
    InfosBoth(d.trace, d'.trace[|d.trace|..]);
  }

  /** The way in which the three index slots end says nothing about the image. */
  lemma {:induction false} EndingAcquires(d: Daemon, writable: bool)
    ensures var d' := SetState(Emit(Save(d, writable), ListChanged), Idle);
      Infos(d'.trace) == Infos(d.trace) && d'.acquired == d.acquired
  {
    var tail := Observers.Ending(d, writable);
    InfosBoth(d.trace, tail);
  }

  lemma {:induction false} ForgetAcquires(d: Daemon, id: U32)
    ensures Infos(Forget(d, id).trace) == Infos(d.trace) && Forget(d, id).acquired == d.acquired
  {
    var said := if id != 0 then [Removed(if id in d.names then d.names[id] else "")]
                else Farewells(Index.OrderedValues(d.names));
    InfosBoth(d.trace, said);
  }

  lemma {:induction false} IndexNoticeAcquires(d: Daemon, n: Notice, readable: bool, writable: bool)
    requires IndexNotice(n)
    ensures var d' := OnNotice(d, n, readable, writable);
      Infos(d'.trace) == Infos(d.trace) && d'.acquired == d.acquired
  {
    match n
    case Succeeded(id) =>
      InfosBoth(d.trace, [Added(d.adding)]);
      EndingAcquires(Emit(d.(names := d.names[id := d.adding]), Added(d.adding)).(adding := ""), writable);
    case RemovedId(id) =>
      ForgetAcquires(d, id);
      EndingAcquires(Forget(d, id), writable);
    case Enumerated =>
      EndingAcquires(d.(names := Index.Reconcile(Stored(d, readable), d.fp.fingers)), writable);
  }

  lemma {:induction false} StepAcquires(w: World, e: Event)
    ensures AcquireStep(w, e, Step(w, e).d)
  {
    match e {
      case Dispatch(readable, writable) =>
        if w.queue != [] {
          var n := w.queue[0];
          if IndexNotice(n) {
            IndexNoticeAcquires(w.d, n, readable, writable);
          } else if n.AcquiredCode? {
            Speech.CodeHasImage(n.code);
            InfosMore(w.d.trace, Speech.ImageOf(n.code));
          } else {
            OtherNoticeFrame(w.d, n, readable, writable);
            UntouchedInfos(w.d, Step(w, e).d);
          }
        }
      case Restart(gs, st) =>
        BootFrame(w.d.fp.rounding, w.d.database, gs, st);
        UntouchedInfos(FreshDaemon(w.d.fp.rounding, w.d.database), Step(w, e).d);
      case HalCallback(_) =>
      case Advance(_) =>
      case TimerFires =>
        TimerFrame(w.d);
        UntouchedInfos(w.d, SlotCancelIdentify(w.d));
      case _ =>
        CallFrame(w, e);
        UntouchedInfos(w.d, Step(w, e).d);
    }
  }

  /** The daemon has said the destuttered images and remembers the last one. */
  ghost predicate Remembers(d: Daemon, images: seq<AcquiredState>) {
    && Infos(d.trace) == Destutter(images)
    && d.acquired == (if images == [] then Unspecified else images[|images| - 1])
  }

  lemma {:induction false} RemembersMore(w: World, e: Event, d': Daemon, images: seq<AcquiredState>)
    requires Remembers(w.d, images) && AcquireStep(w, e, d')
    ensures Remembers(d', NextImages(images, w, e))
  {
    if CodeOf(w, e).Some? {
      DestutterMore(images, Speech.ImageOf(CodeOf(w, e).value));
    }
  }

  lemma {:induction false} Accumulates(
      step: (World, Event) -> World, holds: (World, seq<AcquiredState>) -> bool,
      w0: World, es: seq<Event>, n: nat)
    requires n <= |es|
    requires holds(w0, [])
    requires forall w, e, images :: holds(w, images) ==> holds(step(w, e), NextImages(images, w, e))
    ensures holds(Runs.After(step, w0, es, n), Images(step, w0, es, n))
  {
    if n > 0 {
      Accumulates(step, holds, w0, es, n - 1);
    }
  }

  lemma {:induction false} RemembersAlong(w0: World, es: seq<Event>, n: nat)
    requires Powered(w0) && n <= |es|
    ensures Remembers(At(w0, es, n).d, Images(Step, w0, es, n))
  {
    PoweredSilent(w0);
    var holds := (w: World, images: seq<AcquiredState>) => Remembers(w.d, images);
    forall w, e, images | holds(w, images) ensures holds(Step(w, e), NextImages(images, w, e)) {
      StepAcquires(w, e);
      RemembersMore(w, e, Step(w, e).d, images);
    }
    Accumulates(Step, holds, w0, es, n);
  }

  lemma {:induction false} PoweredSilent(w0: World)
    requires Powered(w0)
    ensures Infos(w0.d.trace) == [] && w0.d.acquired == Unspecified
  {
    var gs, st :| w0 == Power(w0.d.fp.rounding, w0.d.database, w0.hal.templates, w0.clock, gs, st);
    BootFrame(w0.d.fp.rounding, w0.d.database, gs, st);
    UntouchedInfos(FreshDaemon(w0.d.fp.rounding, w0.d.database), w0.d);
  }

  /** On every run the acquisition signals of a process are its delivered codes, translated, with
      consecutive duplicates dropped and starting with the first one; the last one is the state that
      the daemon remembers. */
  lemma {:induction false} AcquisitionsAreDestuttered(w0: World, es: seq<Event>, n: nat)
    requires Powered(w0) && n <= |es|
    ensures var d := At(w0, es, n).d; var images := Images(Step, w0, es, n);
      && Infos(d.trace) == Destutter(images)
      && (images != [] ==> Infos(d.trace) != [] && Infos(d.trace)[0] == images[0])
      && d.acquired == (if images == [] then Unspecified else images[|images| - 1])
  {
    RemembersAlong(w0, es, n);
    DestutterStarts(Images(Step, w0, es, n));
  }

  lemma {:induction false} DestutterStarts<T>(xs: seq<T>)
    ensures xs != [] ==> Destutter(xs) != [] && Destutter(xs)[0] == xs[0]
  {
    if |xs| > 1 {
      DestutterStarts(xs[..|xs| - 1]);
    }
  }

  /** A destuttered list repeats nothing directly and ends like the original. */
  lemma {:induction false} DestutterRepeatsNothing<T>(xs: seq<T>)
    ensures forall i :: 0 < i < |Destutter(xs)| ==> Destutter(xs)[i - 1] != Destutter(xs)[i]
    ensures xs != [] ==> Destutter(xs) != [] && Destutter(xs)[|Destutter(xs)| - 1] == xs[|xs| - 1]
  {
    if xs != [] {
      DestutterRepeatsNothing(xs[..|xs| - 1]);
    }
  }

  /** Where nothing repeats, destuttering drops nothing. */
  lemma {:induction false} DestutterKeepsDistinct<T>(xs: seq<T>)
    requires forall i :: 0 < i < |xs| ==> xs[i - 1] != xs[i]
    ensures Destutter(xs) == xs
  {
    if xs != [] {
      DestutterKeepsDistinct(xs[..|xs| - 1]);
    }
  }
}
