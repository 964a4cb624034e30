/** Whole runs: the signals, HAL requests and notices of a process correspond, in order and one to one, to
    the events that cause them. */
module Streams {
  import opened Vocabulary
  import opened Index
  import opened DaemonSpec
  import opened System
  import opened Speech
  import Persistence
  import Runs
  import UniqueNames

  // ---- Stories ----

  /** What the events up to n contribute, since the last restart. */
  ghost function Story<T>(step: (World, Event) -> World, adds: (World, Event) -> seq<T>, first: seq<T>,
                          w0: World, es: seq<Event>, n: nat): seq<T>
    requires n <= |es|
  {
    if n == 0 then first else
      (if es[n - 1].Restart? then [] else Story(step, adds, first, w0, es, n - 1))
      + adds(Runs.After(step, w0, es, n - 1), es[n - 1])
  }

  ghost predicate Grows<T(!new)>(
      step: (World, Event) -> World, field: World -> seq<T>, adds: (World, Event) -> seq<T>)
  {
    forall w, e :: field(step(w, e)) == (if e.Restart? then [] else field(w)) + adds(w, e)
  }

  lemma {:induction false} StoryIs<T(!new)>(
      step: (World, Event) -> World, field: World -> seq<T>, adds: (World, Event) -> seq<T>,
      w0: World, es: seq<Event>, n: nat)
    requires n <= |es| && Grows(step, field, adds)
    ensures field(Runs.After(step, w0, es, n)) == Story(step, adds, field(w0), w0, es, n)
  {
    if n > 0 {
      StoryIs(step, field, adds, w0, es, n - 1);
    }
  }

  /** On every run, the signals of a process are exactly what its events say, in order; a process opens with
      the failure of a refused group, the enumeration, and its failure if that is refused. */
  lemma {:induction false} SignalsAreSaid(w0: World, es: seq<Event>, n: nat)
    requires Powered(w0) && n <= |es|
    ensures exists gs, st :: w0.d.trace == Opening(gs, st)
    ensures At(w0, es, n).d.trace == Story(Step, Says, w0.d.trace, w0, es, n)
  {
    PoweredOpens(w0);
    var field := (w: World) => w.d.trace;
    forall w, e ensures field(Step(w, e)) == (if e.Restart? then [] else field(w)) + Says(w, e) {
      StepSays(w, e);
    }
    StoryIs(Step, field, Says, w0, es, n);
  }

  lemma {:induction false} PoweredOpens(w0: World)
    requires Powered(w0)
    ensures exists gs, st :: w0.d.trace == Opening(gs, st)
    ensures w0.d.fp.requests == [AskSetGroup, AskEnumerate]
  {
    var gs, st :| w0 == Power(w0.d.fp.rounding, w0.d.database, w0.hal.templates, w0.clock, gs, st);
    BootSays(w0.d.fp.rounding, w0.d.database, gs, st);
    BootAsks(w0.d.fp.rounding, w0.d.database, gs, st);
  }

  /** And its HAL requests are exactly what its events ask. */
  lemma {:induction false} RequestsAreAsked(w0: World, es: seq<Event>, n: nat)
    requires Powered(w0) && n <= |es|
    ensures At(w0, es, n).d.fp.requests == Story(Step, Asks, [AskSetGroup, AskEnumerate], w0, es, n)
  {
    PoweredOpens(w0);
    var field := (w: World) => w.d.fp.requests;
    forall w, e ensures field(Step(w, e)) == (if e.Restart? then [] else field(w)) + Asks(w, e) {
      StepAsks(w, e);
    }
    StoryIs(Step, field, Asks, w0, es, n);
  }

  // ---- Picking ----

  function Read<S, T>(f: S -> Option<T>, x: S): seq<T> {
    if f(x).Some? then [f(x).value] else []
  }

  /** The values that a partial reading finds in a list. */
  function Pick<S, T>(f: S -> Option<T>, s: seq<S>): seq<T> {
    if s == [] then [] else Read(f, s[0]) + Pick(f, s[1..])
  }

  lemma {:induction false} PickBoth<S, T>(f: S -> Option<T>, a: seq<S>, b: seq<S>)
    ensures Pick(f, a + b) == Pick(f, a) + Pick(f, b)
    decreases |a|
  {
    if a == [] {
      assert a + b == b;
    } else {
      var s := a + b;
      assert s != [] && s[0] == a[0] && s[1..] == a[1..] + b;
      PickBoth(f, a[1..], b);
      Associative(Read(f, a[0]), Pick(f, a[1..]), Pick(f, b));
    }
  }

  lemma {:induction false} Associative<T>(a: seq<T>, b: seq<T>, c: seq<T>)
    ensures a + (b + c) == (a + b) + c
  {
  }

  lemma {:induction false} PickNone<S, T>(f: S -> Option<T>, s: seq<S>)
    requires forall i :: 0 <= i < |s| ==> f(s[i]).None?
    ensures Pick(f, s) == []
    decreases |s|
  {
    if s != [] {
      PickNone(f, s[1..]);
    }
  }

  lemma {:induction false} PickFirst<S, T>(f: S -> Option<T>, x: S, s: seq<S>)
    requires forall i :: 0 <= i < |s| ==> f(s[i]).None?
    ensures Pick(f, [x] + s) == if f(x).Some? then [f(x).value] else []
  {
    assert ([x] + s)[1..] == s;
    PickNone(f, s);
  }

  /** What is picked from the signals of a process is what is picked from what each event says. */
  lemma {:induction false} PickedSignals<T(!new)>(
      f: Signal -> Option<T>, adds: (World, Event) -> seq<T>, w0: World, es: seq<Event>, n: nat)
    requires n <= |es|
    requires forall w, e :: Pick(f, Says(w, e)) == adds(w, e)
    ensures Pick(f, At(w0, es, n).d.trace) == Story(Step, adds, Pick(f, w0.d.trace), w0, es, n)
  {
    var field := (w: World) => Pick(f, w.d.trace);
    forall w, e ensures field(Step(w, e)) == (if e.Restart? then [] else field(w)) + adds(w, e) {
      StepSays(w, e);
      PickBoth(f, if e.Restart? then [] else w.d.trace, Says(w, e));
    }
    StoryIs(Step, field, adds, w0, es, n);
  }

  // ---- Identifications ----

  function NameSaid(s: Signal): Option<string> {
    if s.Identified? then Some(s.name) else None
  }

  /** A recognized id is delivered: its name in the index, or a made-up one exactly if it is not there. */
  function Recognizes(w: World, e: Event): seq<string> {
    if e.Dispatch? && w.queue != [] && w.queue[0].Authenticated? then
      var id := w.queue[0].id;
      [if id in w.d.names then w.d.names[id] else "Unknown " + Decimal(id)]
    else []
  }

  /** Only deliveries say names or report a verification. */
  lemma {:induction false} OthersSayNeither(w: World, e: Event)
    requires !e.Dispatch?
    ensures forall i :: 0 <= i < |Says(w, e)| ==> !Says(w, e)[i].Identified? && !Says(w, e)[i].Verified?
  {
  }

  lemma {:induction false} DeliveryNames(d: Daemon, n: Notice)
    ensures Pick(NameSaid, OnDelivery(d, n)) == if n.Authenticated? then [NameFor(d.names, n.id)] else []
  {
    if n.Authenticated? {
      PickFirst(NameSaid, Identified(NameFor(d.names, n.id)), BackToIdle(d.state));
    } else {
      PickNone(NameSaid, OnDelivery(d, n));
    }
  }

  lemma {:induction false} IdentifiedSaid(w: World, e: Event)
    ensures Pick(NameSaid, Says(w, e)) == Recognizes(w, e)
  {
    if e.Dispatch? {
      if w.queue != [] {
        DeliveryNames(w.d, w.queue[0]);
      }
    } else {
      OthersSayNeither(w, e);
      PickNone(NameSaid, Says(w, e));
    }
  }

  lemma {:induction false} OpeningSaysNeither(t: seq<Signal>, gs: int, st: int)
    requires t == Opening(gs, st)
    ensures forall i :: 0 <= i < |t| ==> !t[i].Identified? && !t[i].Verified? && !t[i].Added?
  {
  }

  lemma {:induction false} SilentPicks(t: seq<Signal>)
    requires forall i :: 0 <= i < |t| ==> !t[i].Identified? && !t[i].Verified? && !t[i].Added?
    ensures Pick(NameSaid, t) == [] && Pick(VerifiedSaid, t) == [] && Pick(NameAdded, t) == [] && Placed(t)
  {
    PickNone(NameSaid, t);
    PickNone(VerifiedSaid, t);
    PickNone(NameAdded, t);
  }

  lemma {:induction false} PoweredIsSilent(w0: World)
    requires Powered(w0)
    ensures var t := w0.d.trace;
      Pick(NameSaid, t) == [] && Pick(VerifiedSaid, t) == [] && Pick(NameAdded, t) == [] && Placed(t)
  {
    PoweredOpens(w0);
    var gs, st :| w0.d.trace == Opening(gs, st);
    OpeningSaysNeither(w0.d.trace, gs, st);
    SilentPicks(w0.d.trace);
  }

  /** On every run the Identified signals of a process are, in order and one for one, the recognized ids
      that were delivered to it, each under its name in the index at that moment. */
  lemma {:induction false} IdentificationsAreNamed(w0: World, es: seq<Event>, n: nat)
    requires Powered(w0) && n <= |es|
    ensures Pick(NameSaid, At(w0, es, n).d.trace) == Story(Step, Recognizes, [], w0, es, n)
  {
    forall w, e ensures Pick(NameSaid, Says(w, e)) == Recognizes(w, e) {
      IdentifiedSaid(w, e);
    }
    PickedSignals(NameSaid, Recognizes, w0, es, n);
    PoweredIsSilent(w0);
  }

  // ---- Verifications ----

  function VerifiedSaid(s: Signal): Option<Signal> {
    if s.Verified? then Some(s) else None
  }

  /** The first progress is delivered to a verification. */
  function Completes(w: World, e: Event): seq<Signal> {
    if e.Dispatch? && w.queue != [] && w.queue[0].EnrollProgress? && w.d.state == Verifying then [Verified] else []
  }

  lemma {:induction false} DeliveryVerifies(d: Daemon, n: Notice)
    ensures Pick(VerifiedSaid, OnDelivery(d, n))
         == if n.EnrollProgress? && d.state == Verifying then [Verified] else []
  {
    var s := OnDelivery(d, n);
    if n.EnrollProgress? && d.state == Verifying {
      var tail := [Aborted, StateChanged(Idle)];
      assert s == [s[0]] + ([Verified] + tail);
      PickBoth(VerifiedSaid, [s[0]], [Verified] + tail);
      PickNone(VerifiedSaid, [s[0]]);
      PickFirst(VerifiedSaid, Verified, tail);
    } else {
      PickNone(VerifiedSaid, s);
    }
  }

  lemma {:induction false} VerifiedIsSaid(w: World, e: Event)
    ensures Pick(VerifiedSaid, Says(w, e)) == Completes(w, e)
  {
    if e.Dispatch? {
      if w.queue != [] {
        DeliveryVerifies(w.d, w.queue[0]);
      }
    } else {
      OthersSayNeither(w, e);
      PickNone(VerifiedSaid, Says(w, e));
    }
  }

  /** Every Verified stands between a progress and the abort that ends the verification. */
  ghost predicate Placed(t: seq<Signal>) {
    forall i :: 0 <= i < |t| && t[i] == Verified ==>
      0 < i && t[i - 1].EnrollProgressChanged? && i + 1 < |t| && t[i + 1] == Aborted
  }

  lemma {:induction false} PlacedBoth(a: seq<Signal>, b: seq<Signal>)
    requires Placed(a) && Placed(b)
    ensures Placed(a + b)
  {
  }

  lemma {:induction false} OtherDeliveriesVerifyNothing(d: Daemon, n: Notice)
    requires !n.EnrollProgress?
    ensures forall i :: 0 <= i < |OnDelivery(d, n)| ==> !OnDelivery(d, n)[i].Verified?
  {
  }

  lemma {:induction false} DeliveryPlaced(d: Daemon, n: Notice)
    ensures Placed(OnDelivery(d, n))
  {
    if !n.EnrollProgress? {
      OtherDeliveriesVerifyNothing(d, n);
    }
  }

  lemma {:induction false} SaysPlaced(w: World, e: Event)
    ensures Placed(Says(w, e))
  {
    if e.Dispatch? {
      if w.queue != [] {
        DeliveryPlaced(w.d, w.queue[0]);
      }
    } else {
      OthersSayNeither(w, e);
    }
  }

  lemma {:induction false} StepPlaced(w: World, e: Event)
    requires Placed(w.d.trace)
    ensures Placed(Step(w, e).d.trace)
  {
    StepSays(w, e);
    SaysPlaced(w, e);
    PlacedBoth(if e.Restart? then [] else w.d.trace, Says(w, e));
  }

  lemma {:induction false} PlacedAlong(w0: World, es: seq<Event>, n: nat)
    requires Powered(w0) && n <= |es|
    ensures Placed(At(w0, es, n).d.trace)
  {
    PoweredIsSilent(w0);
    var inv := (w: World) => Placed(w.d.trace);
    forall w, e: Event | inv(w) ensures inv(Step(w, e)) {
      StepPlaced(w, e);
    }
    Runs.Always(Step, inv, w0, es, n);
  }

  /** On every run the Verified signals of a process are, in order and one for one, the deliveries of a
      progress to a verification; each directly follows that progress and is directly followed by the
      abort. */
  lemma {:induction false} VerificationsAreReported(w0: World, es: seq<Event>, n: nat)
    requires Powered(w0) && n <= |es|
    ensures var t := At(w0, es, n).d.trace;
      && Pick(VerifiedSaid, t) == Story(Step, Completes, [], w0, es, n)
      && forall i :: 0 <= i < |t| && t[i] == Verified ==>
           0 < i && t[i - 1].EnrollProgressChanged? && i + 1 < |t| && t[i + 1] == Aborted
  {
    forall w, e ensures Pick(VerifiedSaid, Says(w, e)) == Completes(w, e) {
      VerifiedIsSaid(w, e);
    }
    PickedSignals(VerifiedSaid, Completes, w0, es, n);
    PoweredIsSilent(w0);
    PlacedAlong(w0, es, n);
  }

  // ---- Cancellations ----

  function CancelAsked(r: HalRequest): Option<HalRequest> {
    if r.AskCancel? then Some(r) else None
  }

  /** An accepted Abort, the first progress of a verification, or the expiry of the timer. */
  function Cancels(w: World, e: Event): seq<HalRequest> {
    match e
    case CallAbort(caller) =>
      if (w.d.caller == "" || w.d.caller == caller) && w.d.state != Idle then [AskCancel] else []
    case Dispatch(_, _) =>
      if w.queue != [] && w.queue[0].EnrollProgress? && w.d.state == Verifying then [AskCancel] else []
    case TimerFires => if w.d.timer.Some? && w.clock >= w.d.timer.value then [AskCancel] else []
    case _ => []
  }

  lemma {:induction false} CancelIsAsked(w: World, e: Event)
    ensures Pick(CancelAsked, Asks(w, e)) == Cancels(w, e)
  {
    if Cancels(w, e) != [] {
      PickFirst(CancelAsked, AskCancel, []);
      assert [AskCancel] + [] == [AskCancel];
    } else {
      PickNone(CancelAsked, Asks(w, e));
    }
  }

  lemma {:induction false} StepCancels(w: World, e: Event)
    ensures Pick(CancelAsked, Step(w, e).d.fp.requests)
         == (if e.Restart? then [] else Pick(CancelAsked, w.d.fp.requests)) + Cancels(w, e)
  {
    StepAsks(w, e);
    PickBoth(CancelAsked, if e.Restart? then [] else w.d.fp.requests, Asks(w, e));
    CancelIsAsked(w, e);
  }

  lemma {:induction false} PoweredCancelsNothing(w0: World)
    requires Powered(w0)
    ensures Pick(CancelAsked, w0.d.fp.requests) == []
  {
    PoweredOpens(w0);
    PickNone(CancelAsked, w0.d.fp.requests);
  }

  /** On every run the cancel requests of a process are, in order and one for one, the accepted Aborts, the
      progresses delivered to a verification and the timer expiries. */
  lemma {:induction false} CancellationsReachTheHal(w0: World, es: seq<Event>, n: nat)
    requires Powered(w0) && n <= |es|
    ensures Pick(CancelAsked, At(w0, es, n).d.fp.requests) == Story(Step, Cancels, [], w0, es, n)
  {
    PoweredCancelsNothing(w0);
    var field := (w: World) => Pick(CancelAsked, w.d.fp.requests);
    forall w, e ensures field(Step(w, e)) == (if e.Restart? then [] else field(w)) + Cancels(w, e) {
      StepCancels(w, e);
    }
    StoryIs(Step, field, Cancels, w0, es, n);
  }

  // ---- Failures ----

  function MessageSaid(s: Signal): Option<Message> {
    if s.ErrorInfo? then Some(s.message) else None
  }

  /** A delivered failure, a refused request, or the two requests of a new process. */
  function Fails(w: World, e: Event): seq<Message> {
    match e
    case Dispatch(_, _) => if w.queue != [] && w.queue[0].FailedWith? then [w.queue[0].message] else []
    case Restart(gs, st) =>
      (if gs == 0 then [] else [GroupRefused(gs)]) + (if st == 0 then [] else [RequestRefused(st)])
    case _ => if Reaches(w.d, e) && e.status != 0 then [RequestRefused(e.status)] else []
  }

  lemma {:induction false} RefusedPick(before: seq<Signal>, status: int, after: seq<Signal>)
    requires forall s :: s in before || s in after ==> !s.ErrorInfo?
    ensures Pick(MessageSaid, before + Refused(status) + after) == if status == 0 then [] else [RequestRefused(status)]
  {
    PickBoth(MessageSaid, before + Refused(status), after);
    PickBoth(MessageSaid, before, Refused(status));
    PickNone(MessageSaid, before);
    PickNone(MessageSaid, after);
    if status != 0 {
      PickFirst(MessageSaid, ErrorInfo(RequestRefused(status)), [Failed, StateChanged(Idle)]);
      assert Refused(status) == [ErrorInfo(RequestRefused(status))] + [Failed, StateChanged(Idle)];
    }
  }

  lemma {:induction false} OpeningPick(gs: int, st: int)
    ensures Pick(MessageSaid, Opening(gs, st))
         == (if gs == 0 then [] else [GroupRefused(gs)]) + (if st == 0 then [] else [RequestRefused(st)])
  {
    var group := if gs == 0 then [] else [ErrorInfo(GroupRefused(gs))];
    var rest := [StateChanged(Enumerating)] + Refused(st);
    assert Opening(gs, st) == group + rest;
    assert rest == [StateChanged(Enumerating)] + Refused(st) + [];
    PickBoth(MessageSaid, group, rest);
    RefusedPick([StateChanged(Enumerating)], st, []);
    if gs != 0 {
      PickFirst(MessageSaid, ErrorInfo(GroupRefused(gs)), []);
      assert group == [ErrorInfo(GroupRefused(gs))] + [];
    }
  }

  lemma {:induction false} RequestFails(w: World, e: Event)
    requires Reaches(w.d, e)
    ensures Pick(MessageSaid, Says(w, e)) == Fails(w, e)
  {
    var end := if e.CallEnroll? || e.CallVerify? then [EnrollProgressChanged(Some(0))] else [];
    var s := Says(w, e);
    assert s == [s[0]] + Refused(e.status) + end;
    RefusedPick([s[0]], e.status, end);
  }

  lemma {:induction false} FailureIsSaid(w: World, e: Event)
    ensures Pick(MessageSaid, Says(w, e)) == Fails(w, e)
  {
    if Reaches(w.d, e) {
      RequestFails(w, e);
    } else if e.Restart? {
      OpeningPick(e.groupStatus, e.enumerateStatus);
    } else if e.Dispatch? && w.queue != [] && w.queue[0].FailedWith? {
      var s := Says(w, e);
      assert s == [s[0]] + s[1..];
      PickFirst(MessageSaid, s[0], s[1..]);
    } else {
      PickNone(MessageSaid, Says(w, e));
    }
  }

  /** On every run the ErrorInfo signals of a process are, in order and one for one, its failures, each with
      its own message: those of its first two requests, of refused client requests, and those delivered. */
  lemma {:induction false} FailuresAreReported(w0: World, es: seq<Event>, n: nat)
    requires Powered(w0) && n <= |es|
    ensures Pick(MessageSaid, At(w0, es, n).d.trace)
         == Story(Step, Fails, Pick(MessageSaid, w0.d.trace), w0, es, n)
  {
    forall w, e ensures Pick(MessageSaid, Says(w, e)) == Fails(w, e) {
      FailureIsSaid(w, e);
    }
    PickedSignals(MessageSaid, Fails, w0, es, n);
  }

  // ---- Enrolments ----

  function NameAdded(s: Signal): Option<string> {
    if s.Added? then Some(s.name) else None
  }

  predicate DeliversSuccess(w: World, e: Event) {
    e.Dispatch? && w.queue != [] && w.queue[0].Succeeded?
  }

  /** The name of the last enrolment request that reached the HAL in this process - accepted or not - and
      that no success has used up; the empty name otherwise. */
  ghost function Pending(step: (World, Event) -> World, w0: World, es: seq<Event>, n: nat): string
    requires n <= |es|
  {
    if n == 0 then "" else
      var w, e := Runs.After(step, w0, es, n - 1), es[n - 1];
      if e.CallEnroll? && Reaches(w.d, e) then e.name
      else if DeliversSuccess(w, e) || e.Restart? then ""
      else Pending(step, w0, es, n - 1)
  }

  function Adds(w: World, e: Event): seq<string> {
    if DeliversSuccess(w, e) then [w.d.adding] else []
  }

  lemma {:induction false} OthersAddNothing(w: World, e: Event)
    requires !e.Dispatch?
    ensures forall i :: 0 <= i < |Says(w, e)| ==> !Says(w, e)[i].Added?
  {
  }

  lemma {:induction false} DeliveryAdds(d: Daemon, n: Notice)
    ensures Pick(NameAdded, OnDelivery(d, n)) == if n.Succeeded? then [d.adding] else []
  {
    if n.Succeeded? {
      var tail := [ListChanged] + BackToIdle(d.state);
      assert OnDelivery(d, n) == [Added(d.adding)] + tail;
      PickFirst(NameAdded, Added(d.adding), tail);
    } else {
      PickNone(NameAdded, OnDelivery(d, n));
    }
  }

  lemma {:induction false} AddedIsSaid(w: World, e: Event)
    ensures Pick(NameAdded, Says(w, e)) == Adds(w, e)
  {
    if e.Dispatch? {
      if w.queue != [] {
        DeliveryAdds(w.d, w.queue[0]);
      }
    } else {
      OthersAddNothing(w, e);
      PickNone(NameAdded, Says(w, e));
    }
  }

  lemma {:induction false} PendingIs(step: (World, Event) -> World, w0: World, es: seq<Event>, n: nat)
    requires n <= |es| && w0.d.adding == ""
    requires forall w, e :: step(w, e).d.adding == UniqueNames.AddingNext(w, e)
    ensures Runs.After(step, w0, es, n).d.adding == Pending(step, w0, es, n)
  {
    if n > 0 {
      PendingIs(step, w0, es, n - 1);
      var w := Runs.After(step, w0, es, n - 1);
      assert step(w, es[n - 1]).d.adding == UniqueNames.AddingNext(w, es[n - 1]);
    }
  }

  lemma {:induction false} PendingAlong(w0: World, es: seq<Event>, n: nat)
    requires Powered(w0) && n <= |es|
    ensures At(w0, es, n).d.adding == Pending(Step, w0, es, n)
  {
    var gs, st :| w0 == Power(w0.d.fp.rounding, w0.d.database, w0.hal.templates, w0.clock, gs, st);
    UniqueNames.BootAdding(w0.d.fp.rounding, w0.d.database, gs, st);
    forall w, e ensures Step(w, e).d.adding == UniqueNames.AddingNext(w, e) {
      UniqueNames.StepAdding(w, e);
    }
    PendingIs(Step, w0, es, n);
  }

  /** On every run the Added signals of a process are, in order and one for one, the successes delivered to
      it, each under the pending name: that of the last enrolment request not yet used up. */
  lemma {:induction false} EnrolmentsAreNamed(w0: World, es: seq<Event>, n: nat)
    requires Powered(w0) && n <= |es|
    ensures Pick(NameAdded, At(w0, es, n).d.trace) == Story(Step, Adds, [], w0, es, n)
    ensures At(w0, es, n).d.adding == Pending(Step, w0, es, n)
  {
    forall w, e ensures Pick(NameAdded, Says(w, e)) == Adds(w, e) {
      AddedIsSaid(w, e);
    }
    PickedSignals(NameAdded, Adds, w0, es, n);
    PoweredIsSilent(w0);
    PendingAlong(w0, es, n);
  }

  /** And the delivery of a success enters its id under that name and changes nothing else in the index. */
  lemma {:induction false} SuccessEntersPendingName(w0: World, es: seq<Event>, n: nat)
    requires Powered(w0) && n < |es|
    requires DeliversSuccess(At(w0, es, n), es[n])
    ensures At(w0, es, n + 1).d.names
         == At(w0, es, n).d.names[At(w0, es, n).queue[0].id := Pending(Step, w0, es, n)]
  {
    PendingAlong(w0, es, n);
    SuccessEnters(At(w0, es, n), es[n]);
  }

  lemma {:induction false} SuccessEnters(w: World, e: Event)
    requires DeliversSuccess(w, e)
    ensures Step(w, e).d.names == w.d.names[w.queue[0].id := w.d.adding]
  {
    UniqueNames.IndexNoticeNames(w.d, w.queue[0], e.readable, e.writable);
  }

  // ---- Notices ----

  function Delivers(w: World, e: Event): seq<Notice> {
    if e.Dispatch? && w.queue != [] then [Plain(w.queue[0])] else []
  }

  function PostedBy(w: World, e: Event): seq<Notice> {
    if e.HalCallback? then Posts(w.d.fp.removing, e.cb) else []
  }

  /** A step conserves notices. */
  ghost predicate Conserves(step: (World, Event) -> World) {
    forall w: World, e: Event :: if e.Restart? then step(w, e).queue == []
                   else Plains(w.queue) + PostedBy(w, e) == Delivers(w, e) + Plains(step(w, e).queue)
  }

  lemma {:induction false} StepConserves(w: World, e: Event)
    requires !e.Restart?
    ensures Plains(w.queue) + PostedBy(w, e) == Delivers(w, e) + Plains(Step(w, e).queue)
  {
    StepPosts(w, e);
    var q := Step(w, e).queue;
    if e.HalCallback? {
      assert q == w.queue + q[|w.queue|..];
    }
  }

  lemma {:induction false} Regroup<T>(given: seq<T>, next: seq<T>, left: seq<T>, before: seq<T>, posted: seq<T>)
    requires before + posted == next + left
    ensures (given + next) + left == (given + before) + posted
  {
    assert (given + next) + left == given + (next + left);
    assert (given + before) + posted == given + (before + posted);
  }

  lemma {:induction false} NothingIsLost(step: (World, Event) -> World, w0: World, es: seq<Event>, n: nat)
    requires n <= |es| && w0.queue == [] && Conserves(step)
    ensures Story(step, Delivers, [], w0, es, n) + Plains(Runs.After(step, w0, es, n).queue)
         == Story(step, PostedBy, [], w0, es, n)
  {
    if n > 0 {
      NothingIsLost(step, w0, es, n - 1);
      var w, e := Runs.After(step, w0, es, n - 1), es[n - 1];
      if e.Restart? {
        assert step(w, e).queue == [];
        assert Plains([]) == [];
      } else {
        Regroup(Story(step, Delivers, [], w0, es, n - 1), Delivers(w, e), Plains(step(w, e).queue),
                Plains(w.queue), PostedBy(w, e));
      }
    }
  }

  /** On every run the notices delivered to a process, followed by those still queued, are exactly what the
      HAL's callbacks posted, in order, up to the values of progresses. */
  lemma {:induction false} NoticesArriveInOrder(w0: World, es: seq<Event>, n: nat)
    requires Powered(w0) && n <= |es|
    ensures Story(Step, Delivers, [], w0, es, n) + Plains(At(w0, es, n).queue)
         == Story(Step, PostedBy, [], w0, es, n)
  {
    Persistence.PoweredFresh(w0);
    forall w: World, e: Event
      ensures if e.Restart? then Step(w, e).queue == []
              else Plains(w.queue) + PostedBy(w, e) == Delivers(w, e) + Plains(Step(w, e).queue)
    {
      if !e.Restart? {
        StepConserves(w, e);
      }
    }
    NothingIsLost(Step, w0, es, n);
  }
}
