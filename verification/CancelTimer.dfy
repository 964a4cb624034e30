/** The identification timer: when it runs, what it bounds, and what else it can end. */
module CancelTimer {
  import opened Vocabulary
  import opened DaemonSpec
  import opened RequestShape
  import opened System
  import opened TraceGrammar
  import opened Sessions
  import Adapter = AdapterSpec
  import Runs

  predicate ArmsTimer(w: World, e: Event) {
    e.CallIdentify? && Reaches(w.d, e)
  }

  /** The event stops the timer, or is its expiry, or starts a new process. */
  predicate StopsTimer(w: World, e: Event) {
    match e
    case CallAbort(caller) => Permits(w.d, caller) && w.d.state != Idle
    case Dispatch(_, _) =>
      && w.queue != []
      && (w.queue[0].Authenticated? || (w.queue[0].EnrollProgress? && w.d.state == Verifying))
    case TimerFires => TimerDue(w)
    case Restart(_, _) => true
    case _ => false
  }

  function TimerAfter(w: World, e: Event): Option<nat> {
    if ArmsTimer(w, e) then Some(w.clock + CANCEL_INTERVAL)
    else if StopsTimer(w, e) then None
    else w.d.timer
  }

  lemma {:induction false} RequestTimer(w: World, e: Event)
    requires Reaches(w.d, e)
    ensures Step(w, e).d.timer == TimerAfter(w, e)
  {
    ReachingShape(w, e);
    RequestedOutcome(Asking(w, e), Asked(w.d, e), e.status);
  }

  lemma {:induction false} NoticeTimer(w: World, e: Event)
    requires e.Dispatch? && w.queue != []
    ensures Step(w, e).d.timer == TimerAfter(w, e)
  {
    match w.queue[0] {
      case EnrollProgress(progress) =>
      case Succeeded(id) =>
      case FailedWith(message) =>
      case RemovedId(id) =>
      case AcquiredCode(code) =>
      case Authenticated(id) =>
      case Enumerated =>
    }
  }

  lemma {:induction false} StepTimer(w: World, e: Event)
    ensures Step(w, e).d.timer == TimerAfter(w, e)
  {
    match e {
      case Dispatch(readable, writable) =>
        if w.queue != [] {
          NoticeTimer(w, e);
        }
      case Restart(groupStatus, enumerateStatus) =>
        BootOwner(w.d.fp.rounding, w.d.database, groupStatus, enumerateStatus);
      case CallAbort(caller) =>
      case HalCallback(cb) =>
      case TimerFires =>
      case Advance(ms) =>
      case _ =>
        if Reaches(w.d, e) {
          RequestTimer(w, e);
        } else {
          RejectedRequestsDoNothing(w, e);
        }
    }
  }

  // ---- When the timer runs ----

  ghost predicate Timed(step: (World, Event) -> World) {
    forall w, e :: step(w, e).d.timer == TimerAfter(w, e)
  }

  /** The timer was armed at i and nothing has stopped or rearmed it since. */
  ghost predicate ArmedAt(step: (World, Event) -> World, w0: World, es: seq<Event>, i: nat, n: nat)
    requires i < n <= |es|
  {
    && ArmsTimer(Runs.After(step, w0, es, i), es[i])
    && forall j :: i < j < n ==>
         !StopsTimer(Runs.After(step, w0, es, j), es[j]) && !ArmsTimer(Runs.After(step, w0, es, j), es[j])
  }

  lemma {:induction false} RunningWasArmed(step: (World, Event) -> World, w0: World, es: seq<Event>, n: nat)
    returns (i: nat)
    requires Timed(step) && n <= |es| && w0.d.timer == None
    requires Runs.After(step, w0, es, n).d.timer.Some?
    ensures i < n && ArmedAt(step, w0, es, i, n)
  {
    var now := (w: World) => w.d.timer.Some?;
    forall k | 0 <= k < n ensures Runs.Explained(step, now, ArmsTimer, w0, es, k) {
      var w := Runs.After(step, w0, es, k);
      assert step(w, es[k]).d.timer == TimerAfter(w, es[k]);
    }
    i := Runs.Since(step, now, ArmsTimer, w0, es, n);
    forall j | i < j < n ensures !StopsTimer(Runs.After(step, w0, es, j), es[j]) {
      assert now(Runs.After(step, w0, es, j + 1));
      var w := Runs.After(step, w0, es, j);
      assert step(w, es[j]).d.timer == TimerAfter(w, es[j]);
    }
  }

  lemma {:induction false} ArmedRuns(
      step: (World, Event) -> World, w0: World, es: seq<Event>, i: nat, n: nat)
    requires Timed(step) && i < n <= |es|
    requires ArmedAt(step, w0, es, i, n)
    ensures Runs.After(step, w0, es, n).d.timer == Some(Runs.After(step, w0, es, i).clock + CANCEL_INTERVAL)
  {
    var deadline := Some(Runs.After(step, w0, es, i).clock + CANCEL_INTERVAL);
    var inv := (w: World) => w.d.timer == deadline;
    var w := Runs.After(step, w0, es, i);
    assert step(w, es[i]).d.timer == TimerAfter(w, es[i]);
    assert inv(Runs.After(step, w0, es, i + 1));
    forall k | i + 1 <= k < n ensures Runs.Carried(step, inv, w0, es, k) {
      var w := Runs.After(step, w0, es, k);
      assert step(w, es[k]).d.timer == TimerAfter(w, es[k]);
    }
    Runs.Stays(step, inv, w0, es, i + 1, n);
  }

  /** The timer runs if and only if it was armed and neither stopped nor rearmed since, and then with
      the deadline that the arming gave it. */
  ghost predicate TimerIsArmed(step: (World, Event) -> World, w0: World, es: seq<Event>, n: nat)
    requires n <= |es|
  {
    var timer := Runs.After(step, w0, es, n).d.timer;
    && (timer.Some? <==> exists i :: 0 <= i < n && ArmedAt(step, w0, es, i, n))
    && forall i :: 0 <= i < n && ArmedAt(step, w0, es, i, n) ==>
         timer == Some(Runs.After(step, w0, es, i).clock + 30000)
  }

  lemma {:induction false} RunsIffArmed(step: (World, Event) -> World, w0: World, es: seq<Event>, n: nat)
    requires Timed(step) && n <= |es| && w0.d.timer == None
    ensures TimerIsArmed(step, w0, es, n)
  {
    if Runs.After(step, w0, es, n).d.timer.Some? {
      var i := RunningWasArmed(step, w0, es, n);
    }
    forall i | 0 <= i < n && ArmedAt(step, w0, es, i, n)
      ensures Runs.After(step, w0, es, n).d.timer == Some(Runs.After(step, w0, es, i).clock + CANCEL_INTERVAL)
    {
      ArmedRuns(step, w0, es, i, n);
    }
  }

  lemma {:induction false} StepIsTimed()
    ensures Timed(Step)
  {
    forall w, e ensures Step(w, e).d.timer == TimerAfter(w, e) {
      StepTimer(w, e);
    }
  }

  /** The timer runs exactly while a started identification - however it ended - has been followed by
      no accepted Abort, no authentication, no verification and no expiry; its deadline is 30 s after
      that start. */
  lemma {:induction false} TimerRunsIffArmed(w0: World, es: seq<Event>, n: nat)
    requires Powered(w0) && n <= |es|
    ensures TimerIsArmed(Step, w0, es, n)
  {
    PoweredOwner(w0);
    StepIsTimed();
    RunsIffArmed(Step, w0, es, n);
  }

  // ---- What it bounds ----

  /** Time does not pass a running timer's deadline before the timer is delivered. */
  predicate Prompt(w: World, e: Event) {
    e.Advance? && w.d.timer.Some? ==> w.clock + e.ms <= w.d.timer.value
  }

  predicate OnTime(w: World) {
    w.d.timer.Some? ==> w.clock <= w.d.timer.value
  }

  lemma {:induction false} StepOnTime(w: World, e: Event)
    requires OnTime(w) && Prompt(w, e)
    ensures OnTime(Step(w, e))
  {
    StepTimer(w, e);
    assert Step(w, e).clock == if e.Advance? then w.clock + e.ms else w.clock;
  }

  /** With prompt timers an identification is within 30 s of the request that started it, however
      many fingers were not recognized, and its timer has stood at that deadline all along. */
  lemma {:induction false} IdentificationIsBounded(w0: World, es: seq<Event>, n: nat) returns (i: nat)
    requires Powered(w0) && n <= |es|
    requires Runs.Throughout(Step, Prompt, w0, es, n)
    requires At(w0, es, n).d.state == Identifying
    ensures i < n && es[i].CallIdentify? && Begins(At(w0, es, i), es[i], Identifying, es[i].caller)
    ensures At(w0, es, n).d.timer == Some(At(w0, es, i).clock + 30000)
    ensures At(w0, es, n).clock <= At(w0, es, i).clock + 30000
    ensures forall j :: i < j <= n ==> SameSession(At(w0, es, n).d, At(w0, es, i).clock, At(w0, es, j).d)
  {
    i := SessionOrigin(w0, es, n);
    PoweredOwner(w0);
    forall w, e | OnTime(w) && Prompt(w, e) ensures OnTime(Step(w, e)) {
      StepOnTime(w, e);
    }
    Runs.Invariant(Step, OnTime, Prompt, w0, es, n);
  }

  // ---- What else it can end ----

  /** An expiry ends whatever the daemon is doing. */
  lemma {:induction false} ExpiryEndsAnything(w: World)
    requires TimerDue(w)
    ensures var d := Step(w, TimerFires).d;
      && d.state == Idle && d.caller == "" && d.timer == None
      && Failed in d.trace[|w.d.trace|..]
  {
    var failed := Emit(w.d.(fp := Adapter.Cancel(w.d.fp), timer := None), Failed);
    assert failed.trace[|w.d.trace|] == Failed;
    assert Step(w, TimerFires).d.trace[|w.d.trace|] == Failed;
  }

  /** An enrolment that starts while the daemon is idle and the timer runs is ended at the deadline. */
  lemma {:induction false} StaleTimerEndsEnrolment(w: World, name: string, caller: string, deadline: nat)
    requires w.d.state == Idle && Permits(w.d, caller) && name !in w.d.names.Values
    requires w.d.timer == Some(deadline) && w.clock <= deadline
    ensures var w1 := Step(w, CallEnroll(name, caller, SYS_OK));
            var wait := Advance(deadline - w.clock);
            var w2 := Step(w1, wait);
            var w3 := Step(w2, TimerFires);
      && w1.d.state == w2.d.state == Enrolling && Prompt(w1, wait)
      && w3.d.state == Idle && Failed in w3.d.trace[|w2.d.trace|..]
  {
    var w1 := Step(w, CallEnroll(name, caller, SYS_OK));
    AcceptedEnroll(w, name, caller);
    ExpiryEndsAnything(Step(w1, Advance(deadline - w.clock)));
  }

  lemma {:induction false} AcceptedEnroll(w: World, name: string, caller: string)
    requires w.d.state == Idle && Permits(w.d, caller) && name !in w.d.names.Values
    ensures var w' := Step(w, CallEnroll(name, caller, SYS_OK));
      w'.d.state == Enrolling && w'.d.timer == w.d.timer && w'.clock == w.clock
  {
  }

  // ---- When a running timer is stale ----

  /** Nothing has ended the operation that event i started. */
  ghost predicate Unsettled(step: (World, Event) -> World, w0: World, es: seq<Event>, i: nat, n: nat)
    requires n <= |es|
  {
    forall j :: i < j < n ==> !Settles(Runs.After(step, w0, es, j), es[j])
  }

  lemma {:induction false} UnsettledIdentifies(
      step: (World, Event) -> World, w0: World, es: seq<Event>, i: nat, n: nat)
    requires Owned(step) && i < n <= |es|
    requires ArmsTimer(Runs.After(step, w0, es, i), es[i]) && es[i].status == SYS_OK
    requires Unsettled(step, w0, es, i, n)
    ensures Runs.After(step, w0, es, n).d.state == Identifying
  {
    var inv := (w: World) => w.d.state == Identifying;
    assert OwnerStep(Runs.After(step, w0, es, i), es[i], Runs.After(step, w0, es, i + 1).d);
    forall k | i + 1 <= k < n ensures Runs.Carried(step, inv, w0, es, k) {
      assert OwnerStep(Runs.After(step, w0, es, k), es[k], Runs.After(step, w0, es, k + 1).d);
    }
    Runs.Stays(step, inv, w0, es, i + 1, n);
  }

  lemma {:induction false} IdentifyingIsUnsettled(
      step: (World, Event) -> World, w0: World, es: seq<Event>, i: nat, n: nat)
    requires Owned(step) && i < n <= |es| && (w0.d.state == Idle || w0.d.state == Enumerating)
    requires ArmedAt(step, w0, es, i, n)
    requires Runs.After(step, w0, es, n).d.state == Identifying
    ensures es[i].status == SYS_OK && Unsettled(step, w0, es, i, n)
  {
    var k := OriginOf(step, w0, es, n);
    assert ArmsTimer(Runs.After(step, w0, es, k), es[k]);
    if k < i {
      assert false;
    }
    forall j | i < j < n ensures !Settles(Runs.After(step, w0, es, j), es[j]) {
      assert OwnerStep(Runs.After(step, w0, es, j), es[j], Runs.After(step, w0, es, j + 1).d);
    }
  }

  /** A running timer means an identification exactly when the HAL accepted the request that armed it
      and nothing has settled since: an identification that is refused, or that ends with a failure or
      with a late success, removal or enumeration, leaves a stale timer behind. */
  lemma {:induction false} RunningTimerIdentifiesIff(w0: World, es: seq<Event>, i: nat, n: nat)
    requires Powered(w0) && i < n <= |es|
    requires ArmedAt(Step, w0, es, i, n)
    ensures At(w0, es, n).d.state == Identifying <==>
            (es[i].status == SYS_OK && forall j :: i < j < n ==> !Settles(At(w0, es, j), es[j]))
  {
    PoweredOwner(w0);
    StepIsOwned();
    if At(w0, es, n).d.state == Identifying {
      IdentifyingIsUnsettled(Step, w0, es, i, n);
    } else if es[i].status == SYS_OK && Unsettled(Step, w0, es, i, n) {
      UnsettledIdentifies(Step, w0, es, i, n);
      assert false;
    }
  }

  /** An identification that the HAL refuses leaves its timer running. */
  lemma {:induction false} RefusalLeavesTimer(w: World, caller: string, refusal: int)
    requires w.d.state == Idle && Permits(w.d, caller) && w.d.names != map[] && refusal != SYS_OK
    ensures var w' := Step(w, CallIdentify(caller, refusal));
      && w'.d.state == Idle && w'.d.caller == "" && w'.d.names == w.d.names
      && w'.d.timer == Some(w.clock + CANCEL_INTERVAL) && w'.clock == w.clock
  {
  }

  /** So does one that ends with a hardware error. */
  lemma {:induction false} ErrorLeavesTimer(w: World, caller: string, error: int, vendorCode: int)
    requires w.d.state == Idle && Permits(w.d, caller) && w.d.names != map[]
    requires w.queue == [] && error != 0
    ensures var w1 := Step(w, CallIdentify(caller, SYS_OK));
            var w2 := Step(w1, HalCallback(ErrorResult(error, vendorCode)));
            var w3 := Step(w2, Dispatch(true, true));
      && w1.d.state == w2.d.state == Identifying
      && w3.d.state == Idle && w3.d.caller == "" && w3.d.names == w.d.names
      && w3.d.timer == Some(w.clock + CANCEL_INTERVAL) && w3.clock == w.clock
  {
    var w1 := Step(w, CallIdentify(caller, SYS_OK));
    AcceptedIdentify(w, caller);
    var w2 := Step(w1, HalCallback(ErrorResult(error, vendorCode)));
    assert w2.queue == [FailedWith(HardwareError(error, vendorCode))];
    ErrorEndsIdentification(w2, HardwareError(error, vendorCode));
  }

  lemma {:induction false} AcceptedIdentify(w: World, caller: string)
    requires w.d.state == Idle && Permits(w.d, caller) && w.d.names != map[]
    ensures var w' := Step(w, CallIdentify(caller, SYS_OK));
      && w'.d.state == Identifying && w'.d.names == w.d.names && w'.queue == w.queue
      && w'.d.timer == Some(w.clock + CANCEL_INTERVAL) && w'.clock == w.clock
  {
  }

  lemma {:induction false} ErrorEndsIdentification(w: World, message: Message)
    requires w.d.state == Identifying && message != FingerNotRecognized
    requires w.queue == [FailedWith(message)]
    ensures var w' := Step(w, Dispatch(true, true));
      && w'.d.state == Idle && w'.d.caller == "" && w'.d.names == w.d.names
      && w'.d.timer == w.d.timer && w'.clock == w.clock
  {
  }
}
