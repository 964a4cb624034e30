/** Who owns the lock, why, for how long, and what other clients can do about it: on every run and
    without any assumption about the HAL. */
module Sessions {
  import opened Vocabulary
  import opened DaemonSpec
  import opened RequestShape
  import opened System
  import opened TraceGrammar
  import Adapter = AdapterSpec
  import Runs

  predicate IsCall(e: Event) {
    e.CallEnroll? || e.CallIdentify? || e.CallVerify? || e.CallRemove? || e.CallClear? || e.CallAbort?
  }

  // ---- Isolation ----

  /** A request of a client while another one owns the lock. */
  predicate Foreign(w: World, e: Event) {
    IsCall(e) && w.d.caller != "" && e.caller != w.d.caller
  }

  lemma {:induction false} ForeignDoesNothing(w: World, e: Event)
    requires Foreign(w, e)
    ensures Step(w, e) == w
    ensures e.CallClear? || (ReplyTo(w, e) in {Some(AlreadyBusy), Some(AlreadyIdle)})
  {
  }

  /** Owner isolation: the run without the foreign requests ends in the same world - daemon, database,
      HAL requests, signals, queue and sensor - and the owner's i-th event meets the same world in
      both runs, so it gets the same reply. */
  lemma {:induction false} OwnerIsolation(w0: World, es: seq<Event>, i: nat, n: nat)
    requires i <= n <= |es|
    ensures var kept := Runs.Kept(Step, Foreign, w0, es, n);
            var met := Runs.Kept(Step, Foreign, w0, es, i);
      && At(w0, kept, |kept|) == At(w0, es, n)
      && |met| <= |kept|
      && At(w0, kept, |met|) == At(w0, es, i)
      && (i < n && !Foreign(At(w0, es, i), es[i]) ==> |met| < |kept| && kept[|met|] == es[i])
  {
    forall w, e | Foreign(w, e) ensures Step(w, e) == w {
      ForeignDoesNothing(w, e);
    }
    Runs.Erasure(Step, Foreign, w0, es, i, n);
    Runs.Erasure(Step, Foreign, w0, es, n, n);
    if i < n && !Foreign(At(w0, es, i), es[i]) {
      Runs.KeptInPlace(Step, Foreign, w0, es, i, n);
    }
  }

  // ---- The lock ----

  /** The request enters the busy state in a HAL that accepts it. */
  predicate Begins(w: World, e: Event, s: State, caller: string) {
    Reaches(w.d, e) && e.status == SYS_OK && s == Announces(e) && caller == e.caller
  }

  /** A Verify or Remove whose HAL request is refused: the lock is assigned after the failure. */
  predicate Leaks(w: World, e: Event, caller: string) {
    (e.CallVerify? || e.CallRemove?) && Reaches(w.d, e) && e.status != SYS_OK && caller == e.caller
  }

  /** The event makes the daemon go, or go again, to Idle - or start anew. */
  predicate Settles(w: World, e: Event) {
    match e
    case CallAbort(caller) => Permits(w.d, caller) && w.d.state != Idle
    case Dispatch(_, _) =>
      w.queue != [] &&
      (match w.queue[0]
       case EnrollProgress(_) => w.d.state == Verifying
       case FailedWith(message) =>
         w.d.state != Idle && !(w.d.state == Identifying && message == FingerNotRecognized)
       case AcquiredCode(_) => false
       case _ => true)
    case HalCallback(_) => false
    case TimerFires => TimerDue(w)
    case Advance(_) => false
    case Restart(_, _) => true
    case _ => Reaches(w.d, e) && e.status != SYS_OK
  }

  /** Where each state and owner comes from. */
  ghost predicate OwnerStep(w: World, e: Event, d': Daemon) {
    var d := w.d;
    && (d'.state != Idle && d'.state != Enumerating ==>
          || (Begins(w, e, d'.state, d'.caller)
              && (d'.state == Identifying ==> d'.timer == Some(w.clock + CANCEL_INTERVAL)))
          || (d'.state == d.state && d'.caller == d.caller
              && (d'.state == Identifying ==> d'.timer == d.timer)))
    && (d'.state == Enumerating && d'.caller != "" ==> d.state == Enumerating && d.caller != "")
    && (d'.state == Idle && d'.caller != "" ==>
          || Leaks(w, e, d'.caller)
          || (d.state == Idle && d.caller == d'.caller && !Settles(w, e)))
    && (d'.state == Idle && !Settles(w, e) ==> d.state == Idle && d'.caller == d.caller)
    && (forall c :: Leaks(w, e, c) ==> d'.state == Idle && d'.caller == c)
    && (Settles(w, e) ==> d'.state == Idle || d'.state == Enumerating)
    && (d'.state == Enumerating && d.state != Enumerating ==> Settles(w, e))
    && (Reaches(d, e) && e.status == SYS_OK ==> d'.state == Announces(e))
  }

  lemma {:induction false} RequestOwner(w: World, e: Event)
    requires Reaches(w.d, e)
    ensures OwnerStep(w, e, Step(w, e).d)
  {
    ReachingShape(w, e);
    RequestedOutcome(Asking(w, e), Asked(w.d, e), e.status);
  }

  lemma {:induction false} NoticeOwner(w: World, e: Event)
    requires e.Dispatch? && w.queue != []
    ensures OwnerStep(w, e, Step(w, e).d)
  {
    match w.queue[0] {
      case EnrollProgress(progress) =>
      case Succeeded(id) =>
      case FailedWith(message) =>
      case RemovedId(id) =>
      case AcquiredCode(code) =>
      case Authenticated(id) =>
      case Enumerated =>
    }
  }

  lemma {:induction false} BootOwner(rounding: Adapter.Rounding, database: Option<map<U32, string>>,
                                     groupStatus: int, enumerateStatus: int)
    ensures var d := Boot(rounding, database, groupStatus, enumerateStatus);
      d.caller == "" && (d.state == Idle || d.state == Enumerating) && d.timer == None
  {
  }

  lemma {:induction false} StepOwner(w: World, e: Event)
    ensures OwnerStep(w, e, Step(w, e).d)
  {
    match e {
      case Dispatch(readable, writable) =>
        if w.queue != [] {
          NoticeOwner(w, e);
        }
      case Restart(groupStatus, enumerateStatus) =>
        BootOwner(w.d.fp.rounding, w.d.database, groupStatus, enumerateStatus);
      case CallAbort(caller) =>
      case HalCallback(cb) =>
      case TimerFires =>
      case Advance(ms) =>
      case _ =>
        if Reaches(w.d, e) {
          RequestOwner(w, e);
        } else {
          RejectedRequestsDoNothing(w, e);
        }
    }
  }

  // ---- Whole runs ----

  /** All that the lemmas about runs need to know about a step. */
  ghost predicate Owned(step: (World, Event) -> World) {
    forall w, e :: OwnerStep(w, e, step(w, e).d)
  }

  lemma {:induction false} StepIsOwned()
    ensures Owned(Step)
  {
    forall w, e ensures OwnerStep(w, e, Step(w, e).d) {
      StepOwner(w, e);
    }
  }

  lemma {:induction false} PoweredOwner(w0: World)
    requires Powered(w0)
    ensures w0.d.caller == "" && (w0.d.state == Idle || w0.d.state == Enumerating) && w0.d.timer == None
  {
    var gs, st :| w0 == Power(w0.d.fp.rounding, w0.d.database, w0.hal.templates, w0.clock, gs, st);
    BootOwner(w0.d.fp.rounding, w0.d.database, gs, st);
  }

  /** The same session: same state, same owner, and the timer of an identification where the session's
      start put it. */
  predicate SameSession(d: Daemon, start: nat, d': Daemon) {
    && d'.state == d.state && d'.caller == d.caller
    && (d.state == Identifying ==> d'.timer == Some(start + CANCEL_INTERVAL))
  }

  lemma {:induction false} OriginOf(step: (World, Event) -> World, w0: World, es: seq<Event>, n: nat)
    returns (i: nat)
    requires Owned(step)
    requires n <= |es| && (w0.d.state == Idle || w0.d.state == Enumerating)
    requires var s := Runs.After(step, w0, es, n).d.state; s != Idle && s != Enumerating
    ensures i < n
    ensures var d := Runs.After(step, w0, es, n).d; var w := Runs.After(step, w0, es, i);
      && Begins(w, es[i], d.state, d.caller)
      && forall j :: i < j <= n ==> SameSession(d, w.clock, Runs.After(step, w0, es, j).d)
  {
    var d := Runs.After(step, w0, es, n).d;
    var timed := d.state == Identifying;
    var now := (w: World) =>
      w.d.state == d.state && w.d.caller == d.caller && (timed ==> w.d.timer == d.timer);
    var start := (w: World, e: Event) =>
      Begins(w, e, d.state, d.caller) && (timed ==> d.timer == Some(w.clock + CANCEL_INTERVAL));
    forall k | 0 <= k < n ensures Runs.Explained(step, now, start, w0, es, k) {
      assert OwnerStep(Runs.After(step, w0, es, k), es[k], Runs.After(step, w0, es, k + 1).d);
    }
    i := Runs.Since(step, now, start, w0, es, n);
    forall j | i < j <= n
      ensures SameSession(d, Runs.After(step, w0, es, i).clock, Runs.After(step, w0, es, j).d)
    {
      assert now(Runs.After(step, w0, es, j));
    }
  }

  /** Every session has an origin: a daemon that enrols, identifies, removes or verifies does so since
      event i, an accepted request of that kind by the client who owns the lock; and an identification
      has had its timer running, for 30 s from that request, all along. */
  lemma {:induction false} SessionOrigin(w0: World, es: seq<Event>, n: nat) returns (i: nat)
    requires Powered(w0) && n <= |es|
    requires At(w0, es, n).d.state != Idle && At(w0, es, n).d.state != Enumerating
    ensures i < n
    ensures var d := At(w0, es, n).d; var w := At(w0, es, i);
      && Begins(w, es[i], d.state, d.caller)
      && forall j :: i < j <= n ==> SameSession(d, w.clock, At(w0, es, j).d)
  {
    PoweredOwner(w0);
    StepIsOwned();
    i := OriginOf(Step, w0, es, n);
  }

  /** While the fingerprints are enumerated nobody owns the lock. */
  lemma {:induction false} EnumeratingIsUnowned(w0: World, es: seq<Event>, n: nat)
    requires Powered(w0) && n <= |es|
    ensures At(w0, es, n).d.state == Enumerating ==> At(w0, es, n).d.caller == ""
  {
    var inv := (w: World) => w.d.state == Enumerating ==> w.d.caller == "";
    PoweredOwner(w0);
    forall w, e: Event | inv(w) ensures inv(Step(w, e)) {
      StepOwner(w, e);
    }
    Runs.Always(Step, inv, w0, es, n);
  }

  /** Some refused Verify or Remove has not been followed by a return to Idle. */
  ghost predicate LeakPending(w0: World, es: seq<Event>, n: nat)
    requires n <= |es|
  {
    exists i, c ::
      && 0 <= i < n && c != "" && Leaks(At(w0, es, i), es[i], c)
      && forall j :: i < j < n ==> !Settles(At(w0, es, j), es[j])
  }

  lemma {:induction false} IdleOwnerLeaked(
      step: (World, Event) -> World, w0: World, es: seq<Event>, n: nat) returns (i: nat)
    requires Owned(step)
    requires n <= |es| && w0.d.caller == ""
    requires Runs.After(step, w0, es, n).d.state == Idle && Runs.After(step, w0, es, n).d.caller != ""
    ensures i < n && Leaks(Runs.After(step, w0, es, i), es[i], Runs.After(step, w0, es, n).d.caller)
    ensures forall j :: i < j < n ==> !Settles(Runs.After(step, w0, es, j), es[j])
  {
    var c := Runs.After(step, w0, es, n).d.caller;
    var now := (w: World) => w.d.state == Idle && w.d.caller == c;
    var start := (w: World, e: Event) => Leaks(w, e, c);
    forall k | 0 <= k < n ensures Runs.Explained(step, now, start, w0, es, k) {
      assert OwnerStep(Runs.After(step, w0, es, k), es[k], Runs.After(step, w0, es, k + 1).d);
    }
    i := Runs.Since(step, now, start, w0, es, n);
    forall j | i < j < n ensures !Settles(Runs.After(step, w0, es, j), es[j]) {
      assert now(Runs.After(step, w0, es, j + 1)) && !start(Runs.After(step, w0, es, j), es[j]);
    }
  }

  lemma {:induction false} LeakOwnsIdle(
      step: (World, Event) -> World, w0: World, es: seq<Event>, i: nat, c: string, n: nat)
    requires Owned(step)
    requires i < n <= |es|
    requires Leaks(Runs.After(step, w0, es, i), es[i], c)
    requires forall j :: i < j < n ==> !Settles(Runs.After(step, w0, es, j), es[j])
    ensures Runs.After(step, w0, es, n).d.state == Idle ==> Runs.After(step, w0, es, n).d.caller == c
  {
    var inv := (w: World) => w.d.state == Idle ==> w.d.caller == c;
    assert inv(Runs.After(step, w0, es, i + 1));
    forall k | i + 1 <= k < n ensures Runs.Carried(step, inv, w0, es, k) {
      assert OwnerStep(Runs.After(step, w0, es, k), es[k], Runs.After(step, w0, es, k + 1).d);
    }
    Runs.Stays(step, inv, w0, es, i + 1, n);
  }

  /** An idle daemon has an owner exactly when a Verify or Remove was refused by the HAL and nothing
      has settled since. */
  lemma {:induction false} IdleOwnedIffLeak(w0: World, es: seq<Event>, n: nat)
    requires Powered(w0) && n <= |es|
    requires At(w0, es, n).d.state == Idle
    ensures At(w0, es, n).d.caller != "" <==> LeakPending(w0, es, n)
  {
    StepIsOwned();
    PoweredOwner(w0);
    if At(w0, es, n).d.caller != "" {
      var i := IdleOwnerLeaked(Step, w0, es, n);
      assert Leaks(At(w0, es, i), es[i], At(w0, es, n).d.caller);
    }
    if LeakPending(w0, es, n) {
      var i, c :| 0 <= i < n && c != "" && Leaks(At(w0, es, i), es[i], c)
        && forall j :: i < j < n ==> !Settles(At(w0, es, j), es[j]);
      LeakOwnsIdle(Step, w0, es, i, c, n);
    }
  }

  /** If the HAL accepts every Verify and Remove, an idle daemon is free. */
  lemma {:induction false} AcceptedRequestsLeaveIdleFree(w0: World, es: seq<Event>, n: nat)
    requires Powered(w0) && n <= |es|
    requires forall i :: 0 <= i < n && (es[i].CallVerify? || es[i].CallRemove?) ==> es[i].status == SYS_OK
    ensures At(w0, es, n).d.state == Idle ==> At(w0, es, n).d.caller == ""
  {
    if At(w0, es, n).d.state == Idle {
      IdleOwnedIffLeak(w0, es, n);
    }
  }
}
