/** What the events leave alone: only deliveries of succeeded, removed and enumerated notices touch
    the index and the database, and only they and acquisitions speak about their subject. */
module Frames {
  import opened Vocabulary
  import opened Index
  import opened DaemonSpec
  import opened RequestShape
  import opened System
  import opened TraceGrammar
  import Adapter = AdapterSpec
  import EnrolProgress
  import Sessions

  /** The delivery of this notice changes the index. */
  predicate IndexNotice(n: Notice) {
    n.Succeeded? || n.RemovedId? || n.Enumerated?
  }

  /** The event delivers a notice that changes the index. */
  predicate IndexEvent(w: World, e: Event) {
    e.Dispatch? && w.queue != [] && IndexNotice(w.queue[0])
  }

  /** Signals that say nothing about the index or the sensor image. */
  predicate Quiet(s: Signal) {
    !s.Added? && !s.Removed? && !s.ListChanged? && !s.AcquisitionInfo?
  }

  /** The trace goes on with quiet signals only. */
  ghost predicate Murmurs(d: Daemon, d': Daemon) {
    && |d.trace| <= |d'.trace|
    && d'.trace[..|d.trace|] == d.trace
    && forall i :: |d.trace| <= i < |d'.trace| ==> Quiet(d'.trace[i])
  }

  /** The index, its file, the image quality and the adapter's report list are as before, and nothing
      was said about them. */
  ghost predicate Untouched(d: Daemon, d': Daemon) {
    && d'.names == d.names && d'.database == d.database && d'.acquired == d.acquired
    && d'.fp.fingers == d.fp.fingers && d'.fp.rounding == d.fp.rounding
    && Murmurs(d, d')
  }

  lemma {:induction false} EmitFrame(d: Daemon, s: Signal)
    requires Quiet(s)
    ensures Untouched(d, Emit(d, s))
  {
  }

  lemma {:induction false} SetStateFrame(d: Daemon, s: State)
    ensures Untouched(d, SetState(d, s))
  {
  }

  lemma {:induction false} UntouchedTransitive(a: Daemon, b: Daemon, c: Daemon)
    requires Untouched(a, b) && Untouched(b, c)
    ensures Untouched(a, c)
  {
    assert a.trace == b.trace[..|a.trace|] == c.trace[..|b.trace|][..|a.trace|] == c.trace[..|a.trace|];
    forall i | |a.trace| <= i < |c.trace| ensures Quiet(c.trace[i]) {
      if i < |b.trace| {
        assert c.trace[i] == b.trace[i];
      }
    }
  }

  lemma {:induction false} FailedFrame(d: Daemon, message: Message)
    ensures Untouched(d, SlotFailed(d, message)) && SlotFailed(d, message).fp == d.fp
  {
    var told := Emit(d, ErrorInfo(message));
    EmitFrame(told, Failed);
    SetStateFrame(Emit(told, Failed), Idle);
    UntouchedTransitive(told, Emit(told, Failed), SetState(Emit(told, Failed), Idle));
    UntouchedTransitive(d, told, SetState(Emit(told, Failed), Idle));
  }

  lemma {:induction false} AbortFrame(d: Daemon)
    ensures Untouched(d, AbortOperation(d)) && AbortOperation(d).fp == Adapter.Cancel(d.fp)
  {
    var aborted := Emit(d.(fp := Adapter.Cancel(d.fp), timer := None), Aborted);
    SetStateFrame(aborted, Idle);
    UntouchedTransitive(d, aborted, SetState(aborted, Idle));
  }

  lemma {:induction false} RequestedFrame(d: Daemon, busy: Daemon, fp: Adapter.Adapter, status: int)
    requires Untouched(d, busy)
    requires fp.fingers == busy.fp.fingers && fp.rounding == busy.fp.rounding
    ensures Untouched(d, Requested(busy, fp, status)) && Requested(busy, fp, status).fp == fp
  {
    FailedFrame(busy.(fp := fp), RequestRefused(status));
    UntouchedTransitive(d, busy.(fp := fp), Requested(busy, fp, status));
  }

  lemma {:induction false} FinishFrame(d: Daemon, e: Event)
    ensures Untouched(d, Finish(d, e)) && Finish(d, e).fp == d.fp
  {
  }

  lemma {:induction false} RequestFrame(w: World, e: Event)
    requires Reaches(w.d, e)
    ensures Untouched(w.d, Step(w, e).d) && Step(w, e).d.fp.removing == RemovingAfter(w.d, e)
  {
    ReachingShape(w, e);
    AskedAdapter(w.d, e);
    SetStateFrame(w.d, Announces(e));
    var asking := Asking(w, e);
    RequestedFrame(w.d, asking, Asked(w.d, e), e.status);
    var asked := Requested(asking, Asked(w.d, e), e.status);
    FinishFrame(asked, e);
    UntouchedTransitive(w.d, asked, Finish(asked, e));
  }

  lemma {:induction false} CallFrame(w: World, e: Event)
    requires Sessions.IsCall(e)
    ensures var w' := Step(w, e);
      && Untouched(w.d, w'.d) && w'.d.fp.removing == RemovingAfter(w.d, e)
      && w' == w.(d := w'.d, hal := if Reaches(w.d, e) then w.hal.Accept(Starts(w.d, e), e.status) else w.hal)
  {
    if e.CallAbort? {
      AbortFrame(w.d);
    } else if Reaches(w.d, e) {
      RequestFrame(w, e);
    } else {
      RejectedRequestsDoNothing(w, e);
    }
  }

  lemma {:induction false} TimerFrame(d: Daemon)
    ensures Untouched(d, SlotCancelIdentify(d))
    ensures SlotCancelIdentify(d).fp == Adapter.Cancel(d.fp)
  {
    var failed := Emit(d.(fp := Adapter.Cancel(d.fp), timer := None), Failed);
    SetStateFrame(failed, Idle);
    UntouchedTransitive(d, failed, SetState(failed, Idle));
  }

  lemma {:induction false} OtherNoticeFrame(d: Daemon, n: Notice, readable: bool, writable: bool)
    requires !IndexNotice(n) && !n.AcquiredCode?
    ensures Untouched(d, OnNotice(d, n, readable, writable))
    ensures OnNotice(d, n, readable, writable).fp.removing == d.fp.removing
  {
    match n
    case EnrollProgress(progress) =>
      var shown := Emit(d, EnrollProgressChanged(EnrolProgress.PercentOf(d.fp.rounding, progress)));
      AbortFrame(Emit(shown, Verified));
      UntouchedTransitive(d, shown, Emit(shown, Verified));
      UntouchedTransitive(d, Emit(shown, Verified), AbortOperation(Emit(shown, Verified)));
    case FailedWith(message) => FailedFrame(d, message);
    case Authenticated(id) =>
      var name := if id in d.names then d.names[id] else UnknownName(id);
      var told := Emit(d.(timer := None), Identified(name));
      SetStateFrame(told, Idle);
      UntouchedTransitive(d, told, SetState(told, Idle));
  }

  /** A new process has touched nothing yet. */
  lemma {:induction false} BootFrame(rounding: Adapter.Rounding, database: Option<Names>,
                                     groupStatus: int, enumerateStatus: int)
    ensures var d := Boot(rounding, database, groupStatus, enumerateStatus);
      && d.database == database && d.names == map[] && d.fp.fingers == [] && d.fp.removing == 0
      && Untouched(FreshDaemon(rounding, database), d)
  {
    var d := FreshDaemon(rounding, database);
    var grouped := d.(fp := Adapter.SetGroup(d.fp));
    FailedFrame(grouped, GroupRefused(groupStatus));
    var told := if groupStatus == SYS_OK then grouped else SlotFailed(grouped, GroupRefused(groupStatus));
    SetStateFrame(told, Enumerating);
    UntouchedTransitive(d, told, SetState(told, Enumerating));
    var busy := SetState(told, Enumerating);
    assert Adapter.Enumerate(busy.fp).fingers == busy.fp.fingers;
    RequestedFrame(d, busy, Adapter.Enumerate(busy.fp), enumerateStatus);
  }
}
