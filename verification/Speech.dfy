/** What every event says on the bus, asks of the HAL and posts to the daemon, told from its cause: the
    event, the daemon's state when it happens and what is queued.  Over whole runs, the signals and the
    HAL requests of a process are exactly these, in order. */
module Speech {
  import opened Vocabulary
  import opened Index
  import opened DaemonSpec
  import opened RequestShape
  import opened System
  import opened TraceGrammar
  import Adapter = AdapterSpec
  import EnrolProgress

  // ---- Signals ----

  /** The image of each acquisition code of src/biometry.h; other codes count as good. */
  const IMAGES: map<int, AcquiredState> := map[
    0 := Good,
    1 := Partial,
    2 := Insufficient,
    3 := ImagerDirty,
    4 := TooSlow,
    5 := TooFast,
    6 := Unrecognized]

  function ImageOf(code: int): AcquiredState {
    if code in IMAGES then IMAGES[code] else Good
  }

  function BackToIdle(s: State): seq<Signal> {
    if s == Idle then [] else [StateChanged(Idle)]
  }

  /** A failure is always reported; it ends every operation except an identification whose finger was not
      recognized. */
  function Failing(s: State, message: Message): seq<Signal> {
    [ErrorInfo(message)] +
    if s == Idle || (s == Identifying && message == FingerNotRecognized) then [] else [Failed, StateChanged(Idle)]
  }

  /** What a request says when the HAL refuses it, with any status but 0. */
  function Refused(status: int): seq<Signal> {
    if status == 0 then [] else [ErrorInfo(RequestRefused(status)), Failed, StateChanged(Idle)]
  }

  /** The name of a recognized id; a made-up one if the index does not have it. */
  function NameFor(names: Names, id: U32): string {
    if id in names then names[id] else "Unknown " + Decimal(id)
  }

  function Leaving(names: Names, id: U32): seq<Signal> {
    if id == 0 then
      var ids := OrderedKeys(names.Keys);
      seq(|ids|, i requires 0 <= i < |ids| => Removed(names[ids[i]]))
    else if id in names then [Removed(names[id])]
    else [Removed("")]
  }

  /** What the delivery of a notice says. */
  function OnDelivery(d: Daemon, n: Notice): seq<Signal> {
    match n
    case EnrollProgress(progress) =>
      [EnrollProgressChanged(EnrolProgress.PercentOf(d.fp.rounding, progress))]
      + if d.state == Verifying then [Verified, Aborted, StateChanged(Idle)] else []
    case Succeeded(_) => [Added(d.adding), ListChanged] + BackToIdle(d.state)
    case FailedWith(message) => Failing(d.state, message)
    case RemovedId(id) => Leaving(d.names, id) + [ListChanged] + BackToIdle(d.state)
    case AcquiredCode(code) => if ImageOf(code) == d.acquired then [] else [AcquisitionInfo(ImageOf(code))]
    case Authenticated(id) => [Identified(NameFor(d.names, id))] + BackToIdle(d.state)
    case Enumerated => [ListChanged] + BackToIdle(d.state)
  }

  /** What an event says; a new process starts a new trace. */
  function Says(w: World, e: Event): seq<Signal> {
    match e
    case CallEnroll(_, _, status) =>
      if Reaches(w.d, e) then [StateChanged(Enrolling)] + Refused(status) + [EnrollProgressChanged(Some(0))]
      else []
    case CallVerify(_, status) =>
      if Reaches(w.d, e) then [StateChanged(Verifying)] + Refused(status) + [EnrollProgressChanged(Some(0))]
      else []
    case CallIdentify(_, status) =>
      if Reaches(w.d, e) then [StateChanged(Identifying)] + Refused(status) else []
    case CallRemove(_, _, status) =>
      if Reaches(w.d, e) then [StateChanged(Removing)] + Refused(status) else []
    case CallClear(_, status) =>
      if Reaches(w.d, e) then [StateChanged(Removing)] + Refused(status) else []
    case CallAbort(_) => if Aborts(w, e) then [Aborted, StateChanged(Idle)] else []
    case Dispatch(_, _) => if w.queue == [] then [] else OnDelivery(w.d, w.queue[0])
    case TimerFires => if TimerDue(w) then [Failed] + BackToIdle(w.d.state) else []
    case HalCallback(_) => []
    case Advance(_) => []
    case Restart(groupStatus, enumerateStatus) => Opening(groupStatus, enumerateStatus)
  }

  /** The Abort is by a client that the lock lets through, of an operation under way. */
  predicate Aborts(w: World, e: Event) {
    e.CallAbort? && (w.d.caller == "" || w.d.caller == e.caller) && w.d.state != Idle
  }

  /** What a new process says. */
  function Opening(groupStatus: int, enumerateStatus: int): seq<Signal> {
    (if groupStatus == 0 then [] else [ErrorInfo(GroupRefused(groupStatus))])
    + [StateChanged(Enumerating)]
    + Refused(enumerateStatus)
  }

  lemma {:induction false} FinishSays(d: Daemon, e: Event)
    ensures Finish(d, e).trace
         == d.trace + if e.CallEnroll? || e.CallVerify? then [EnrollProgressChanged(Some(0))] else []
  {
  }

  lemma {:induction false} RequestSays(w: World, e: Event)
    requires Reaches(w.d, e)
    ensures Step(w, e).d.trace == w.d.trace + Says(w, e)
  {
    ReachingShape(w, e);
    var asking, fp := Asking(w, e), Asked(w.d, e);
    assert asking.trace == w.d.trace + [StateChanged(Announces(e))] && asking.state == Announces(e);
    RequestedSays(asking, fp, e.status);
    FinishSays(Requested(asking, fp, e.status), e);
    var end := if e.CallEnroll? || e.CallVerify? then [EnrollProgressChanged(Some(0))] else [];
    assert Says(w, e) == [StateChanged(Announces(e))] + Refused(e.status) + end;
  }

  lemma {:induction false} RequestedSays(d: Daemon, fp: Adapter.Adapter, status: int)
    requires d.state != Idle
    ensures Requested(d, fp, status).trace == d.trace + Refused(status)
  {
    FailedSays(d.(fp := fp), RequestRefused(status));
  }

  lemma {:induction false} FailedSays(d: Daemon, message: Message)
    ensures SlotFailed(d, message).trace == d.trace + Failing(d.state, message)
  {
  }

  lemma {:induction false} RemovedSays(d: Daemon, id: U32, writable: bool)
    ensures SlotRemoved(d, id, writable).trace == d.trace + OnDelivery(d, RemovedId(id))
  {
    ForgetSays(d, id);
    EndingSays(Forget(d, id), writable);
    assert d.trace + Leaving(d.names, id) + ([ListChanged] + BackToIdle(d.state))
        == d.trace + (Leaving(d.names, id) + [ListChanged] + BackToIdle(d.state));
  }

  lemma {:induction false} ForgetSays(d: Daemon, id: U32)
    ensures Forget(d, id).trace == d.trace + Leaving(d.names, id) && Forget(d, id).state == d.state
  {
    if id == 0 {
      ValuesInKeyOrder(d.names);
      assert Farewells(OrderedValues(d.names)) == Leaving(d.names, 0);
    }
  }

  /** How the three index slots end. */
  lemma {:induction false} EndingSays(d: Daemon, writable: bool)
    ensures SetState(Emit(Save(d, writable), ListChanged), Idle).trace
         == d.trace + ([ListChanged] + BackToIdle(d.state))
  {
  }

  lemma {:induction false} SucceededSays(d: Daemon, id: U32, writable: bool)
    ensures SlotSucceeded(d, id, writable).trace == d.trace + OnDelivery(d, Succeeded(id))
  {
    var added := Emit(d.(names := d.names[id := d.adding]), Added(d.adding)).(adding := "");
    EndingSays(added, writable);
    assert d.trace + [Added(d.adding)] + ([ListChanged] + BackToIdle(d.state))
        == d.trace + ([Added(d.adding), ListChanged] + BackToIdle(d.state));
  }

  lemma {:induction false} ProgressSays(d: Daemon, progress: Option<real>)
    ensures SlotEnrollProgress(d, progress).trace == d.trace + OnDelivery(d, EnrollProgress(progress))
  {
  }

  lemma {:induction false} AuthenticatedSays(d: Daemon, id: U32)
    ensures SlotAuthenticated(d, id).trace == d.trace + OnDelivery(d, Authenticated(id))
  {
  }

  lemma {:induction false} CodeHasImage(code: int)
    ensures AcquiredOf(code) == ImageOf(code)
  {
  }

  lemma {:induction false} DeliverySays(d: Daemon, n: Notice, readable: bool, writable: bool)
    ensures OnNotice(d, n, readable, writable).trace == d.trace + OnDelivery(d, n)
  {
    match n
    case EnrollProgress(progress) => ProgressSays(d, progress);
    case Succeeded(id) => SucceededSays(d, id, writable);
    case FailedWith(message) => FailedSays(d, message);
    case RemovedId(id) => RemovedSays(d, id, writable);
    case AcquiredCode(code) => CodeHasImage(code);
    case Authenticated(id) => AuthenticatedSays(d, id);
    case Enumerated => EndingSays(d.(names := Reconcile(Stored(d, readable), d.fp.fingers)), writable);
  }

  lemma {:induction false} BootSays(rounding: Adapter.Rounding, database: Option<Names>, gs: int, st: int)
    ensures Boot(rounding, database, gs, st).trace == Opening(gs, st)
  {
    var d := FreshDaemon(rounding, database);
    var grouped := d.(fp := Adapter.SetGroup(d.fp));
    var told := if gs == SYS_OK then grouped else SlotFailed(grouped, GroupRefused(gs));
    FailedSays(grouped, GroupRefused(gs));
    var busy := SetState(told, Enumerating);
    RequestedSays(busy, Adapter.Enumerate(busy.fp), st);
  }

  /** Every event says exactly this. */
  lemma {:induction false} StepSays(w: World, e: Event)
    ensures Step(w, e).d.trace == (if e.Restart? then [] else w.d.trace) + Says(w, e)
  {
    match e {
      case CallAbort(_) =>
      case Dispatch(readable, writable) =>
        if w.queue != [] {
          DeliverySays(w.d, w.queue[0], readable, writable);
        }
      case TimerFires =>
      case HalCallback(_) =>
      case Advance(_) =>
      case Restart(gs, st) => BootSays(w.d.fp.rounding, w.d.database, gs, st);
      case _ =>
        if Reaches(w.d, e) {
          RequestSays(w, e);
        } else {
          RejectedRequestsDoNothing(w, e);
        }
    }
  }

  // ---- HAL requests ----

  /** The delivery of a first progress to a verification. */
  predicate Verifies(w: World, e: Event) {
    e.Dispatch? && w.queue != [] && w.queue[0].EnrollProgress? && w.d.state == Verifying
  }

  /** What an event asks of the HAL; a new process starts a new log. */
  function Asks(w: World, e: Event): seq<HalRequest> {
    if Reaches(w.d, e) then
      match e
      case CallIdentify(_, _) => [AskAuthenticate]
      case CallRemove(name, _, _) => [AskRemove(KeyOf(w.d.names, name))]
      case CallClear(_, _) => [AskRemove(0)]
      case _ => [AskEnroll]
    else if Aborts(w, e) || Verifies(w, e) || (e.TimerFires? && TimerDue(w)) then [AskCancel]
    else if e.HalCallback? && e.cb.EnrollResult? && e.cb.remaining == 0 then [AskPostEnroll]
    else if e.Restart? then [AskSetGroup, AskEnumerate]
    else []
  }

  lemma {:induction false} RequestAsks(w: World, e: Event)
    requires Reaches(w.d, e)
    ensures Step(w, e).d.fp.requests == w.d.fp.requests + Asks(w, e)
  {
    ReachingShape(w, e);
    AskedAdapter(w.d, e);
    RequestedOutcome(Asking(w, e), Asked(w.d, e), e.status);
  }

  lemma {:induction false} DeliveryAsks(w: World, e: Event)
    requires e.Dispatch? && w.queue != []
    ensures Step(w, e).d.fp.requests == w.d.fp.requests + Asks(w, e)
  {
    match w.queue[0] {
      case EnrollProgress(_) =>
      case Succeeded(_) =>
      case FailedWith(_) =>
      case RemovedId(_) =>
      case AcquiredCode(_) =>
      case Authenticated(_) =>
      case Enumerated =>
    }
  }

  lemma {:induction false} BootAsks(rounding: Adapter.Rounding, database: Option<Names>, gs: int, st: int)
    ensures Boot(rounding, database, gs, st).fp.requests == [AskSetGroup, AskEnumerate]
  {
  }

  /** Every event asks exactly this. */
  lemma {:induction false} StepAsks(w: World, e: Event)
    ensures Step(w, e).d.fp.requests == (if e.Restart? then [] else w.d.fp.requests) + Asks(w, e)
  {
    match e {
      case CallAbort(_) =>
      case Dispatch(_, _) =>
        if w.queue != [] {
          DeliveryAsks(w, e);
        }
      case TimerFires =>
      case HalCallback(_) =>
      case Advance(_) =>
      case Restart(gs, st) => BootAsks(w.d.fp.rounding, w.d.database, gs, st);
      case _ =>
        if Reaches(w.d, e) {
          RequestAsks(w, e);
        } else {
          RejectedRequestsDoNothing(w, e);
        }
    }
  }

  // ---- Notices ----

  /** The notice without the value of a progress. */
  function Plain(n: Notice): Notice {
    if n.EnrollProgress? then EnrollProgress(None) else n
  }

  function Plains(q: seq<Notice>): seq<Notice> {
    seq(|q|, i requires 0 <= i < |q| => Plain(q[i]))
  }

  /** What a callback posts, up to the value of a progress; a removal is reported if the adapter expects
      it or expects a clear. */
  function Posts(expected: U32, cb: Callback): seq<Notice> {
    match cb
    case EnrollResult(id, remaining, postEnroll) =>
      if remaining > 0 then [EnrollProgress(None)]
      else [EnrollProgress(None), if postEnroll == 0 then Succeeded(id) else FailedWith(RequestRefused(postEnroll))]
    case AcquiredResult(code) => [AcquiredCode(code)]
    case AuthResult(id) => if id == 0 then [FailedWith(FingerNotRecognized)] else [Authenticated(id)]
    case ErrorResult(error, vendorCode) => if error == 0 then [] else [FailedWith(HardwareError(error, vendorCode))]
    case RemoveResult(id, remaining) =>
      if remaining != 0 then []
      else if expected == 0 then [RemovedId(0)]
      else if expected == id then [RemovedId(id)]
      else []
    case EnumerateResult(_, remaining) => if remaining == 0 then [Enumerated] else []
  }

  lemma {:induction false} CallbackPosts(a: Adapter.Adapter, cb: Callback)
    ensures Plains(Adapter.OnCallback(a, cb).1) == Posts(a.removing, cb)
  {
  }

  /** Every event posts exactly this, and a delivery takes the oldest. */
  lemma {:induction false} StepPosts(w: World, e: Event)
    ensures var q := Step(w, e).queue;
      match e
      case HalCallback(cb) => w.queue <= q && Plains(q[|w.queue|..]) == Posts(w.d.fp.removing, cb)
      case Dispatch(_, _) => q == if w.queue == [] then [] else w.queue[1..]
      case Restart(_, _) => q == []
      case _ => q == w.queue
  {
    if e.HalCallback? {
      CallbackPosts(w.d.fp, e.cb);
      var posted := Adapter.OnCallback(w.d.fp, e.cb).1;
      assert Step(w, e).queue == w.queue + posted;
      assert (w.queue + posted)[|w.queue|..] == posted;
    }
  }
}
