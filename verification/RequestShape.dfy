/** The common shape of the five requests that start an operation: announce a busy state, ask the HAL,
    and fail inside the request if it refuses. */
module RequestShape {
  import opened Vocabulary
  import opened DaemonSpec
  import opened System
  import Adapter = AdapterSpec
  import Index

  /** The state that a request announces before it asks the HAL. */
  function Announces(e: Event): State {
    match e
    case CallEnroll(_, _, _) => Enrolling
    case CallIdentify(_, _) => Identifying
    case CallVerify(_, _) => Verifying
    case _ => Removing
  }

  /** The HAL request of a client request. */
  function RequestOf(d: Daemon, e: Event): HalRequest {
    match e
    case CallIdentify(_, _) => AskAuthenticate
    case CallRemove(name, _, _) => AskRemove(Index.KeyOf(d.names, name))
    case CallClear(_, _) => AskRemove(0)
    case _ => AskEnroll
  }

  /** The id that the adapter takes to be under removal after a client request. */
  function RemovingAfter(d: Daemon, e: Event): U32 {
    if !Reaches(d, e) then d.fp.removing
    else if e.CallRemove? then Index.KeyOf(d.names, e.name)
    else if e.CallClear? then 0
    else d.fp.removing
  }

  /** The daemon when it asks: Verify and Remove have not taken the lock yet. */
  function Asking(w: World, e: Event): Daemon {
    var busy := SetState(w.d, Announces(e));
    match e
    case CallEnroll(name, caller, _) => busy.(adding := name, caller := caller)
    case CallIdentify(caller, _) => busy.(caller := caller, timer := Some(w.clock + CANCEL_INTERVAL))
    case CallClear(caller, _) => busy.(caller := caller)
    case _ => busy
  }

  /** The adapter once it has asked. */
  function Asked(d: Daemon, e: Event): Adapter.Adapter {
    match e
    case CallIdentify(_, _) => Adapter.Authenticate(d.fp)
    case CallRemove(name, _, _) => Adapter.Remove(d.fp, Index.KeyOf(d.names, name))
    case CallClear(_, _) => Adapter.Clear(d.fp)
    case _ => Adapter.Enroll(d.fp)
  }

  /** What the request does after the HAL has answered. */
  function Finish(d: Daemon, e: Event): Daemon {
    match e
    case CallEnroll(_, _, _) => Emit(d, EnrollProgressChanged(Some(0)))
    case CallVerify(caller, _) => Emit(d.(caller := caller), EnrollProgressChanged(Some(0)))
    case CallRemove(_, caller, _) => d.(caller := caller)
    case _ => d
  }

  /** Every request that reaches the HAL has this shape. */
  lemma {:induction false} ReachingShape(w: World, e: Event)
    requires Reaches(w.d, e)
    ensures Step(w, e).d == Finish(Requested(Asking(w, e), Asked(w.d, e), e.status), e)
  {
    match e {
      case CallEnroll(_, _, _) =>
      case CallIdentify(_, _) =>
      case CallVerify(_, _) =>
      case CallRemove(_, _, _) =>
      case CallClear(_, _) =>
    }
  }

  /** What asking does to the adapter. */
  lemma {:induction false} AskedAdapter(d: Daemon, e: Event)
    requires Reaches(d, e)
    ensures var fp := Asked(d, e);
      && fp.requests == d.fp.requests + [RequestOf(d, e)]
      && fp.fingers == d.fp.fingers && fp.rounding == d.fp.rounding
      && fp.removing == RemovingAfter(d, e)
      && fp.enrollRemaining == (if e.CallEnroll? || e.CallVerify? then 0.0 else d.fp.enrollRemaining)
  {
  }

  /** What a request to the HAL leaves of a busy daemon. */
  lemma {:induction false} RequestedOutcome(d: Daemon, fp: Adapter.Adapter, status: int)
    requires d.state != Idle
    ensures var after := Requested(d, fp, status);
      && after == d.(fp := fp, state := after.state, caller := after.caller, trace := after.trace)
      && after.state == (if status == SYS_OK then d.state else Idle)
      && after.caller == (if status == SYS_OK then d.caller else "")
      && d.trace <= after.trace
  {
  }
}
