/** FPDCommunity as functions on values: its fields, the database file, the signals it has emitted
    since it started, and the effect of every client request and slot. */
module DaemonSpec {
  import opened Vocabulary
  import opened Index
  import opened EnrolProgress
  import Adapter = AdapterSpec

  datatype Daemon = Daemon(
    state: State,
    caller: string,                 // the owner of the lock; "" when free
    names: Names,                   // the index
    adding: string,                 // the name for the next enrolled template
    acquired: AcquiredState,
    timer: Option<nat>,             // the deadline while the cancel timer runs
    database: Option<Names>,        // the database file; None when there is none
    trace: seq<Signal>,             // the signals emitted, oldest first
    fp: Adapter.Adapter)

  datatype Outcome = Outcome(daemon: Daemon, reply: Reply)

  // ---- Building blocks ----

  function Emit(d: Daemon, signal: Signal): Daemon {
    d.(trace := d.trace + [signal])
  }

  function SetState(d: Daemon, s: State): Daemon {
    var unlocked := if s == Idle then d.(caller := "") else d;
    if s != d.state then Emit(unlocked.(state := s), StateChanged(s)) else unlocked
  }

  function AbortOperation(d: Daemon): Daemon {
    SetState(Emit(d.(fp := Adapter.Cancel(d.fp), timer := None), Aborted), Idle)
  }

  /** The daemon after the adapter made a request that the HAL answered with this status. */
  function Requested(d: Daemon, fp: Adapter.Adapter, status: int): Daemon {
    if status == SYS_OK then d.(fp := fp) else SlotFailed(d.(fp := fp), RequestRefused(status))
  }

  function Save(d: Daemon, writable: bool): Daemon {
    if writable then d.(database := Some(d.names)) else d
  }

  /** The index read back from the file; an unreadable file counts as an empty index. */
  function Stored(d: Daemon, readable: bool): Names {
    if readable && d.database.Some? then d.database.value else map[]
  }

  function Load(d: Daemon, readable: bool, writable: bool): Daemon {
    Save(d.(names := Reconcile(Stored(d, readable), d.fp.fingers)), writable)
  }

  // ---- Start ----

  function FreshDaemon(rounding: Adapter.Rounding, database: Option<Names>): Daemon {
    Daemon(Idle, "", map[], "", Unspecified, None, database, [], Adapter.NewAdapter(rounding))
  }

  function SetUser(d: Daemon, groupStatus: int, enumerateStatus: int): Daemon {
    var grouped := d.(fp := Adapter.SetGroup(d.fp));
    var told := if groupStatus == SYS_OK then grouped else SlotFailed(grouped, GroupRefused(groupStatus));
    if told.state == Idle then
      var busy := SetState(told, Enumerating);
      Requested(busy, Adapter.Enumerate(busy.fp), enumerateStatus)
    else told
  }

  /** A newly started daemon on an existing database file. */
  function Boot(rounding: Adapter.Rounding, database: Option<Names>, groupStatus: int, enumerateStatus: int)
    : Daemon
  {
    SetUser(FreshDaemon(rounding, database), groupStatus, enumerateStatus)
  }

  // ---- Client requests ----

  /** The lock lets this caller through. */
  predicate Permits(d: Daemon, caller: string) {
    d.caller == "" || d.caller == caller
  }

  function Enroll(d: Daemon, name: string, caller: string, status: int): Outcome {
    if !Permits(d, caller) then Outcome(d, AlreadyBusy)
    else if name in d.names.Values then Outcome(d, KeyAlreadyExists)
    else if d.state == Idle then
      var busy := SetState(d, Enrolling).(adding := name, caller := caller);
      Outcome(Emit(Requested(busy, Adapter.Enroll(busy.fp), status), EnrollProgressChanged(Some(0))), Started)
    else Outcome(d, AlreadyBusy)
  }

  function Identify(d: Daemon, caller: string, now: nat, status: int): Outcome {
    if !Permits(d, caller) then Outcome(d, AlreadyBusy)
    else if d.state != Idle then Outcome(d, AlreadyBusy)
    else if |d.names| == 0 then Outcome(d, NoKeysAvailable)
    else
      var busy := SetState(d, Identifying).(caller := caller, timer := Some(now + CANCEL_INTERVAL));
      Outcome(Requested(busy, Adapter.Authenticate(busy.fp), status), Started)
  }

  function Clear(d: Daemon, caller: string, status: int): Daemon {
    if Permits(d, caller) && d.state == Idle then
      var busy := SetState(d, Removing).(caller := caller);
      Requested(busy, Adapter.Clear(busy.fp), status)
    else d
  }

  function Abort(d: Daemon, caller: string): Outcome {
    if !Permits(d, caller) then Outcome(d, AlreadyIdle)
    else if d.state == Idle then Outcome(d, AlreadyIdle)
    else Outcome(AbortOperation(d), Started)
  }

  function Verify(d: Daemon, caller: string, status: int): Outcome {
    if !Permits(d, caller) then Outcome(d, AlreadyIdle)
    else if d.state != Idle then Outcome(d, AlreadyBusy)
    else
      var busy := SetState(d, Verifying);
      var asked := Requested(busy, Adapter.Enroll(busy.fp), status).(caller := caller);
      Outcome(Emit(asked, EnrollProgressChanged(Some(0))), Started)
  }

  function Remove(d: Daemon, name: string, caller: string, status: int): Outcome {
    if !Permits(d, caller) then Outcome(d, AlreadyBusy)
    else if d.state != Idle then Outcome(d, AlreadyBusy)
    else
      var key := KeyOf(d.names, name);
      if key == 0 then Outcome(d, KeyDoesNotExist)
      else
        var busy := SetState(d, Removing);
        Outcome(Requested(busy, Adapter.Remove(busy.fp, key), status).(caller := caller), Started)
  }

  // ---- Slots ----

  function SlotEnrollProgress(d: Daemon, progress: Option<real>): Daemon {
    var shown := Emit(d, EnrollProgressChanged(PercentOf(d.fp.rounding, progress)));
    if d.state == Verifying then AbortOperation(Emit(shown, Verified)) else shown
  }

  function SlotSucceeded(d: Daemon, id: U32, writable: bool): Daemon {
    var added := Emit(d.(names := d.names[id := d.adding]), Added(d.adding)).(adding := "");
    SetState(Emit(Save(added, writable), ListChanged), Idle)
  }

  function SlotFailed(d: Daemon, message: Message): Daemon {
    var told := Emit(d, ErrorInfo(message));
    if d.state == Identifying && message == FingerNotRecognized then told
    else if d.state != Idle then SetState(Emit(told, Failed), Idle)
    else told
  }

  function AcquiredOf(code: int): AcquiredState {
    if code == 0 then Good
    else if code == 1 then Partial
    else if code == 2 then Insufficient
    else if code == 3 then ImagerDirty
    else if code == 4 then TooSlow
    else if code == 5 then TooFast
    else if code == 6 then Unrecognized
    else Good
  }

  function SlotAcquired(d: Daemon, code: int): Daemon {
    var seen := AcquiredOf(code);
    if seen != d.acquired then Emit(d.(acquired := seen), AcquisitionInfo(seen)) else d
  }

  /** One Removed signal for each name. */
  function Farewells(names: seq<string>): (signals: seq<Signal>) {
    seq(|names|, i requires 0 <= i < |names| => Removed(names[i]))
  }

  /** The index and the signals after a reported removal, before saving. */
  function Forget(d: Daemon, id: U32): Daemon {
    if id != 0 then
      Emit(d, Removed(if id in d.names then d.names[id] else "")).(names := d.names - {id})
    else
      d.(trace := d.trace + Farewells(OrderedValues(d.names)), names := map[])
  }

  function SlotRemoved(d: Daemon, id: U32, writable: bool): Daemon {
    SetState(Emit(Save(Forget(d, id), writable), ListChanged), Idle)
  }

  function SlotAuthenticated(d: Daemon, id: U32): Daemon {
    var name := if id in d.names then d.names[id] else UnknownName(id);
    SetState(Emit(d.(timer := None), Identified(name)), Idle)
  }

  /** The timer's slot; a single-shot timer is off by the time it runs. */
  function SlotCancelIdentify(d: Daemon): Daemon {
    SetState(Emit(d.(fp := Adapter.Cancel(d.fp), timer := None), Failed), Idle)
  }

  function SlotEnumerated(d: Daemon, readable: bool, writable: bool): Daemon {
    SetState(Emit(Load(d, readable, writable), ListChanged), Idle)
  }

  /** The slot connected to a notice. */
  function OnNotice(d: Daemon, notice: Notice, readable: bool, writable: bool): Daemon {
    match notice
    case EnrollProgress(progress) => SlotEnrollProgress(d, progress)
    case Succeeded(id) => SlotSucceeded(d, id, writable)
    case FailedWith(message) => SlotFailed(d, message)
    case RemovedId(id) => SlotRemoved(d, id, writable)
    case AcquiredCode(code) => SlotAcquired(d, code)
    case Authenticated(id) => SlotAuthenticated(d, id)
    case Enumerated => SlotEnumerated(d, readable, writable)
  }
}
