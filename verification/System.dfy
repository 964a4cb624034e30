/** The daemon in its environment.  A run is a list of events: client requests, HAL callbacks (which
    reach the adapter at once and the daemon through a queue), deliveries of one queued notice, timer
    expiry, passing time and restarts.  Every answer of the HAL and the file system is part of the
    event, so a step is a function.  Each event is atomic. */
module System {
  import opened Vocabulary
  import opened Index
  import opened DaemonSpec
  import Adapter = AdapterSpec
  import Runs

  /** The operation that the HAL works on.  A clear remembers what it has deleted so far, an enumeration
      what it has reported. */
  datatype HalOp =
    | NoOp
    | HalEnroll
    | HalAuthenticate
    | HalRemove(id: U32)
    | HalClear(deleted: set<U32>)
    | HalEnumerate(reported: set<U32>)
  {
    predicate Removes() {
      HalRemove? || HalClear?
    }
  }

  datatype Hal = Hal(templates: set<U32>, op: HalOp) {
    /** The templates, with those that a clear in progress has already deleted. */
    function Held(): set<U32> {
      if op.HalClear? then templates + op.deleted else templates
    }

    function Accept(operation: HalOp, status: int): Hal {
      if status == SYS_OK then this.(op := operation) else this
    }

    /** What the HAL has done by the time it calls back. */
    function After(cb: Callback): Hal {
      match cb
      case EnrollResult(id, remaining, _) =>
        if remaining == 0 then Hal(templates + {id}, NoOp) else this
      case RemoveResult(id, remaining) =>
        if op == HalRemove(id) && remaining == 0 then Hal(templates - {id}, NoOp)
        else if op.HalClear? then
          Hal(templates - {id},
              if remaining == 0 then NoOp else HalClear(op.deleted + (templates * {id})))
        else this
      case EnumerateResult(id, remaining) =>
        if remaining == 0 then this.(op := NoOp)
        else if op.HalEnumerate? then this.(op := HalEnumerate(op.reported + ({id} - {0})))
        else this
      case ErrorResult(error, _) =>
        if error != 0 && op.Removes() then this.(op := NoOp) else this
      case _ => this
    }
  }

  datatype World = World(
    d: Daemon,
    queue: seq<Notice>,
    hal: Hal,
    clock: nat,
    loaded: bool)      // history: this daemon process has loaded its index

  datatype Event =
    | CallEnroll(name: string, caller: string, status: int)
    | CallIdentify(caller: string, status: int)
    | CallVerify(caller: string, status: int)
    | CallRemove(name: string, caller: string, status: int)
    | CallClear(caller: string, status: int)
    | CallAbort(caller: string)
    | Dispatch(readable: bool, writable: bool)
    | HalCallback(cb: Callback)
    | TimerFires
    | Advance(ms: nat)
    | Restart(groupStatus: int, enumerateStatus: int)

  /** A daemon process that has just started. */
  function Power(rounding: Adapter.Rounding, database: Option<Names>, templates: set<U32>, clock: nat,
                 groupStatus: int, enumerateStatus: int): World
  {
    World(Boot(rounding, database, groupStatus, enumerateStatus), [],
          Hal(templates, NoOp).Accept(HalEnumerate({}), enumerateStatus), clock, false)
  }

  /** The world is one that a run may start from. */
  ghost predicate Powered(w: World) {
    exists gs, es :: w == Power(w.d.fp.rounding, w.d.database, w.hal.templates, w.clock, gs, es)
  }

  /** The client request passes the daemon's checks and reaches the HAL. */
  predicate Reaches(d: Daemon, e: Event) {
    match e
    case CallEnroll(name, caller, _) => Permits(d, caller) && d.state == Idle && name !in d.names.Values
    case CallIdentify(caller, _) => Permits(d, caller) && d.state == Idle && d.names != map[]
    case CallVerify(caller, _) => Permits(d, caller) && d.state == Idle
    case CallRemove(name, caller, _) => Permits(d, caller) && d.state == Idle && KeyOf(d.names, name) != 0
    case CallClear(caller, _) => Permits(d, caller) && d.state == Idle
    case _ => false
  }

  /** The operation that a client request starts in a HAL that accepts it. */
  function Starts(d: Daemon, e: Event): HalOp {
    match e
    case CallIdentify(_, _) => HalAuthenticate
    case CallRemove(name, _, _) => HalRemove(KeyOf(d.names, name))
    case CallClear(_, _) => HalClear({})
    case _ => HalEnroll
  }

  function Ask(w: World, e: Event, after: Daemon, status: int): World {
    w.(d := after, hal := if Reaches(w.d, e) then w.hal.Accept(Starts(w.d, e), status) else w.hal)
  }

  predicate TimerDue(w: World) {
    w.d.timer.Some? && w.clock >= w.d.timer.value
  }

  function Step(w: World, e: Event): World {
    match e
    case CallEnroll(name, caller, status) => Ask(w, e, Enroll(w.d, name, caller, status).daemon, status)
    case CallIdentify(caller, status) => Ask(w, e, Identify(w.d, caller, w.clock, status).daemon, status)
    case CallVerify(caller, status) => Ask(w, e, Verify(w.d, caller, status).daemon, status)
    case CallRemove(name, caller, status) => Ask(w, e, Remove(w.d, name, caller, status).daemon, status)
    case CallClear(caller, status) => Ask(w, e, Clear(w.d, caller, status), status)
    case CallAbort(caller) => w.(d := Abort(w.d, caller).daemon)
    case Dispatch(readable, writable) =>
      if w.queue == [] then w else
        w.(d := OnNotice(w.d, w.queue[0], readable, writable),
           queue := w.queue[1..],
           loaded := w.loaded || w.queue[0].Enumerated?)
    case HalCallback(cb) =>
      var (fp, posted) := Adapter.OnCallback(w.d.fp, cb);
      w.(d := w.d.(fp := fp), queue := w.queue + posted, hal := w.hal.After(cb))
    case TimerFires => if TimerDue(w) then w.(d := SlotCancelIdentify(w.d)) else w
    case Advance(ms) => w.(clock := w.clock + ms)
    case Restart(groupStatus, enumerateStatus) =>
      Power(w.d.fp.rounding, w.d.database, w.hal.templates, w.clock, groupStatus, enumerateStatus)
  }

  /** The world after the first n events of a run. */
  function At(w0: World, es: seq<Event>, n: nat): World
    requires n <= |es|
  {
    Runs.After(Step, w0, es, n)
  }

  /** What the daemon replies to a request; Clear replies nothing. */
  function ReplyTo(w: World, e: Event): Option<Reply> {
    match e
    case CallEnroll(name, caller, status) => Some(Enroll(w.d, name, caller, status).reply)
    case CallIdentify(caller, status) => Some(Identify(w.d, caller, w.clock, status).reply)
    case CallVerify(caller, status) => Some(Verify(w.d, caller, status).reply)
    case CallRemove(name, caller, status) => Some(Remove(w.d, name, caller, status).reply)
    case CallAbort(caller) => Some(Abort(w.d, caller).reply)
    case _ => None
  }
}
