/** The shape of the signals on the bus and of the requests to the HAL, on every run and without any
    assumption about the HAL. */
module TraceGrammar {
  import opened Vocabulary
  import opened DaemonSpec
  import opened RequestShape
  import opened System
  import Adapter = AdapterSpec
  import EnrolProgress
  import Index
  import Runs

  predicate Busy(s: State) {
    s.Enrolling? || s.Identifying? || s.Enumerating? || s.Removing? || s.Verifying?
  }

  /** The states announced, in order. */
  function States(t: seq<Signal>): seq<State> {
    if t == [] then [] else
      var last := t[|t| - 1];
      States(t[..|t| - 1]) + if last.StateChanged? then [last.state] else []
  }

  lemma {:induction false} StatesGrow(t: seq<Signal>, s: Signal)
    ensures States(t + [s]) == if s.StateChanged? then States(t) + [s.state] else States(t)
  {
    assert (t + [s])[..|t|] == t;
  }

  /** Busy states and Idle take turns, Enumerating first. */
  ghost predicate Alternating(ss: seq<State>) {
    && (ss != [] ==> ss[0] == Enumerating)
    && (forall i :: 0 <= i < |ss| ==> if i % 2 == 0 then Busy(ss[i]) else ss[i] == Idle)
  }

  /** The signals that may come right before the return to Idle. */
  predicate Concludes(s: Signal) {
    s.Aborted? || s.Failed? || s.Identified? || s.ListChanged?
  }

  ghost predicate Concluded(t: seq<Signal>) {
    forall i :: 0 <= i < |t| && t[i] == StateChanged(Idle) ==> i > 0 && Concludes(t[i - 1])
  }

  /** The kinds of HAL request that start an operation. */
  datatype Kind = EnrollKind | AuthenticateKind | RemoveKind | EnumerateKind

  function KindOf(r: HalRequest): Option<Kind> {
    match r
    case AskEnroll => Some(EnrollKind)
    case AskAuthenticate => Some(AuthenticateKind)
    case AskRemove(_) => Some(RemoveKind)
    case AskEnumerate => Some(EnumerateKind)
    case _ => None
  }

  /** The kind of request that goes with a busy state. */
  function KindFor(s: State): Option<Kind> {
    match s
    case Enrolling => Some(EnrollKind)
    case Verifying => Some(EnrollKind)
    case Identifying => Some(AuthenticateKind)
    case Removing => Some(RemoveKind)
    case Enumerating => Some(EnumerateKind)
    case _ => None
  }

  function Kinds(rs: seq<HalRequest>): seq<Kind> {
    if rs == [] then [] else
      var last := KindOf(rs[|rs| - 1]);
      Kinds(rs[..|rs| - 1]) + if last.Some? then [last.value] else []
  }

  lemma {:induction false} KindsGrow(rs: seq<HalRequest>, r: HalRequest)
    ensures Kinds(rs + [r]) == if KindOf(r).Some? then Kinds(rs) + [KindOf(r).value] else Kinds(rs)
  {
    assert (rs + [r])[..|rs|] == rs;
  }

  function BusyKinds(ss: seq<State>): seq<Kind> {
    if ss == [] then [] else
      var last := KindFor(ss[|ss| - 1]);
      BusyKinds(ss[..|ss| - 1]) + if last.Some? then [last.value] else []
  }

  lemma {:induction false} BusyKindsGrow(ss: seq<State>, s: State)
    ensures BusyKinds(ss + [s]) == if KindFor(s).Some? then BusyKinds(ss) + [KindFor(s).value] else BusyKinds(ss)
  {
    assert (ss + [s])[..|ss|] == ss;
  }

  /** The grammar: announced states alternate and the last one is the current state, every return to
      Idle is concluded, and HAL requests match the busy states one to one and in order. */
  ghost predicate WellFormed(state: State, trace: seq<Signal>, requests: seq<HalRequest>) {
    var ss := States(trace);
    && Alternating(ss)
    && state == (if ss == [] then Idle else ss[|ss| - 1])
    && Concluded(trace)
    && Kinds(requests) == BusyKinds(ss)
  }

  ghost predicate Lawful(d: Daemon) {
    WellFormed(d.state, d.trace, d.fp.requests)
  }

  // ---- The three moves that every operation is made of ----

  lemma {:induction false} EmitKeeps(d: Daemon, s: Signal)
    requires Lawful(d) && !s.StateChanged?
    ensures Lawful(Emit(d, s)) && States(Emit(d, s).trace) == States(d.trace)
  {
    StatesGrow(d.trace, s);
  }

  lemma {:induction false} AlternatingGrow(ss: seq<State>, s: State)
    requires Alternating(ss)
    requires if |ss| % 2 == 0 then Busy(s) else s == Idle
    requires ss == [] ==> s == Enumerating
    ensures Alternating(ss + [s])
  {
  }

  lemma {:induction false} ConcludedGrow(t: seq<Signal>, s: Signal)
    requires Concluded(t)
    requires s == StateChanged(Idle) ==> t != [] && Concludes(t[|t| - 1])
    ensures Concluded(t + [s])
  {
  }

  lemma {:induction false} SettleGrow(state: State, trace: seq<Signal>, requests: seq<HalRequest>)
    requires WellFormed(state, trace, requests) && state != Idle
    requires trace != [] && Concludes(trace[|trace| - 1])
    ensures WellFormed(Idle, trace + [StateChanged(Idle)], requests)
    ensures States(trace) <= States(trace + [StateChanged(Idle)])
  {
    StatesGrow(trace, StateChanged(Idle));
    AlternatingGrow(States(trace), Idle);
    ConcludedGrow(trace, StateChanged(Idle));
    BusyKindsGrow(States(trace), Idle);
  }

  lemma {:induction false} SettleKeeps(d: Daemon)
    requires Lawful(d) && d.trace != [] && Concludes(d.trace[|d.trace| - 1])
    ensures Lawful(SetState(d, Idle)) && States(d.trace) <= States(SetState(d, Idle).trace)
  {
    if d.state != Idle {
      SettleGrow(d.state, d.trace, d.fp.requests);
    }
  }

  lemma {:induction false} BeginKeeps(d: Daemon, s: State, request: HalRequest)
    requires Lawful(d) && d.state == Idle && Busy(s)
    requires States(d.trace) == [] ==> s == Enumerating
    requires KindOf(request) == KindFor(s)
    ensures var busy := SetState(d, s);
      Lawful(busy.(fp := Adapter.Ask(busy.fp, request))) && States(busy.trace) != []
  {
    StatesGrow(d.trace, StateChanged(s));
    AlternatingGrow(States(d.trace), s);
    ConcludedGrow(d.trace, StateChanged(s));
    BusyKindsGrow(States(d.trace), s);
    KindsGrow(d.fp.requests, request);
  }

  lemma {:induction false} FailedKeeps(d: Daemon, message: Message)
    requires Lawful(d)
    ensures Lawful(SlotFailed(d, message)) && States(d.trace) <= States(SlotFailed(d, message).trace)
  {
    var told := Emit(d, ErrorInfo(message));
    EmitKeeps(d, ErrorInfo(message));
    EmitKeeps(told, Failed);
    SettleKeeps(Emit(told, Failed));
  }

  lemma {:induction false} CancelKeeps(d: Daemon)
    requires Lawful(d)
    ensures Lawful(d.(fp := Adapter.Cancel(d.fp)))
  {
    KindsGrow(d.fp.requests, AskCancel);
  }

  lemma {:induction false} AbortKeeps(d: Daemon)
    requires Lawful(d)
    ensures Lawful(AbortOperation(d)) && States(d.trace) <= States(AbortOperation(d).trace)
  {
    CancelKeeps(d);
    var cancelled := d.(fp := Adapter.Cancel(d.fp), timer := None);
    EmitKeeps(cancelled, Aborted);
    SettleKeeps(Emit(cancelled, Aborted));
  }

  lemma {:induction false} RequestedKeeps(d: Daemon, fp: Adapter.Adapter, status: int)
    requires Lawful(d.(fp := fp))
    ensures var after := Requested(d, fp, status);
      Lawful(after) && States(d.trace) <= States(after.trace)
  {
    FailedKeeps(d.(fp := fp), RequestRefused(status));
  }

  // ---- Every operation ----

  /** The grammar, in a daemon that has announced its first state. */
  ghost predicate Speaks(d: Daemon) {
    Lawful(d) && States(d.trace) != []
  }

  /** A new daemon after the group request, refused or not. */
  lemma {:induction false} GroupSpeaks(rounding: Adapter.Rounding, database: Option<map<U32, string>>, groupStatus: int)
    ensures var d := FreshDaemon(rounding, database);
            var grouped := d.(fp := Adapter.SetGroup(d.fp));
            var told := if groupStatus == SYS_OK then grouped else SlotFailed(grouped, GroupRefused(groupStatus));
      Lawful(told) && told.state == Idle && States(told.trace) == []
  {
    var d := FreshDaemon(rounding, database);
    var grouped := d.(fp := Adapter.SetGroup(d.fp));
    KindsGrow(d.fp.requests, AskSetGroup);
    assert Lawful(grouped) && States(grouped.trace) == [];
    EmitKeeps(grouped, ErrorInfo(GroupRefused(groupStatus)));
  }

  lemma {:induction false} EnumerateSpeaks(d: Daemon, status: int)
    requires Lawful(d) && d.state == Idle && States(d.trace) == []
    ensures var busy := SetState(d, Enumerating); Speaks(Requested(busy, Adapter.Enumerate(busy.fp), status))
  {
    var busy := SetState(d, Enumerating);
    BeginKeeps(d, Enumerating, AskEnumerate);
    RequestedKeeps(busy, Adapter.Enumerate(busy.fp), status);
  }

  lemma {:induction false} BootSpeaks(rounding: Adapter.Rounding, database: Option<map<U32, string>>,
                   groupStatus: int, enumerateStatus: int)
    ensures Speaks(Boot(rounding, database, groupStatus, enumerateStatus))
  {
    var d := FreshDaemon(rounding, database);
    var grouped := d.(fp := Adapter.SetGroup(d.fp));
    var told := if groupStatus == SYS_OK then grouped else SlotFailed(grouped, GroupRefused(groupStatus));
    GroupSpeaks(rounding, database, groupStatus);
    EnumerateSpeaks(told, enumerateStatus);
  }

  lemma {:induction false} AskingSpeaks(w: World, e: Event)
    requires Speaks(w.d) && Reaches(w.d, e)
    ensures Speaks(Asking(w, e).(fp := Asked(w.d, e)))
  {
    AskedAdapter(w.d, e);
    BeginKeeps(w.d, Announces(e), RequestOf(w.d, e));
  }

  lemma {:induction false} FinishSpeaks(d: Daemon, e: Event)
    requires Speaks(d)
    ensures Speaks(Finish(d, e))
  {
    EmitKeeps(d, EnrollProgressChanged(Some(0)));
  }

  lemma {:induction false} RequestSpeaks(w: World, e: Event)
    requires Speaks(w.d) && Reaches(w.d, e)
    ensures Speaks(Step(w, e).d)
  {
    ReachingShape(w, e);
    AskingSpeaks(w, e);
    RequestedKeeps(Asking(w, e), Asked(w.d, e), e.status);
    FinishSpeaks(Requested(Asking(w, e), Asked(w.d, e), e.status), e);
  }

  lemma {:induction false} FarewellsKeep(d: Daemon, names: seq<string>)
    requires Lawful(d)
    ensures var after := d.(trace := d.trace + Farewells(names));
      Lawful(after) && States(after.trace) == States(d.trace)
    decreases |names|
  {
    if names == [] {
      assert d.trace + Farewells(names) == d.trace;
    } else {
      var front := names[..|names| - 1];
      FarewellsKeep(d, front);
      var last := Removed(names[|names| - 1]);
      assert d.trace + Farewells(names) == d.trace + Farewells(front) + [last];
      EmitKeeps(d.(trace := d.trace + Farewells(front)), last);
    }
  }

  lemma {:induction false} ListChangedKeeps(d: Daemon)
    requires Lawful(d)
    ensures var after := SetState(Emit(d, ListChanged), Idle);
      Lawful(after) && States(d.trace) <= States(after.trace)
  {
    EmitKeeps(d, ListChanged);
    SettleKeeps(Emit(d, ListChanged));
  }

  lemma {:induction false} ProgressSpeaks(d: Daemon, progress: Option<real>)
    requires Speaks(d)
    ensures Speaks(SlotEnrollProgress(d, progress))
  {
    var shown := EnrollProgressChanged(EnrolProgress.PercentOf(d.fp.rounding, progress));
    EmitKeeps(d, shown);
    if d.state == Verifying {
      EmitKeeps(Emit(d, shown), Verified);
      AbortKeeps(Emit(Emit(d, shown), Verified));
    }
  }

  lemma {:induction false} SucceededSpeaks(d: Daemon, id: U32, writable: bool)
    requires Speaks(d)
    ensures Speaks(SlotSucceeded(d, id, writable))
  {
    EmitKeeps(d, Added(d.adding));
    var added := Emit(d.(names := d.names[id := d.adding]), Added(d.adding)).(adding := "");
    ListChangedKeeps(Save(added, writable));
  }

  lemma {:induction false} RemovedSpeaks(d: Daemon, id: U32, writable: bool)
    requires Speaks(d)
    ensures Speaks(SlotRemoved(d, id, writable))
  {
    if id != 0 {
      EmitKeeps(d, Removed(if id in d.names then d.names[id] else ""));
    } else {
      FarewellsKeep(d, Index.OrderedValues(d.names));
    }
    ListChangedKeeps(Save(Forget(d, id), writable));
  }

  lemma {:induction false} AuthenticatedSpeaks(d: Daemon, id: U32)
    requires Speaks(d)
    ensures Speaks(SlotAuthenticated(d, id))
  {
    var name := if id in d.names then d.names[id] else Index.UnknownName(id);
    EmitKeeps(d.(timer := None), Identified(name));
    SettleKeeps(Emit(d.(timer := None), Identified(name)));
  }

  lemma {:induction false} AcquiredSpeaks(d: Daemon, code: int)
    requires Speaks(d)
    ensures Speaks(SlotAcquired(d, code))
  {
    EmitKeeps(d, AcquisitionInfo(AcquiredOf(code)));
  }

  lemma {:induction false} EnumeratedSpeaks(d: Daemon, readable: bool, writable: bool)
    requires Speaks(d)
    ensures Speaks(SlotEnumerated(d, readable, writable))
  {
    ListChangedKeeps(Load(d, readable, writable));
  }

  lemma {:induction false} FailedSpeaks(d: Daemon, message: Message)
    requires Speaks(d)
    ensures Speaks(SlotFailed(d, message))
  {
    FailedKeeps(d, message);
  }

  lemma {:induction false} IndexNoticeSpeaks(d: Daemon, notice: Notice, readable: bool, writable: bool)
    requires Speaks(d) && (notice.Succeeded? || notice.RemovedId? || notice.Enumerated?)
    ensures Speaks(OnNotice(d, notice, readable, writable))
  {
    match notice
    case Succeeded(id) => SucceededSpeaks(d, id, writable);
    case RemovedId(id) => RemovedSpeaks(d, id, writable);
    case Enumerated => EnumeratedSpeaks(d, readable, writable);
  }

  lemma {:induction false} NoticeSpeaks(d: Daemon, notice: Notice, readable: bool, writable: bool)
    requires Speaks(d)
    ensures Speaks(OnNotice(d, notice, readable, writable))
  {
    match notice
    case EnrollProgress(progress) => ProgressSpeaks(d, progress);
    case FailedWith(message) => FailedSpeaks(d, message);
    case AcquiredCode(code) => AcquiredSpeaks(d, code);
    case Authenticated(id) => AuthenticatedSpeaks(d, id);
    case _ => IndexNoticeSpeaks(d, notice, readable, writable);
  }

  lemma {:induction false} CancelIdentifySpeaks(d: Daemon)
    requires Speaks(d)
    ensures Speaks(SlotCancelIdentify(d))
  {
    CancelKeeps(d);
    var cancelled := d.(fp := Adapter.Cancel(d.fp), timer := None);
    EmitKeeps(cancelled, Failed);
    SettleKeeps(Emit(cancelled, Failed));
  }

  lemma {:induction false} CallbackSpeaks(d: Daemon, cb: Callback)
    requires Speaks(d)
    ensures Speaks(d.(fp := Adapter.OnCallback(d.fp, cb).0))
  {
    KindsGrow(d.fp.requests, AskPostEnroll);
  }

  lemma {:induction false} ClientSpeaks(w: World, e: Event)
    requires Speaks(w.d)
    requires e.CallEnroll? || e.CallIdentify? || e.CallVerify? || e.CallRemove? || e.CallClear?
    ensures Speaks(Step(w, e).d)
  {
    if Reaches(w.d, e) {
      RequestSpeaks(w, e);
    } else {
      RejectedRequestsDoNothing(w, e);
    }
  }

  lemma {:induction false} AbortSpeaks(d: Daemon, caller: string)
    requires Speaks(d)
    ensures Speaks(Abort(d, caller).daemon)
  {
    AbortKeeps(d);
  }

  lemma {:induction false} DispatchSpeaks(w: World, e: Event)
    requires Speaks(w.d) && e.Dispatch?
    ensures Speaks(Step(w, e).d)
  {
    if w.queue != [] {
      NoticeSpeaks(w.d, w.queue[0], e.readable, e.writable);
    }
  }

  lemma {:induction false} TimerSpeaks(w: World)
    requires Speaks(w.d)
    ensures Speaks(Step(w, TimerFires).d)
  {
    if TimerDue(w) {
      CancelIdentifySpeaks(w.d);
      assert Step(w, TimerFires).d == SlotCancelIdentify(w.d);
    } else {
      assert Step(w, TimerFires).d == w.d;
    }
  }

  lemma {:induction false} StepSpeaks(w: World, e: Event)
    requires Speaks(w.d)
    ensures Speaks(Step(w, e).d)
  {
    var d' := Step(w, e).d;
    match e
    case CallAbort(caller) =>
      AbortSpeaks(w.d, caller);
      assert d' == Abort(w.d, caller).daemon;
    case Dispatch(_, _) => DispatchSpeaks(w, e);
    case HalCallback(cb) =>
      CallbackSpeaks(w.d, cb);
      assert d' == w.d.(fp := Adapter.OnCallback(w.d.fp, cb).0);
    case TimerFires => TimerSpeaks(w);
    case Advance(ms) =>
      assert d' == w.d;
    case Restart(groupStatus, enumerateStatus) =>
      BootSpeaks(w.d.fp.rounding, w.d.database, groupStatus, enumerateStatus);
      assert d' == Boot(w.d.fp.rounding, w.d.database, groupStatus, enumerateStatus);
    case _ => ClientSpeaks(w, e);
  }

  /** On every run, at every point: the announced states alternate between busy states and Idle,
      starting with Enumerating, and the last one is the current state, which is never one of the
      unused states; every announced return to Idle directly follows Aborted, Failed, Identified or
      ListChanged; and the HAL requests of the process are, in order, those of the busy states. */
  lemma {:induction false} EveryRunSpeaks(w0: World, es: seq<Event>, n: nat)
    requires Powered(w0) && n <= |es|
    ensures var d := At(w0, es, n).d; var ss := States(d.trace);
      && ss != [] && ss[0] == Enumerating
      && (forall i :: 0 <= i < |ss| ==> if i % 2 == 0 then Busy(ss[i]) else ss[i] == Idle)
      && d.state == ss[|ss| - 1]
      && (d.state == Idle || Busy(d.state))
      && (forall i :: 0 <= i < |d.trace| && d.trace[i] == StateChanged(Idle) ==>
            i > 0 && Concludes(d.trace[i - 1]))
      && Kinds(d.fp.requests) == BusyKinds(ss)
  {
    var gs, st :| w0 == Power(w0.d.fp.rounding, w0.d.database, w0.hal.templates, w0.clock, gs, st);
    BootSpeaks(w0.d.fp.rounding, w0.d.database, gs, st);
    var inv := (w: World) => Speaks(w.d);
    forall w, e: Event | inv(w) ensures inv(Step(w, e)) {
      StepSpeaks(w, e);
    }
    Runs.Always(Step, inv, w0, es, n);
  }

  /** A client request that does not reach the HAL leaves the world as it was: it issues no request,
      emits no signal and changes no field.  Started is the reply exactly when it does reach it. */
  lemma {:induction false} RejectedRequestsDoNothing(w: World, e: Event)
    requires e.CallEnroll? || e.CallIdentify? || e.CallVerify? || e.CallRemove? || e.CallClear?
    ensures !Reaches(w.d, e) ==> Step(w, e) == w
    ensures ReplyTo(w, e).Some? ==> (ReplyTo(w, e) == Some(Started) <==> Reaches(w.d, e))
  {
    match e {
      case CallEnroll(name, caller, status) =>
      case CallIdentify(caller, status) =>
      case CallVerify(caller, status) =>
      case CallRemove(name, caller, status) =>
      case CallClear(caller, status) =>
    }
  }

  /** A request that reaches the HAL issues exactly one request, of the kind of the state that it
      announces before. */
  lemma {:induction false} ReachingRequestsAskOnce(w: World, e: Event)
    requires Reaches(w.d, e)
    ensures var d := Step(w, e).d;
      && d.fp.requests == w.d.fp.requests + [RequestOf(w.d, e)]
      && w.d.trace + [StateChanged(Announces(e))] <= d.trace
      && KindOf(RequestOf(w.d, e)) == KindFor(Announces(e))
  {
    ReachingShape(w, e);
    AskedAdapter(w.d, e);
    RequestedOutcome(Asking(w, e), Asked(w.d, e), e.status);
  }
}
