/** The index and the sensor's template store agree, as far as the notices still queued allow. */
module Agreement {
  import opened Vocabulary
  import opened Index
  import opened DaemonSpec
  import opened System
  import opened Frames
  import Adapter = AdapterSpec
  import Runs
  import Sessions

  // ---- The contract ----

  /** The HAL works on one operation at a time: it accepts no request while it removes templates; it
      enrols under new non-zero ids and finishes every enrolment; a clear counts down to 0 over the
      stored templates; an enumeration reports exactly the stored templates; it calls back only for
      the operation it works on; and no error ends a clear that has begun to delete. */
  predicate HalContract(w: World, e: Event) {
    match e
    case HalCallback(EnrollResult(id, remaining, postEnroll)) =>
      && w.hal.op.HalEnroll?
      && (remaining == 0 ==> id != 0 && id !in w.hal.templates && postEnroll == SYS_OK)
    case HalCallback(RemoveResult(id, remaining)) =>
      && w.hal.op.Removes()
      && (w.hal.op.HalClear? ==>
            && (w.hal.templates != {} ==> id in w.hal.templates)
            && (remaining == 0 <==> w.hal.templates - {id} == {}))
    case HalCallback(EnumerateResult(id, remaining)) =>
      && w.hal.op.HalEnumerate?
      && (remaining == 0 ==> w.hal.op.reported + ({id} - {0}) == w.hal.templates)
    case HalCallback(ErrorResult(error, _)) =>
      w.hal.op.HalClear? && error != 0 ==> w.hal.op.deleted == {}
    case HalCallback(_) => true
    case _ => Reaches(w.d, e) && e.status == SYS_OK ==> !w.hal.op.Removes()
  }

  /** Clients do not get to ask for a removal while the HAL is still at one. */
  predicate Patient(w: World, e: Event) {
    (e.CallRemove? || e.CallClear?) && Reaches(w.d, e) ==> !w.hal.op.Removes()
  }

  predicate Contract(w: World, e: Event) {
    HalContract(w, e) && Patient(w, e)
  }

  // ---- Replay ----

  /** The ids in the index once this notice has been delivered. */
  function AfterNotice(keys: set<U32>, fingers: seq<U32>, n: Notice): set<U32> {
    match n
    case Succeeded(id) => keys + {id}
    case RemovedId(id) => if id == 0 then {} else keys - {id}
    case Enumerated => SetOf(fingers)
    case _ => keys
  }

  /** The ids in the index once the whole queue has been delivered. */
  function Replay(keys: set<U32>, fingers: seq<U32>, q: seq<Notice>): set<U32>
    decreases |q|
  {
    if q == [] then keys else Replay(AfterNotice(keys, fingers, q[0]), fingers, q[1..])
  }

  lemma {:induction false} ReplayMore(keys: set<U32>, fingers: seq<U32>, q: seq<Notice>, n: Notice)
    ensures Replay(keys, fingers, q + [n]) == AfterNotice(Replay(keys, fingers, q), fingers, n)
    decreases |q|
  {
    if q == [] {
      assert q + [n] == [n];
    } else {
      assert (q + [n])[1..] == q[1..] + [n];
      ReplayMore(AfterNotice(keys, fingers, q[0]), fingers, q[1..], n);
    }
  }

  /** How many loads the queue will trigger. */
  function Loads(q: seq<Notice>): nat {
    if q == [] then 0 else (if q[0].Enumerated? then 1 else 0) + Loads(q[1..])
  }

  lemma {:induction false} LoadsMore(q: seq<Notice>, n: Notice)
    ensures Loads(q + [n]) == Loads(q) + if n.Enumerated? then 1 else 0
    decreases |q|
  {
    if q == [] {
      assert q + [n] == [n];
    } else {
      assert (q + [n])[1..] == q[1..] + [n];
      LoadsMore(q[1..], n);
    }
  }

  /** The index has been loaded or will be by what is queued. */
  predicate Known(w: World) {
    w.loaded || Loads(w.queue) > 0
  }

  function Replayed(w: World): set<U32> {
    Replay(w.d.names.Keys, w.d.fp.fingers, w.queue)
  }

  // ---- The invariant ----

  /** Delivering what is queued would make the ids of the index those that the sensor holds. */
  predicate Agreed(w: World) {
    Known(w) ==> Replayed(w) == w.hal.Held()
  }

  /** A process loads at most once, an enumeration under way is of ids the adapter has all seen, and no
      single removal is of the id 0. */
  predicate Tied(w: World) {
    && Loads(w.queue) + (if w.loaded then 1 else 0) <= 1
    && (w.hal.op.HalEnumerate? ==> !Known(w) && SetOf(w.d.fp.fingers) == w.hal.op.reported)
    && (w.hal.op.HalRemove? ==> w.hal.op.id != 0)
  }

  /** The adapter knows which removal is under way. */
  predicate Expected(w: World) {
    && (w.hal.op.HalRemove? ==> w.d.fp.removing == w.hal.op.id)
    && (w.hal.op.HalClear? ==> w.d.fp.removing == 0)
  }

  predicate Agrees(w: World) {
    Agreed(w) && Tied(w) && Expected(w)
  }

  // ---- What endangers it ----

  /** An adapter that takes `expected` to be under removal - 0 for a clear - misreads the final removal
      callback for this id: it reports ids that the sensor keeps, or none where the sensor loses some. */
  predicate MisreadAs(hal: Hal, id: U32, expected: U32) {
    match hal.op
    case HalRemove(target) =>
      if expected == 0 then hal.templates - (if id == target then {target} else {}) != {}
      else if id == target then expected != target && target in hal.templates
      else expected == id && id in hal.templates
    case HalClear(_) =>
      expected != 0 && hal.Held() - (if id == expected then {expected} else {}) != {}
    case _ => false
  }

  predicate Misreads(w: World, e: Event) {
    && Known(w)
    && e.HalCallback? && e.cb.RemoveResult? && e.cb.remaining == 0
    && MisreadAs(w.hal, e.cb.id, w.d.fp.removing)
  }

  /** The HAL keeps its contract and the adapter misreads nothing. */
  predicate ReadRight(w: World, e: Event) {
    HalContract(w, e) && !Misreads(w, e)
  }

  /** What holds after a step from a tied world: tied again, and from an agreed one agreed exactly if the
      event is not misread. */
  ghost predicate KeepsIff(w: World, e: Event) {
    && Tied(Step(w, e))
    && (Agreed(w) ==> (Agreed(Step(w, e)) <==> !Misreads(w, e)))
  }

  /** A delivered notice acts on the ids as Replay says, and not on the adapter. */
  lemma {:induction false} NoticeKeys(d: Daemon, n: Notice, readable: bool, writable: bool)
    ensures var d' := OnNotice(d, n, readable, writable);
      && d'.names.Keys == AfterNotice(d.names.Keys, d.fp.fingers, n)
      && d'.fp.fingers == d.fp.fingers && d'.fp.removing == d.fp.removing
  {
    if !IndexNotice(n) && !n.AcquiredCode? {
      OtherNoticeFrame(d, n, readable, writable);
    }
  }

  lemma {:induction false} DispatchKeeps(w: World, e: Event)
    requires Tied(w) && e.Dispatch?
    ensures KeepsIff(w, e)
  {
    if w.queue != [] {
      NoticeKeys(w.d, w.queue[0], e.readable, e.writable);
    }
  }

  lemma {:induction false} CallKeeps(w: World, e: Event)
    requires Tied(w) && HalContract(w, e) && Sessions.IsCall(e)
    ensures KeepsIff(w, e)
  {
    CallFrame(w, e);
  }

  lemma {:induction false} EnrollResultKeeps(w: World, e: Event)
    requires Tied(w) && HalContract(w, e) && e.HalCallback? && e.cb.EnrollResult?
    ensures KeepsIff(w, e)
  {
    var keys, fingers := w.d.names.Keys, w.d.fp.fingers;
    var (fp, posted) := Adapter.OnCallback(w.d.fp, e.cb);
    ReplayMore(keys, fingers, w.queue, posted[0]);
    LoadsMore(w.queue, posted[0]);
    if e.cb.remaining == 0 {
      ReplayMore(keys, fingers, w.queue + [posted[0]], posted[1]);
      LoadsMore(w.queue + [posted[0]], posted[1]);
      assert w.queue + posted == w.queue + [posted[0]] + [posted[1]];
    }
  }

  /** A callback for a removal keeps an agreement exactly if it is not misread. */
  lemma {:induction false} RemovalCallbackAgreesIff(w: World, id: U32, remaining: U32)
    requires Known(w) && Replayed(w) == w.hal.Held()
    requires w.hal.op.HalRemove? ==> w.hal.op.id != 0
    requires w.hal.op.HalClear? ==> (remaining == 0 <==> w.hal.templates - {id} == {})
    requires w.hal.op.Removes()
    ensures var w' := Step(w, HalCallback(RemoveResult(id, remaining)));
      && Known(w')
      && (Replayed(w') == w'.hal.Held() <==> !(remaining == 0 && MisreadAs(w.hal, id, w.d.fp.removing)))
  {
    var (fp, posted) := Adapter.OnCallback(w.d.fp, RemoveResult(id, remaining));
    if posted == [] {
      assert w.queue + posted == w.queue;
    } else {
      ReplayMore(w.d.names.Keys, w.d.fp.fingers, w.queue, posted[0]);
      LoadsMore(w.queue, posted[0]);
    }
  }

  lemma {:induction false} RemoveResultKeeps(w: World, e: Event)
    requires Tied(w) && HalContract(w, e) && e.HalCallback? && e.cb.RemoveResult?
    ensures KeepsIff(w, e)
  {
    var (fp, posted) := Adapter.OnCallback(w.d.fp, e.cb);
    if posted == [] {
      assert w.queue + posted == w.queue;
    } else {
      LoadsMore(w.queue, posted[0]);
    }
    if Known(w) && Agreed(w) {
      RemovalCallbackAgreesIff(w, e.cb.id, e.cb.remaining);
    }
  }

  lemma {:induction false} EnumerateResultKeeps(w: World, e: Event)
    requires Tied(w) && HalContract(w, e) && e.HalCallback? && e.cb.EnumerateResult?
    ensures KeepsIff(w, e)
  {
    var (fp, posted) := Adapter.OnCallback(w.d.fp, e.cb);
    assert SetOf(fp.fingers) == SetOf(w.d.fp.fingers) + ({e.cb.id} - {0});
    if posted == [] {
      assert w.queue + posted == w.queue;
    } else {
      ReplayMore(w.d.names.Keys, fp.fingers, w.queue, Enumerated);
      LoadsMore(w.queue, Enumerated);
    }
  }

  lemma {:induction false} OtherResultKeeps(w: World, e: Event)
    requires Tied(w) && HalContract(w, e) && e.HalCallback?
    requires e.cb.AcquiredResult? || e.cb.AuthResult? || e.cb.ErrorResult?
    ensures KeepsIff(w, e)
  {
    var (fp, posted) := Adapter.OnCallback(w.d.fp, e.cb);
    if posted == [] {
      assert w.queue + posted == w.queue;
    } else {
      ReplayMore(w.d.names.Keys, w.d.fp.fingers, w.queue, posted[0]);
      LoadsMore(w.queue, posted[0]);
    }
  }

  lemma {:induction false} PowerAgrees(
      rounding: Adapter.Rounding, database: Option<Names>, templates: set<U32>, clock: nat,
      groupStatus: int, enumerateStatus: int)
    ensures Agrees(Power(rounding, database, templates, clock, groupStatus, enumerateStatus))
  {
    BootFrame(rounding, database, groupStatus, enumerateStatus);
  }

  lemma {:induction false} PoweredAgrees(w0: World)
    requires Powered(w0)
    ensures Agrees(w0)
  {
    var gs, st :| w0 == Power(w0.d.fp.rounding, w0.d.database, w0.hal.templates, w0.clock, gs, st);
    PowerAgrees(w0.d.fp.rounding, w0.d.database, w0.hal.templates, w0.clock, gs, st);
  }

  /** Whatever the clients ask for and when, under the HAL's contract an event keeps the agreement
      exactly if it is no misread removal callback. */
  lemma {:induction false} StepAgreedIff(w: World, e: Event)
    requires Tied(w) && HalContract(w, e)
    ensures Tied(Step(w, e))
    ensures Agreed(w) ==> (Agreed(Step(w, e)) <==> !Misreads(w, e))
  {
    match e {
      case Dispatch(_, _) => DispatchKeeps(w, e);
      case HalCallback(cb) =>
        match cb {
          case EnrollResult(_, _, _) => EnrollResultKeeps(w, e);
          case RemoveResult(_, _) => RemoveResultKeeps(w, e);
          case EnumerateResult(_, _) => EnumerateResultKeeps(w, e);
          case _ => OtherResultKeeps(w, e);
        }
      case TimerFires => TimerFrame(w.d);
      case Advance(_) =>
      case Restart(groupStatus, enumerateStatus) =>
        PowerAgrees(w.d.fp.rounding, w.d.database, w.hal.templates, w.clock, groupStatus, enumerateStatus);
      case _ => CallKeeps(w, e);
    }
  }

  // ---- With patient clients ----

  lemma {:induction false} StepExpected(w: World, e: Event)
    requires Expected(w) && Contract(w, e)
    ensures Expected(Step(w, e))
  {
    match e {
      case Dispatch(_, _) =>
        if w.queue != [] {
          NoticeKeys(w.d, w.queue[0], e.readable, e.writable);
        }
      case HalCallback(_) =>
      case TimerFires => TimerFrame(w.d);
      case Advance(_) =>
      case Restart(groupStatus, enumerateStatus) =>
        PowerAgrees(w.d.fp.rounding, w.d.database, w.hal.templates, w.clock, groupStatus, enumerateStatus);
      case _ => CallFrame(w, e);
    }
  }

  /** The contract with patient clients keeps the agreement: an adapter that knows what is under way
      misreads nothing. */
  lemma {:induction false} StepAgrees(w: World, e: Event)
    requires Agrees(w) && Contract(w, e)
    ensures Agrees(Step(w, e)) && !Misreads(w, e)
  {
    StepAgreedIff(w, e);
    StepExpected(w, e);
  }

  /** Index/store agreement: under the contract, at every point after the first load of a process -
      through aborted operations, late notices and restarts - delivering what is queued would make
      the ids of the index exactly the sensor's templates, together with those that a clear in
      progress has already deleted.  With nothing queued and no clear in progress, they are equal. */
  lemma {:induction false} IndexAgreesWithSensor(w0: World, es: seq<Event>, n: nat)
    requires Powered(w0) && n <= |es|
    requires Runs.Throughout(Step, Contract, w0, es, n)
    ensures var w := At(w0, es, n);
      && (w.loaded ==> Replay(w.d.names.Keys, w.d.fp.fingers, w.queue) == w.hal.Held())
      && (w.loaded && w.queue == [] && !w.hal.op.HalClear? ==> w.d.names.Keys == w.hal.templates)
  {
    AgreesAlong(w0, es, n);
  }

  lemma {:induction false} AgreesAlong(w0: World, es: seq<Event>, n: nat)
    requires Powered(w0) && n <= |es|
    requires Runs.Throughout(Step, Contract, w0, es, n)
    ensures Agrees(At(w0, es, n))
  {
    PoweredAgrees(w0);
    forall w, e | Agrees(w) && Contract(w, e) ensures Agrees(Step(w, e)) {
      StepAgrees(w, e);
    }
    Runs.Invariant(Step, Agrees, Contract, w0, es, n);
  }

  /** Whatever is misread, the HAL's contract alone keeps a run tied. */
  lemma {:induction false} TiedAlong(w0: World, es: seq<Event>, n: nat)
    requires Powered(w0) && n <= |es|
    requires Runs.Throughout(Step, HalContract, w0, es, n)
    ensures Tied(At(w0, es, n))
  {
    PoweredAgrees(w0);
    forall w, e | Tied(w) && HalContract(w, e) ensures Tied(Step(w, e)) {
      StepAgreedIff(w, e);
    }
    Runs.Invariant(Step, Tied, HalContract, w0, es, n);
  }

  /** With patient clients nothing is misread. */
  lemma {:induction false} ContractReadsRight(w0: World, es: seq<Event>, n: nat)
    requires Powered(w0) && n <= |es|
    requires Runs.Throughout(Step, Contract, w0, es, n)
    ensures Runs.Throughout(Step, ReadRight, w0, es, n)
  {
    PoweredAgrees(w0);
    forall w, e | Agrees(w) && Contract(w, e) ensures Agrees(Step(w, e)) && ReadRight(w, e) {
      StepAgrees(w, e);
    }
    Runs.ThroughoutFollows(Step, Agrees, Contract, ReadRight, w0, es, n);
  }
}
