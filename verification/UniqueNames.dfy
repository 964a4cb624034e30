/** When no two ids share a name, and how they come to share one. */
module UniqueNames {
  import opened Vocabulary
  import opened Index
  import opened DaemonSpec
  import opened RequestShape
  import opened System
  import opened Frames
  import opened Agreement
  import opened TraceGrammar
  import Adapter = AdapterSpec
  import Persistence
  import Runs
  import Sessions

  ghost predicate Injective(m: Names) {
    forall j, k :: j in m && k in m && m[j] == m[k] ==> j == k
  }

  /** The name has the form that the daemon makes up for unknown ids. */
  ghost predicate MadeUp(name: string) {
    exists k: U32 :: name == UnknownName(k)
  }

  /** Injective, with made-up names only on their own ids. */
  ghost predicate Proper(m: Names) {
    && Injective(m)
    && forall j, k :: j in m && m[j] == UnknownName(k) ==> j == k
  }

  // ---- The exact condition ----

  /** A success is delivered while the pending name is on another id. */
  ghost predicate SuccessClash(w: World, e: Event) {
    && e.Dispatch? && w.queue != [] && w.queue[0].Succeeded?
    && exists k :: k in w.d.names && k != w.queue[0].id && w.d.names[k] == w.d.adding
  }

  /** The stored index names a reported id as the daemon would name another reported id that the stored
      index does not know. */
  ghost predicate Confusable(stored: Names, ids: seq<U32>) {
    exists j, k :: j in ids && k in ids && j in stored && k !in stored && stored[j] == UnknownName(k)
  }

  ghost predicate LoadClash(w: World, e: Event) {
    e.Dispatch? && w.queue != [] && w.queue[0].Enumerated? && Confusable(Stored(w.d, e.readable), w.d.fp.fingers)
  }

  ghost predicate Clashes(w: World, e: Event) {
    SuccessClash(w, e) || LoadClash(w, e)
  }

  ghost predicate UniqueIndex(w: World) {
    Injective(w.d.names)
  }

  ghost predicate UniqueFile(w: World) {
    w.d.database.Some? ==> Injective(w.d.database.value)
  }

  lemma {:induction false} SuccessInjectiveIff(m: Names, id: U32, name: string)
    requires Injective(m)
    ensures Injective(m[id := name]) <==> !exists k :: k in m && k != id && m[k] == name
  {
    var more := m[id := name];
    forall k | k in m && k != id && Injective(more) ensures m[k] != name {
      assert more[k] == m[k] && more[id] == name;
    }
  }

  lemma {:induction false} LoadInjectiveIff(stored: Names, ids: seq<U32>)
    requires Injective(stored)
    ensures Injective(Reconcile(stored, ids)) <==> !Confusable(stored, ids)
  {
    var m := Reconcile(stored, ids);
    if Confusable(stored, ids) {
      var j, k :| j in ids && k in ids && j in stored && k !in stored && stored[j] == UnknownName(k);
      assert m[j] == m[k];
    } else {
      forall j, k | j in m && k in m && m[j] == m[k] ensures j == k {
        if j !in stored && k !in stored {
          UnknownInjective(j, k);
        }
      }
    }
  }

  /** The index after a notice that changes it. */
  function NamesAfter(d: Daemon, n: Notice, readable: bool): Names {
    match n
    case Succeeded(id) => d.names[id := d.adding]
    case RemovedId(id) => if id == 0 then map[] else d.names - {id}
    case Enumerated => Reconcile(Stored(d, readable), d.fp.fingers)
    case _ => d.names
  }

  lemma {:induction false} IndexNoticeNames(d: Daemon, n: Notice, readable: bool, writable: bool)
    requires IndexNotice(n)
    ensures var d' := OnNotice(d, n, readable, writable);
      d'.names == NamesAfter(d, n, readable) && d'.database == if writable then Some(d'.names) else d.database
  {
  }

  lemma {:induction false} NamesAfterUniqueIff(d: Daemon, n: Notice, readable: bool)
    requires Injective(d.names) && (d.database.Some? ==> Injective(d.database.value)) && IndexNotice(n)
    ensures Injective(NamesAfter(d, n, readable)) <==>
            match n
            case Succeeded(id) => !exists k :: k in d.names && k != id && d.names[k] == d.adding
            case Enumerated => !Confusable(Stored(d, readable), d.fp.fingers)
            case _ => true
  {
    match n
    case Succeeded(id) => SuccessInjectiveIff(d.names, id, d.adding);
    case RemovedId(_) =>
    case Enumerated => LoadInjectiveIff(Stored(d, readable), d.fp.fingers);
  }

  lemma {:induction false} StepUniqueIff(w: World, e: Event)
    requires UniqueIndex(w) && UniqueFile(w)
    ensures UniqueIndex(Step(w, e)) <==> !Clashes(w, e)
    ensures UniqueIndex(Step(w, e)) ==> UniqueFile(Step(w, e))
  {
    if IndexEvent(w, e) {
      IndexNoticeNames(w.d, w.queue[0], e.readable, e.writable);
      NamesAfterUniqueIff(w.d, w.queue[0], e.readable);
    } else if e.Restart? {
      BootFrame(w.d.fp.rounding, w.d.database, e.groupStatus, e.enumerateStatus);
    } else {
      Persistence.NonIndexKeeps(w, e);
    }
  }

  /** From a database without shared names, and whatever clients and HAL do, no two ids share a name at
      any point of a run if and only if no delivery of the run clashes: no success arrives while the
      pending name is on another id, and no load makes up a name that the file has on another id. */
  lemma {:induction false} NamesAreUniqueIff(w0: World, es: seq<Event>, n: nat)
    requires Powered(w0) && n <= |es|
    requires w0.d.database.Some? ==> Injective(w0.d.database.value)
    ensures Runs.GoodUpTo(Step, UniqueIndex, w0, es, 0, n) <==> Runs.NoneOf(Step, Clashes, w0, es, 0, n)
  {
    Persistence.PoweredFresh(w0);
    var ok := (w: World, e: Event) => true;
    forall w, e | UniqueFile(w) && UniqueIndex(w)
      ensures (UniqueIndex(Step(w, e)) <==> !Clashes(w, e)) && (UniqueIndex(Step(w, e)) ==> UniqueFile(Step(w, e)))
    {
      StepUniqueIff(w, e);
    }
    Runs.BetweenIsEach(Step, ok, w0, es, 0, n);
    Runs.GoodIffNoneBad(Step, UniqueFile, UniqueIndex, ok, Clashes, w0, es, 0, n);
  }

  // ---- Without made-up names ----

  /** Clients do not enrol under made-up names. */
  ghost predicate EnrolsOwnNames(w: World, e: Event) {
    e.CallEnroll? ==> !MadeUp(e.name)
  }

  ghost predicate Genuine(w: World) {
    && Proper(w.d.names)
    && (w.d.database.Some? ==> Proper(w.d.database.value))
    && !MadeUp(w.d.adding)
  }

  function AddingNext(w: World, e: Event): string {
    match e
    case CallEnroll(name, _, _) => if Reaches(w.d, e) then name else w.d.adding
    case Dispatch(_, _) => if w.queue != [] && w.queue[0].Succeeded? then "" else w.d.adding
    case Restart(_, _) => ""
    case _ => w.d.adding
  }

  lemma {:induction false} NoticeAdding(w: World, e: Event)
    requires e.Dispatch? && w.queue != []
    ensures Step(w, e).d.adding == AddingNext(w, e)
  {
    match w.queue[0] {
      case EnrollProgress(_) =>
      case Succeeded(_) =>
      case FailedWith(_) =>
      case RemovedId(_) =>
      case AcquiredCode(_) =>
      case Authenticated(_) =>
      case Enumerated =>
    }
  }

  lemma {:induction false} RequestAdding(w: World, e: Event)
    requires Reaches(w.d, e)
    ensures Step(w, e).d.adding == AddingNext(w, e)
  {
    ReachingShape(w, e);
    RequestedOutcome(Asking(w, e), Asked(w.d, e), e.status);
  }

  lemma {:induction false} BootAdding(rounding: Adapter.Rounding, database: Option<Names>,
                                      groupStatus: int, enumerateStatus: int)
    ensures Boot(rounding, database, groupStatus, enumerateStatus).adding == ""
  {
  }

  lemma {:induction false} StepAdding(w: World, e: Event)
    ensures Step(w, e).d.adding == AddingNext(w, e)
  {
    match e {
      case Dispatch(_, _) =>
        if w.queue != [] {
          NoticeAdding(w, e);
        }
      case Restart(groupStatus, enumerateStatus) =>
        BootAdding(w.d.fp.rounding, w.d.database, groupStatus, enumerateStatus);
      case CallAbort(_) =>
      case HalCallback(_) =>
      case TimerFires =>
      case Advance(_) =>
      case _ =>
        if Reaches(w.d, e) {
          RequestAdding(w, e);
        } else {
          RejectedRequestsDoNothing(w, e);
        }
    }
  }

  lemma {:induction false} EmptyIsNotMadeUp()
    ensures !MadeUp("")
  {
    assert forall k: U32 :: |UnknownName(k)| >= 8;
  }

  lemma {:induction false} ReconcileProper(stored: Names, ids: seq<U32>)
    requires Proper(stored)
    ensures Proper(Reconcile(stored, ids)) && !Confusable(stored, ids)
  {
    LoadInjectiveIff(stored, ids);
    var m := Reconcile(stored, ids);
    forall j, k: U32 | j in m && m[j] == UnknownName(k) ensures j == k {
      if j !in stored {
        UnknownInjective(j, k);
      }
    }
  }

  lemma {:induction false} NamesAfterProper(d: Daemon, n: Notice, readable: bool)
    requires Proper(d.names) && (d.database.Some? ==> Proper(d.database.value)) && !MadeUp(d.adding)
    requires IndexNotice(n) && Injective(NamesAfter(d, n, readable))
    ensures Proper(NamesAfter(d, n, readable))
  {
    match n
    case Succeeded(_) =>
    case RemovedId(_) =>
    case Enumerated => ReconcileProper(Stored(d, readable), d.fp.fingers);
  }

  lemma {:induction false} StepGenuine(w: World, e: Event)
    requires Genuine(w) && EnrolsOwnNames(w, e)
    ensures UniqueIndex(Step(w, e)) <==> !SuccessClash(w, e)
    ensures UniqueIndex(Step(w, e)) ==> Genuine(Step(w, e))
  {
    StepUniqueIff(w, e);
    StepAdding(w, e);
    EmptyIsNotMadeUp();
    if e.Dispatch? && w.queue != [] && w.queue[0].Enumerated? {
      ReconcileProper(Stored(w.d, e.readable), w.d.fp.fingers);
    }
    if UniqueIndex(Step(w, e)) {
      if IndexEvent(w, e) {
        IndexNoticeNames(w.d, w.queue[0], e.readable, e.writable);
        NamesAfterProper(w.d, w.queue[0], e.readable);
      } else if e.Restart? {
        BootFrame(w.d.fp.rounding, w.d.database, e.groupStatus, e.enumerateStatus);
      } else {
        Persistence.NonIndexKeeps(w, e);
      }
    }
  }

  lemma {:induction false} PoweredGenuine(w0: World)
    requires Powered(w0)
    requires w0.d.database.Some? ==> Proper(w0.d.database.value)
    ensures Genuine(w0)
  {
    Persistence.PoweredFresh(w0);
    EmptyIsNotMadeUp();
    var gs, st :| w0 == Power(w0.d.fp.rounding, w0.d.database, w0.hal.templates, w0.clock, gs, st);
    BootAdding(w0.d.fp.rounding, w0.d.database, gs, st);
  }

  /** If the database has made-up names on their own ids only and no client enrols under one, loads never
      clash: no two ids share a name at any point of a run if and only if no success is delivered while
      the pending name is on another id. */
  lemma {:induction false} OwnNamesAreUniqueIff(w0: World, es: seq<Event>, n: nat)
    requires Powered(w0) && n <= |es|
    requires w0.d.database.Some? ==> Proper(w0.d.database.value)
    requires Runs.Throughout(Step, EnrolsOwnNames, w0, es, n)
    ensures Runs.GoodUpTo(Step, UniqueIndex, w0, es, 0, n) <==> Runs.NoneOf(Step, SuccessClash, w0, es, 0, n)
    ensures Runs.GoodUpTo(Step, UniqueIndex, w0, es, 0, n) ==> Genuine(At(w0, es, n))
  {
    PoweredGenuine(w0);
    forall w, e | Genuine(w) && UniqueIndex(w) && EnrolsOwnNames(w, e)
      ensures (UniqueIndex(Step(w, e)) <==> !SuccessClash(w, e)) && (UniqueIndex(Step(w, e)) ==> Genuine(Step(w, e)))
    {
      StepGenuine(w, e);
    }
    Runs.ThroughoutIsBetween(Step, EnrolsOwnNames, w0, es, n);
    Runs.GoodIffNoneBad(Step, Genuine, UniqueIndex, EnrolsOwnNames, SuccessClash, w0, es, 0, n);
  }

  // ---- While enrolling ----

  /** Clients do not enrol under made-up names, and every success is delivered while enrolling. */
  ghost predicate Careful(w: World, e: Event) {
    && EnrolsOwnNames(w, e)
    && (e.Dispatch? && w.queue != [] && w.queue[0].Succeeded? ==> w.d.state == Enrolling)
  }

  /** The name under enrolment is not taken. */
  predicate Free(w: World) {
    w.d.state == Enrolling ==> w.d.adding !in w.d.names.Values
  }

  lemma {:induction false} NoticeWhileEnrolling(w: World, e: Event)
    requires e.Dispatch? && w.queue != [] && w.d.state == Enrolling
    ensures Step(w, e).d.state == Enrolling ==> !IndexNotice(w.queue[0])
  {
    match w.queue[0] {
      case EnrollProgress(_) =>
      case Succeeded(_) =>
      case FailedWith(_) =>
      case RemovedId(_) =>
      case AcquiredCode(_) =>
      case Authenticated(_) =>
      case Enumerated =>
    }
  }

  lemma {:induction false} StepFree(w: World, e: Event)
    requires Free(w)
    ensures Free(Step(w, e))
  {
    if e.Restart? {
      Sessions.BootOwner(w.d.fp.rounding, w.d.database, e.groupStatus, e.enumerateStatus);
    } else if Step(w, e).d.state == Enrolling {
      Sessions.StepOwner(w, e);
      StepAdding(w, e);
      if e.Dispatch? && w.queue != [] {
        NoticeWhileEnrolling(w, e);
      }
      Persistence.NonIndexKeeps(w, e);
    }
  }

  /** So names stay unique, in the index and in the file, if successes are delivered while enrolling. */
  lemma {:induction false} NamesStayInjective(w0: World, es: seq<Event>, n: nat)
    requires Powered(w0) && n <= |es|
    requires w0.d.database.Some? ==> Proper(w0.d.database.value)
    requires Runs.Throughout(Step, Careful, w0, es, n)
    ensures var d := At(w0, es, n).d;
      && (forall j, k :: j in d.names && k in d.names && d.names[j] == d.names[k] ==> j == k)
      && (d.database.Some? ==> Injective(d.database.value))
  {
    forall i | 0 <= i < n ensures !SuccessClash(At(w0, es, i), es[i]) {
      NoClashAt(w0, es, i, n);
    }
    CarefulEnrols(w0, es, n);
    OwnNamesAreUniqueIff(w0, es, n);
  }

  lemma {:induction false} CarefulEnrols(w0: World, es: seq<Event>, n: nat)
    requires n <= |es| && Runs.Throughout(Step, Careful, w0, es, n)
    ensures Runs.Throughout(Step, EnrolsOwnNames, w0, es, n)
  {
    if n > 0 {
      CarefulEnrols(w0, es, n - 1);
    }
  }

  lemma {:induction false} NoClashAt(w0: World, es: seq<Event>, i: nat, n: nat)
    requires Powered(w0) && i < n <= |es|
    requires Runs.Throughout(Step, Careful, w0, es, n)
    ensures !SuccessClash(At(w0, es, i), es[i])
  {
    Runs.ThroughoutIsEach(Step, Careful, w0, es, n);
    Sessions.PoweredOwner(w0);
    forall w, e: Event | Free(w) ensures Free(Step(w, e)) {
      StepFree(w, e);
    }
    Runs.Always(Step, Free, w0, es, i);
  }

  // ---- How names collide ----

  /** A client verifies, and the sensor happens to complete the enrolment behind it. */
  function VerifyCompletes(caller: string, id: U32): seq<Event> {
    [CallVerify(caller, SYS_OK), HalCallback(EnrollResult(id, 0, SYS_OK)),
     Dispatch(true, true), Dispatch(true, true)]
  }

  predicate AtRest(w: World) {
    w.d.state == Idle && w.d.caller == "" && w.queue == [] && !w.hal.op.Removes()
  }

  lemma {:induction false} VerifyStarts(w: World, caller: string)
    requires AtRest(w)
    ensures var w' := Step(w, CallVerify(caller, SYS_OK));
      && w'.d.state == Verifying && w'.d.caller == caller && w'.d.names == w.d.names
      && w'.d.adding == w.d.adding && w'.queue == [] && w'.hal == w.hal.(op := HalEnroll)
  {
  }

  lemma {:induction false} EnrolmentReports(w: World, id: U32)
    requires w.queue == []
    ensures var w' := Step(w, HalCallback(EnrollResult(id, 0, SYS_OK)));
      && w'.d == w.d.(fp := w'.d.fp) && w'.queue == [EnrollProgress(Some(1.0)), Succeeded(id)]
      && w'.hal == Hal(w.hal.templates + {id}, NoOp)
  {
  }

  lemma {:induction false} ProgressVerifies(w: World, id: U32)
    requires w.d.state == Verifying && w.queue == [EnrollProgress(Some(1.0)), Succeeded(id)]
    ensures var w' := Step(w, Dispatch(true, true));
      && w'.d.state == Idle && w'.d.caller == "" && w'.d.names == w.d.names
      && w'.d.adding == w.d.adding && w'.queue == [Succeeded(id)] && w'.hal == w.hal
  {
  }

  lemma {:induction false} SuccessAdds(w: World, id: U32)
    requires w.d.state == Idle && w.d.caller == "" && w.queue == [Succeeded(id)]
    ensures var w' := Step(w, Dispatch(true, true));
      && w'.d.names == w.d.names[id := w.d.adding] && w'.d.adding == ""
      && w'.d.state == Idle && w'.d.caller == "" && w'.queue == [] && w'.hal == w.hal
  {
  }

  /** A verification that the sensor completes enters the new id into the index under whatever name
      is pending - the empty one, unless an earlier enrolment left its own. */
  lemma {:induction false} VerifyEntersPendingName(w: World, caller: string, id: U32)
    requires AtRest(w)
    ensures var w' := At(w, VerifyCompletes(caller, id), 4);
      && w'.d.names == w.d.names[id := w.d.adding] && w'.d.adding == "" && AtRest(w')
      && w'.hal == Hal(w.hal.templates + {id}, NoOp)
  {
    var es := VerifyCompletes(caller, id);
    var w1 := Step(w, es[0]);
    var w2 := Step(w1, es[1]);
    var w3 := Step(w2, es[2]);
    VerifyStarts(w, caller);
    EnrolmentReports(w1, id);
    ProgressVerifies(w2, id);
    SuccessAdds(w3, id);
    Runs.Unroll(Step, w, es);
  }

  lemma {:induction false} VerifyIsLawful(w: World, caller: string, id: U32)
    requires AtRest(w) && id != 0 && id !in w.hal.templates
    ensures Runs.Throughout(Step, Contract, w, VerifyCompletes(caller, id), 4)
  {
    var es := VerifyCompletes(caller, id);
    VerifyStarts(w, caller);
    Runs.Unroll(Step, w, es);
    assert Contract(At(w, es, 0), es[0]) && Contract(At(w, es, 1), es[1]);
    assert Contract(At(w, es, 2), es[2]) && Contract(At(w, es, 3), es[3]);
    Runs.ThroughoutIsEach(Step, Contract, w, es, 4);
  }

  lemma {:induction false} TwoVerificationsAreLawful(w: World, caller: string, j: U32, k: U32)
    requires AtRest(w)
    requires j != k && j != 0 && k != 0 && j !in w.hal.templates && k !in w.hal.templates
    ensures var es := VerifyCompletes(caller, j) + VerifyCompletes(caller, k);
      Runs.Throughout(Step, Contract, w, es, |es|)
  {
    var first, second := VerifyCompletes(caller, j), VerifyCompletes(caller, k);
    VerifyEntersPendingName(w, caller, j);
    VerifyIsLawful(w, caller, j);
    VerifyIsLawful(At(w, first, 4), caller, k);
    Runs.ThroughoutBoth(Step, Contract, w, first, second, 4);
  }

  /** Two completed verifications, both lawful for the HAL, leave two ids with one name: success
      notices delivered outside an enrolment do break uniqueness. */
  lemma {:induction false} TwoVerificationsShareName(w: World, caller: string, j: U32, k: U32)
    requires AtRest(w) && w.d.adding == "" && j != k
    ensures var es := VerifyCompletes(caller, j) + VerifyCompletes(caller, k);
            var m := At(w, es, |es|).d.names;
      j in m && k in m && m[j] == m[k] == "" && !Injective(m)
  {
    var first, second := VerifyCompletes(caller, j), VerifyCompletes(caller, k);
    VerifyEntersPendingName(w, caller, j);
    VerifyEntersPendingName(At(w, first, 4), caller, k);
    Runs.AfterBoth(Step, w, first, second, 4);
  }
}
