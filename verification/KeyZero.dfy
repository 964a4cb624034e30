/** Id 0 stands for "all fingers" in a removal and for "not found" in a lookup; here is when it never is
    a key of the index, and what Remove then does. */
module KeyZero {
  import opened Vocabulary
  import opened Index
  import opened DaemonSpec
  import opened System
  import opened Frames
  import opened TraceGrammar
  import Persistence
  import Runs

  /** The sensor enrols no template under id 0. */
  predicate EnrolsNonZero(w: World, e: Event) {
    e.HalCallback? && e.cb.EnrollResult? && e.cb.remaining == 0 ==> e.cb.id != 0
  }

  ghost predicate DaemonNoZero(d: Daemon) {
    && 0 !in d.names
    && (d.database.Some? ==> 0 !in d.database.value)
    && 0 !in d.fp.fingers
  }

  ghost predicate NoZero(w: World) {
    DaemonNoZero(w.d) && Succeeded(0) !in w.queue
  }

  lemma {:induction false} NoticeNoZero(d: Daemon, n: Notice, readable: bool, writable: bool)
    requires DaemonNoZero(d) && n != Succeeded(0)
    ensures DaemonNoZero(OnNotice(d, n, readable, writable))
  {
    match n
    case Succeeded(_) =>
    case RemovedId(_) =>
    case Enumerated =>
    case AcquiredCode(_) =>
    case _ => OtherNoticeFrame(d, n, readable, writable);
  }

  lemma {:induction false} StepNoZero(w: World, e: Event)
    requires NoZero(w) && EnrolsNonZero(w, e)
    ensures NoZero(Step(w, e))
  {
    match e {
      case Dispatch(_, _) =>
        if w.queue != [] {
          assert w.queue[0] in w.queue && forall m :: m in w.queue[1..] ==> m in w.queue;
          NoticeNoZero(w.d, w.queue[0], e.readable, e.writable);
        }
      case Restart(gs, st) => BootFrame(w.d.fp.rounding, w.d.database, gs, st);
      case HalCallback(_) =>
      case Advance(_) =>
      case TimerFires => TimerFrame(w.d);
      case _ => CallFrame(w, e);
    }
  }

  /** If neither the database nor the sensor supplies it, id 0 is never in the index. */
  lemma {:induction false} ZeroIsNeverAKey(w0: World, es: seq<Event>, n: nat)
    requires Powered(w0) && n <= |es|
    requires w0.d.database.Some? ==> 0 !in w0.d.database.value
    requires Runs.Throughout(Step, EnrolsNonZero, w0, es, n)
    ensures 0 !in At(w0, es, n).d.names
  {
    Persistence.PoweredFresh(w0);
    forall w, e | NoZero(w) && EnrolsNonZero(w, e) ensures NoZero(Step(w, e)) {
      StepNoZero(w, e);
    }
    Runs.Invariant(Step, NoZero, EnrolsNonZero, w0, es, n);
  }

  /** What an idle daemon answers to a permitted Remove: "does not exist" exactly when GetAll does not
      list the name, or the name is on id 0. */
  lemma {:induction false} RemoveMissesIff(d: Daemon, name: string, caller: string, status: int)
    requires d.state == Idle && Permits(d, caller)
    ensures Remove(d, name, caller, status).reply == KeyDoesNotExist <==>
            (name !in OrderedValues(d.names) || (0 in d.names && d.names[0] == name))
  {
    ValuesAreValues(d.names);
    var ks := KeysNamed(d.names, name);
    if ks == {} {
      assert forall k :: k in d.names && d.names[k] == name ==> k in ks;
    } else {
      assert LeastKey(ks) in d.names && d.names[LeastKey(ks)] == name;
      assert (0 in d.names && d.names[0] == name) <==> 0 in ks;
    }
  }

  /** So wherever 0 is not a key - at every point of the runs of ZeroIsNeverAKey - a permitted Remove of
      an idle daemon replies "does not exist" and does nothing when GetAll does not list the name;
      otherwise it starts and asks the HAL for the least id with that name, never for 0. */
  lemma {:induction false} RemoveFindsTheName(w: World, name: string, caller: string, status: int)
    requires 0 !in w.d.names
    requires w.d.state == Idle && Permits(w.d, caller)
    ensures var e := CallRemove(name, caller, status);
      if name !in OrderedValues(w.d.names) then
        ReplyTo(w, e) == Some(KeyDoesNotExist) && Step(w, e) == w
      else
        var k := KeyOf(w.d.names, name);
        && ReplyTo(w, e) == Some(Started)
        && k != 0 && k in w.d.names && w.d.names[k] == name
        && (forall j :: j in w.d.names && w.d.names[j] == name ==> k <= j)
        && Step(w, e).d.fp.requests == w.d.fp.requests + [AskRemove(k)]
  {
    var e := CallRemove(name, caller, status);
    RemoveMissesIff(w.d, name, caller, status);
    RejectedRequestsDoNothing(w, e);
    if Reaches(w.d, e) {
      ReachingRequestsAskOnce(w, e);
      LeastNamed(w.d.names, name);
    }
  }

  lemma {:induction false} LeastNamed(m: Names, name: string)
    requires KeyOf(m, name) != 0
    ensures var k := KeyOf(m, name);
      k in m && m[k] == name && forall j :: j in m && m[j] == name ==> k <= j
  {
    assert forall j :: j in m && m[j] == name ==> j in KeysNamed(m, name);
  }

  /** The delivery of a removal deletes exactly what it names: one id, or with 0 everything. */
  lemma {:induction false} RemovedDeletesExactly(d: Daemon, id: U32, writable: bool)
    ensures var d' := SlotRemoved(d, id, writable);
      forall k :: k in d'.names <==> k in d.names && id != 0 && k != id
    ensures var d' := SlotRemoved(d, id, writable);
      forall k :: k in d'.names ==> d'.names[k] == d.names[k]
  {
  }
}
