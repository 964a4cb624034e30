/** The database file and the names in it, across events and restarts. */
module Persistence {
  import opened Vocabulary
  import opened Index
  import opened DaemonSpec
  import opened System
  import opened Frames
  import opened Agreement
  import opened Observers
  import Adapter = AdapterSpec
  import Runs

  /** The daemon process has saved its index at least once; ListChanged follows every save. */
  predicate HasSaved(d: Daemon) {
    ListChanged in d.trace
  }

  /** Whatever the process saves reaches the file. */
  predicate SavesSucceed(w: World, e: Event) {
    e.Dispatch? ==> e.writable
  }

  predicate Coherent(w: World) {
    && (HasSaved(w.d) ==> w.d.database == Some(w.d.names))
    && (w.loaded ==> HasSaved(w.d))
  }

  lemma {:induction false} UntouchedSaved(d: Daemon, d': Daemon)
    requires Untouched(d, d')
    ensures HasSaved(d') <==> HasSaved(d)
  {
    if HasSaved(d') {
      var i :| 0 <= i < |d'.trace| && d'.trace[i] == ListChanged;
      assert i < |d.trace| && d.trace[i] == d'.trace[i];
    }
    if HasSaved(d) {
      var i :| 0 <= i < |d.trace| && d.trace[i] == ListChanged;
      assert d'.trace[i] == d'.trace[..|d.trace|][i];
    }
  }

  lemma {:induction false} BootSaved(rounding: Adapter.Rounding, database: Option<Names>,
                                     groupStatus: int, enumerateStatus: int)
    ensures var d := Boot(rounding, database, groupStatus, enumerateStatus);
      d.database == database && d.names == map[] && !HasSaved(d) && d.fp.fingers == []
  {
    BootFrame(rounding, database, groupStatus, enumerateStatus);
    UntouchedSaved(FreshDaemon(rounding, database), Boot(rounding, database, groupStatus, enumerateStatus));
  }

  /** Events that deliver no index notice keep the index, its file and what was said about it. */
  lemma {:induction false} NonIndexKeeps(w: World, e: Event)
    requires !IndexEvent(w, e) && !e.Restart?
    ensures var w' := Step(w, e);
      && w'.d.names == w.d.names && w'.d.database == w.d.database && w'.loaded == w.loaded
      && (HasSaved(w'.d) <==> HasSaved(w.d))
  {
    match e {
      case Dispatch(readable, writable) =>
        if w.queue != [] {
          if w.queue[0].AcquiredCode? {
          } else {
            OtherNoticeFrame(w.d, w.queue[0], readable, writable);
            UntouchedSaved(w.d, Step(w, e).d);
          }
        }
      case HalCallback(_) =>
      case Advance(_) =>
      case TimerFires =>
        TimerFrame(w.d);
        UntouchedSaved(w.d, SlotCancelIdentify(w.d));
      case _ =>
        CallFrame(w, e);
        UntouchedSaved(w.d, Step(w, e).d);
    }
  }

  lemma {:induction false} EndingSaves(changed: Daemon)
    ensures var d := SetState(Emit(Save(changed, true), ListChanged), Idle);
      HasSaved(d) && d.database == Some(d.names)
  {
    var said := Emit(Save(changed, true), ListChanged);
    assert said.trace[|said.trace| - 1] == ListChanged;
    assert said.trace <= SetState(said, Idle).trace;
  }

  lemma {:induction false} IndexEventSaves(w: World, e: Event)
    requires IndexEvent(w, e) && e.writable
    ensures var d := Step(w, e).d; HasSaved(d) && d.database == Some(d.names)
  {
    var d := w.d;
    match w.queue[0]
    case Succeeded(id) =>
      EndingSaves(Emit(d.(names := d.names[id := d.adding]), Added(d.adding)).(adding := ""));
    case RemovedId(id) => EndingSaves(Forget(d, id));
    case Enumerated => EndingSaves(d.(names := Reconcile(Stored(d, e.readable), d.fp.fingers)));
  }

  lemma {:induction false} StepCoherent(w: World, e: Event)
    requires Coherent(w) && SavesSucceed(w, e)
    ensures Coherent(Step(w, e))
  {
    if IndexEvent(w, e) {
      IndexEventSaves(w, e);
    } else if e.Restart? {
      BootSaved(w.d.fp.rounding, w.d.database, e.groupStatus, e.enumerateStatus);
    } else {
      NonIndexKeeps(w, e);
      assert Step(w, e).loaded ==> w.loaded;
    }
  }

  /** Disk coherence: with successful writes, from the first save of a process on, the file decodes to
      the index at every point between events; a loaded process has saved. */
  lemma {:induction false} DatabaseFollowsIndex(w0: World, es: seq<Event>, n: nat)
    requires Powered(w0) && n <= |es|
    requires Runs.Throughout(Step, SavesSucceed, w0, es, n)
    ensures var w := At(w0, es, n);
      && (ListChanged in w.d.trace ==> w.d.database == Some(w.d.names))
      && (w.loaded ==> ListChanged in w.d.trace)
  {
    PoweredFresh(w0);
    forall w, e | Coherent(w) && SavesSucceed(w, e) ensures Coherent(Step(w, e)) {
      StepCoherent(w, e);
    }
    Runs.Invariant(Step, Coherent, SavesSucceed, w0, es, n);
  }

  lemma {:induction false} PoweredFresh(w0: World)
    requires Powered(w0)
    ensures w0.d.names == map[] && !HasSaved(w0.d) && !w0.loaded && w0.queue == [] && w0.d.fp.fingers == []
  {
    var gs, st :| w0 == Power(w0.d.fp.rounding, w0.d.database, w0.hal.templates, w0.clock, gs, st);
    BootSaved(w0.d.fp.rounding, w0.d.database, gs, st);
  }

  /** The last index that was saved with success, by whichever process; at first what the file held. */
  ghost function LastSaved(step: (World, Event) -> World, w0: World, es: seq<Event>, n: nat): Option<Names>
    requires n <= |es|
  {
    if n == 0 then w0.d.database
    else if IndexEvent(Runs.After(step, w0, es, n - 1), es[n - 1]) && es[n - 1].writable then
      Some(Runs.After(step, w0, es, n).d.names)
    else LastSaved(step, w0, es, n - 1)
  }

  ghost predicate Files(step: (World, Event) -> World) {
    forall w, e :: step(w, e).d.database
                == if IndexEvent(w, e) && e.writable then Some(step(w, e).d.names) else w.d.database
  }

  lemma {:induction false} UnwritableKeepsFile(d: Daemon, n: Notice, readable: bool)
    requires IndexNotice(n)
    ensures OnNotice(d, n, readable, false).database == d.database
  {
  }

  lemma {:induction false} StepFiles(w: World, e: Event)
    ensures Step(w, e).d.database
         == if IndexEvent(w, e) && e.writable then Some(Step(w, e).d.names) else w.d.database
  {
    if IndexEvent(w, e) {
      if e.writable {
        IndexEventSaves(w, e);
      } else {
        UnwritableKeepsFile(w.d, w.queue[0], e.readable);
      }
    } else if e.Restart? {
      BootSaved(w.d.fp.rounding, w.d.database, e.groupStatus, e.enumerateStatus);
    } else {
      NonIndexKeeps(w, e);
    }
  }

  lemma {:induction false} FiledAlong(step: (World, Event) -> World, w0: World, es: seq<Event>, n: nat)
    requires n <= |es| && Files(step)
    ensures Runs.After(step, w0, es, n).d.database == LastSaved(step, w0, es, n)
  {
    if n > 0 {
      FiledAlong(step, w0, es, n - 1);
      var w := Runs.After(step, w0, es, n - 1);
      assert step(w, es[n - 1]).d.database
          == if IndexEvent(w, es[n - 1]) && es[n - 1].writable then Some(step(w, es[n - 1]).d.names)
             else w.d.database;
    }
  }

  /** On every run, with writes that fail or not: the file holds the index that was last saved with success,
      and every change of the index is saved unless its write fails. */
  lemma {:induction false} FileIsLastSaved(w0: World, es: seq<Event>, n: nat)
    requires n <= |es|
    ensures At(w0, es, n).d.database == LastSaved(Step, w0, es, n)
  {
    forall w, e
      ensures Step(w, e).d.database
           == if IndexEvent(w, e) && e.writable then Some(Step(w, e).d.names) else w.d.database
    {
      StepFiles(w, e);
    }
    FiledAlong(Step, w0, es, n);
  }

  /** A load that cannot read the file, or finds none, gives every reported id a made-up name. */
  lemma {:induction false} UnreadableLoadForgetsNames(w: World, e: Event)
    requires e.Dispatch? && w.queue != [] && w.queue[0].Enumerated?
    requires !e.readable || w.d.database.None?
    ensures var names := Step(w, e).d.names;
      && (forall k :: k in names <==> k in w.d.fp.fingers)
      && (forall k :: k in names ==> names[k] == "Unknown " + Decimal(k))
  {
    assert Step(w, e).d.names == Reconcile(map[], w.d.fp.fingers);
  }

  /** Loading again under the same circumstances changes nothing. */
  lemma {:induction false} LoadTwiceIsOnce(d: Daemon, readable: bool, writable: bool)
    ensures var once := Load(d, readable, writable); Load(once, readable, writable) == once
  {
    ReconcileIdempotent(Stored(d, readable), d.fp.fingers);
  }

  // ---- Restarts ----

  /** The event neither changes the index nor starts a new process. */
  predicate Quiescent(w: World, e: Event) {
    !IndexEvent(w, e) && !e.Restart?
  }

  lemma {:induction false} DatabaseStays(w0: World, es: seq<Event>, m: nat, n: nat)
    requires m <= n <= |es|
    requires Runs.Between(Step, Quiescent, w0, es, m, n)
    ensures At(w0, es, n).d.database == At(w0, es, m).d.database
  {
    if m < n {
      DatabaseStays(w0, es, m, n - 1);
      NonIndexKeeps(At(w0, es, n - 1), es[n - 1]);
    }
  }

  /** A restart brings the index back: with successful writes, a process that has saved and is restarted
      at m, and whose enumeration is loaded at n before any other change of the index, then has exactly
      the enumerated ids, each under the name it had before the restart, or a made-up one if it had
      none. */
  lemma {:induction false} RestartRestoresIndex(w0: World, es: seq<Event>, m: nat, n: nat)
    requires Powered(w0) && m < n < |es|
    requires Runs.Throughout(Step, SavesSucceed, w0, es, n)
    requires ListChanged in At(w0, es, m).d.trace
    requires es[m].Restart?
    requires Runs.Between(Step, Quiescent, w0, es, m + 1, n)
    requires es[n].Dispatch? && es[n].readable
    requires At(w0, es, n).queue != [] && At(w0, es, n).queue[0] == Enumerated
    ensures var before, after := At(w0, es, m).d.names, At(w0, es, n + 1).d.names;
      && (forall k :: k in after <==> k in At(w0, es, n).d.fp.fingers)
      && (forall k :: k in after ==> after[k] == if k in before then before[k] else UnknownName(k))
  {
    RestartReconciles(w0, es, m, n);
    ReconcileMeans(At(w0, es, m).d.names, At(w0, es, n).d.fp.fingers);
  }

  lemma {:induction false} ReconcileMeans(stored: Names, ids: seq<U32>)
    ensures var m := Reconcile(stored, ids);
      && (forall k :: k in m <==> k in ids)
      && (forall k :: k in m ==> m[k] == if k in stored then stored[k] else UnknownName(k))
  {
  }

  lemma {:induction false} RestartReconciles(w0: World, es: seq<Event>, m: nat, n: nat)
    requires Powered(w0) && m < n < |es|
    requires Runs.Throughout(Step, SavesSucceed, w0, es, n)
    requires ListChanged in At(w0, es, m).d.trace
    requires es[m].Restart?
    requires Runs.Between(Step, Quiescent, w0, es, m + 1, n)
    requires es[n].Dispatch? && es[n].readable
    requires At(w0, es, n).queue != [] && At(w0, es, n).queue[0] == Enumerated
    ensures At(w0, es, n + 1).d.names == Reconcile(At(w0, es, m).d.names, At(w0, es, n).d.fp.fingers)
  {
    Runs.ThroughoutPrefix(Step, SavesSucceed, w0, es, m, n);
    RestartKeepsFile(w0, es, m);
    DatabaseStays(w0, es, m + 1, n);
    LoadedAt(w0, es, n);
  }

  predicate EndsEnumeration(e: Event) {
    e.HalCallback? && e.cb.EnumerateResult? && e.cb.remaining == 0
  }

  /** A load comes to be due when an enumeration of the sensor's templates ends, and the report then
      stands until the load. */
  lemma {:induction false} LoadIsDue(w: World, e: Event)
    requires Tied(w) && HalContract(w, e) && Loads(Step(w, e).queue) > 0
    ensures var fingers := Step(w, e).d.fp.fingers;
      || (Loads(w.queue) > 0 && fingers == w.d.fp.fingers)
      || (EndsEnumeration(e) && SetOf(fingers) == w.hal.templates)
  {
    match e {
      case Dispatch(_, _) =>
        if w.queue != [] {
          NoticeKeys(w.d, w.queue[0], e.readable, e.writable);
        }
      case HalCallback(_) => CallbackLoadIsDue(w, e);
      case TimerFires => TimerFrame(w.d);
      case Advance(_) =>
      case Restart(_, _) =>
      case _ => CallFrame(w, e);
    }
  }

  lemma {:induction false} CallbackLoadIsDue(w: World, e: Event)
    requires Tied(w) && HalContract(w, e) && e.HalCallback? && Loads(Step(w, e).queue) > 0
    ensures var fingers := Step(w, e).d.fp.fingers;
      || (Loads(w.queue) > 0 && fingers == w.d.fp.fingers)
      || (EndsEnumeration(e) && SetOf(fingers) == w.hal.templates)
  {
    var (fp, posted) := Adapter.OnCallback(w.d.fp, e.cb);
    if EndsEnumeration(e) {
      assert SetOf(fp.fingers) == SetOf(w.d.fp.fingers) + ({e.cb.id} - {0});
    } else {
      NothingDue(w.queue, posted);
    }
  }

  lemma {:induction false} NothingDue(q: seq<Notice>, posted: seq<Notice>)
    requires |posted| <= 2
    requires forall i :: 0 <= i < |posted| ==> !posted[i].Enumerated?
    ensures Loads(q + posted) == Loads(q)
  {
    if posted == [] {
      assert q + posted == q;
    } else {
      LoadsMore(q, posted[0]);
      if |posted| == 2 {
        LoadsMore(q + [posted[0]], posted[1]);
        assert q + posted == q + [posted[0]] + [posted[1]];
      } else {
        assert q + posted == q + [posted[0]];
      }
    }
  }

  /** Since the end of that enumeration the load has been due. */
  lemma {:induction false} LastEnumeration(w0: World, es: seq<Event>, n: nat) returns (i: nat)
    requires Powered(w0) && 0 < n <= |es|
    requires Runs.Throughout(Step, HalContract, w0, es, n)
    requires Loads(At(w0, es, n).queue) > 0
    ensures i < n && EndsEnumeration(es[i])
    ensures SetOf(At(w0, es, n).d.fp.fingers) == At(w0, es, i).hal.templates
    ensures forall j :: i < j <= n ==> Loads(At(w0, es, j).queue) > 0
  {
    PoweredFresh(w0);
    DueAlong(w0, es, n);
    i := DueSince(Step, w0, es, n);
  }

  /** After event k a load is due only if it was before, with the same report, or if the event ends an
      enumeration. */
  ghost predicate BecomesDue(step: (World, Event) -> World, w0: World, es: seq<Event>, k: nat)
    requires k < |es|
  {
    var w, w' := Runs.After(step, w0, es, k), Runs.After(step, w0, es, k + 1);
    Loads(w'.queue) > 0 ==>
      || (Loads(w.queue) > 0 && w'.d.fp.fingers == w.d.fp.fingers)
      || (EndsEnumeration(es[k]) && SetOf(w'.d.fp.fingers) == w.hal.templates)
  }

  ghost predicate AllBecomeDue(step: (World, Event) -> World, w0: World, es: seq<Event>, n: nat)
    requires n <= |es|
  {
    n == 0 || (AllBecomeDue(step, w0, es, n - 1) && BecomesDue(step, w0, es, n - 1))
  }

  lemma {:induction false} DueAlong(w0: World, es: seq<Event>, n: nat)
    requires Powered(w0) && n <= |es|
    requires Runs.Throughout(Step, HalContract, w0, es, n)
    ensures AllBecomeDue(Step, w0, es, n)
  {
    if n > 0 {
      DueAlong(w0, es, n - 1);
      LoadIsDueAt(w0, es, n - 1);
    }
  }

  lemma {:induction false} DueSince(step: (World, Event) -> World, w0: World, es: seq<Event>, n: nat)
    returns (i: nat)
    requires 0 < n <= |es| && Loads(w0.queue) == 0
    requires AllBecomeDue(step, w0, es, n)
    requires Loads(Runs.After(step, w0, es, n).queue) > 0
    ensures i < n && EndsEnumeration(es[i])
    ensures SetOf(Runs.After(step, w0, es, n).d.fp.fingers) == Runs.After(step, w0, es, i).hal.templates
    ensures forall j :: i < j <= n ==> Loads(Runs.After(step, w0, es, j).queue) > 0
    decreases n
  {
    assert BecomesDue(step, w0, es, n - 1);
    if EndsEnumeration(es[n - 1])
       && SetOf(Runs.After(step, w0, es, n).d.fp.fingers) == Runs.After(step, w0, es, n - 1).hal.templates {
      i := n - 1;
    } else {
      i := DueSince(step, w0, es, n - 1);
    }
  }

  /** The report that a load finds is the sensor's template store, as it was when the last enumeration
      of the process ended. */
  lemma {:induction false} ReportedByEnumeration(w0: World, es: seq<Event>, m: nat, n: nat) returns (i: nat)
    requires Powered(w0) && m < n <= |es|
    requires Runs.Throughout(Step, HalContract, w0, es, n)
    requires es[m].Restart? && Loads(At(w0, es, n).queue) > 0
    ensures m < i < n && EndsEnumeration(es[i])
    ensures SetOf(At(w0, es, n).d.fp.fingers) == At(w0, es, i).hal.templates
  {
    i := LastEnumeration(w0, es, n);
    RestartEmptiesQueue(w0, es, m);
    if i <= m {
      assert false;
    }
  }

  lemma {:induction false} LoadIsDueAt(w0: World, es: seq<Event>, k: nat)
    requires Powered(w0) && k < |es|
    requires Runs.Throughout(Step, HalContract, w0, es, k + 1)
    ensures BecomesDue(Step, w0, es, k)
  {
    TiedAlong(w0, es, k);
    if Loads(At(w0, es, k + 1).queue) > 0 {
      LoadIsDue(At(w0, es, k), es[k]);
    }
  }

  lemma {:induction false} RestartEmptiesQueue(w0: World, es: seq<Event>, m: nat)
    requires m < |es| && es[m].Restart?
    ensures At(w0, es, m + 1).queue == []
  {
  }

  /** And what it brings back is the sensor's: under the HAL's contract, the restored ids are exactly the
      templates that the sensor held when its enumeration ended. */
  lemma {:induction false} RestartRestoresSensor(w0: World, es: seq<Event>, m: nat, n: nat) returns (i: nat)
    requires Powered(w0) && m < n < |es|
    requires Runs.Throughout(Step, HalContract, w0, es, n)
    requires Runs.Throughout(Step, SavesSucceed, w0, es, n)
    requires ListChanged in At(w0, es, m).d.trace
    requires es[m].Restart?
    requires Runs.Between(Step, Quiescent, w0, es, m + 1, n)
    requires es[n].Dispatch? && es[n].readable
    requires At(w0, es, n).queue != [] && At(w0, es, n).queue[0] == Enumerated
    ensures m < i < n && es[i].HalCallback? && es[i].cb.EnumerateResult? && es[i].cb.remaining == 0
    ensures At(w0, es, n + 1).d.names.Keys == At(w0, es, i).hal.templates
  {
    i := ReportedByEnumeration(w0, es, m, n);
    RestartRestoresIndex(w0, es, m, n);
    SameKeys(At(w0, es, n + 1).d.names, At(w0, es, n).d.fp.fingers);
  }

  lemma {:induction false} SameKeys(m: Names, ids: seq<U32>)
    requires forall k :: k in m <==> k in ids
    ensures m.Keys == SetOf(ids)
  {
  }

  lemma {:induction false} RestartKeepsFile(w0: World, es: seq<Event>, m: nat)
    requires Powered(w0) && m < |es|
    requires Runs.Throughout(Step, SavesSucceed, w0, es, m)
    requires ListChanged in At(w0, es, m).d.trace && es[m].Restart?
    ensures At(w0, es, m + 1).d.database == Some(At(w0, es, m).d.names)
  {
    DatabaseFollowsIndex(w0, es, m);
    RestartKeepsDatabase(At(w0, es, m), es[m]);
  }

  lemma {:induction false} RestartKeepsDatabase(w: World, e: Event)
    requires e.Restart?
    ensures Step(w, e).d.database == w.d.database
  {
    BootSaved(w.d.fp.rounding, w.d.database, e.groupStatus, e.enumerateStatus);
  }

  lemma {:induction false} LoadedAt(w0: World, es: seq<Event>, n: nat)
    requires n < |es| && es[n].Dispatch? && es[n].readable
    requires At(w0, es, n).queue != [] && At(w0, es, n).queue[0] == Enumerated
    requires At(w0, es, n).d.database.Some?
    ensures At(w0, es, n + 1).d.names
         == Reconcile(At(w0, es, n).d.database.value, At(w0, es, n).d.fp.fingers)
  {
    LoadedNames(At(w0, es, n), es[n]);
  }

  lemma {:induction false} LoadedNames(w: World, e: Event)
    requires e.Dispatch? && e.readable && w.queue != [] && w.queue[0] == Enumerated
    requires w.d.database.Some?
    ensures Step(w, e).d.names == Reconcile(w.d.database.value, w.d.fp.fingers)
  {
  }

  // ---- Stable names ----

  /** The event does not take id k out of the index: writes succeed, the load of a process comes before
      its other changes of the index and finds k enumerated, and no removal of k or clear is delivered. */
  predicate Spares(w: World, e: Event, k: U32) {
    IndexEvent(w, e) ==>
      && e.writable
      && match w.queue[0]
         case Succeeded(_) => w.loaded
         case RemovedId(id) => w.loaded && id != k && id != 0
         case _ => e.readable && k in w.d.fp.fingers
  }

  predicate Holds(w: World, k: U32, name: string) {
    && w.d.database.Some? && k in w.d.database.value && w.d.database.value[k] == name
    && (w.loaded ==> k in w.d.names && w.d.names[k] == name)
  }

  lemma {:induction false} StepHolds(w: World, e: Event, k: U32, name: string)
    requires Holds(w, k, name) && Spares(w, e, k)
    requires InOrder(false, w)
    ensures Holds(Step(w, e), k, name)
  {
    if IndexEvent(w, e) {
      IndexEventSaves(w, e);
    } else if e.Restart? {
      BootSaved(w.d.fp.rounding, w.d.database, e.groupStatus, e.enumerateStatus);
    } else {
      NonIndexKeeps(w, e);
    }
  }

  lemma {:induction false} SparedNameStays(w0: World, es: seq<Event>, m: nat, n: nat, k: U32)
    requires Powered(w0) && m <= n <= |es|
    requires Runs.Throughout(Step, ReadRight, w0, es, n)
    requires Runs.Throughout(Step, SavesSucceed, w0, es, m)
    requires At(w0, es, m).loaded && k in At(w0, es, m).d.names
    requires Runs.Between(Step, (w, e) => Spares(w, e, k), w0, es, m, n)
    ensures Holds(At(w0, es, n), k, At(w0, es, m).d.names[k])
  {
    var name := At(w0, es, m).d.names[k];
    DatabaseFollowsIndex(w0, es, m);
    var inv := (w: World) => Holds(w, k, name);
    Runs.BetweenIsEach(Step, (w, e) => Spares(w, e, k), w0, es, m, n);
    forall j | m <= j < n ensures Runs.Carried(Step, inv, w0, es, j) {
      Runs.ThroughoutPrefix(Step, ReadRight, w0, es, j, n);
      HoldsAt(w0, es, j, k, name);
    }
    Runs.Stays(Step, inv, w0, es, m, n);
  }

  lemma {:induction false} HoldsAt(w0: World, es: seq<Event>, j: nat, k: U32, name: string)
    requires Powered(w0) && j < |es|
    requires Runs.Throughout(Step, ReadRight, w0, es, j)
    requires Spares(At(w0, es, j), es[j], k)
    ensures Holds(At(w0, es, j), k, name) ==> Holds(At(w0, es, j + 1), k, name)
  {
    WeakTerms(w0, es, j);
    InOrderAlong(false, w0, es, j);
    if Holds(At(w0, es, j), k, name) {
      StepHolds(At(w0, es, j), es[j], k, name);
    }
  }

  /** Once the index is loaded, the queue delivers no removal of k and no clear. */
  predicate Spared(loaded: bool, q: seq<Notice>, k: U32)
    decreases |q|
  {
    q == [] ||
    ((loaded ==> q[0] != RemovedId(k) && q[0] != RemovedId(0)) &&
     Spared(loaded || q[0].Enumerated?, q[1..], k))
  }

  lemma {:induction false} SparedMore(loaded: bool, q: seq<Notice>, n: Notice, k: U32)
    requires Spared(loaded, q, k)
    requires loaded || Loads(q) > 0 ==> n != RemovedId(k) && n != RemovedId(0)
    ensures Spared(loaded, q + [n], k)
    decreases |q|
  {
    if q == [] {
      assert q + [n] == [n];
    } else {
      assert (q + [n])[1..] == q[1..] + [n];
      SparedMore(loaded || q[0].Enumerated?, q[1..], n, k);
    }
  }

  lemma {:induction false} SparedIfAbsent(loaded: bool, q: seq<Notice>, k: U32)
    requires RemovedId(k) !in q && RemovedId(0) !in q
    ensures Spared(loaded, q, k)
    decreases |q|
  {
    if q != [] {
      assert q[0] in q && forall n :: n in q[1..] ==> n in q;
      SparedIfAbsent(loaded || q[0].Enumerated?, q[1..], k);
    }
  }

  /** No removal of k and no clear will be delivered to a loaded index, and a queued load will find k
      reported. */
  predicate Safe(w: World, k: U32) {
    && Spared(w.loaded, w.queue, k)
    && (Loads(w.queue) > 0 ==> k in w.d.fp.fingers)
  }

  /** The load of a process comes before its other changes of the index, and can read the file. */
  predicate LoadsFirst(w: World, e: Event) {
    IndexEvent(w, e) ==> if w.queue[0].Enumerated? then e.readable else w.loaded
  }

  /** While the sensor keeps k, what is posted to a daemon that is loaded or about to be removes neither k
      nor everything. */
  lemma {:induction false} RemovalSparesKept(w: World, e: Event, k: U32)
    requires Tied(w) && ReadRight(w, e) && Known(w) && e.HalCallback? && e.cb.RemoveResult?
    requires k in w.hal.templates && k in Step(w, e).hal.templates
    ensures var posted := Adapter.OnCallback(w.d.fp, e.cb).1;
      RemovedId(k) !in posted && RemovedId(0) !in posted
  {
    var hal, id := w.hal, e.cb.id;
    if e.cb.remaining == 0 && hal.op.HalRemove? {
      assert k in hal.templates - (if id == hal.op.id then {hal.op.id} else {});
    } else if e.cb.remaining == 0 {
      assert false;
    }
  }

  lemma {:induction false} CallbackSafe(w: World, e: Event, k: U32)
    requires Tied(w) && ReadRight(w, e) && Safe(w, k) && e.HalCallback?
    requires k in w.hal.templates && k in Step(w, e).hal.templates
    ensures Safe(Step(w, e), k)
  {
    var (fp, posted) := Adapter.OnCallback(w.d.fp, e.cb);
    if EndsEnumeration(e) {
      assert SetOf(fp.fingers) == SetOf(w.d.fp.fingers) + ({e.cb.id} - {0});
    } else {
      NothingDue(w.queue, posted);
    }
    if e.cb.RemoveResult? && Known(w) {
      RemovalSparesKept(w, e, k);
    }
    PostedSpared(w.loaded, w.queue, posted, k);
  }

  lemma {:induction false} PostedSpared(loaded: bool, q: seq<Notice>, posted: seq<Notice>, k: U32)
    requires Spared(loaded, q, k) && |posted| <= 2
    requires |posted| == 2 ==> !posted[0].Enumerated?
    requires loaded || Loads(q) > 0 ==> RemovedId(k) !in posted && RemovedId(0) !in posted
    ensures Spared(loaded, q + posted, k)
  {
    if posted == [] {
      assert q + posted == q;
    } else {
      SparedMore(loaded, q, posted[0], k);
      if |posted| == 2 {
        LoadsMore(q, posted[0]);
        SparedMore(loaded, q + [posted[0]], posted[1], k);
        assert q + posted == q + [posted[0]] + [posted[1]];
      } else {
        assert q + posted == q + [posted[0]];
      }
    }
  }

  /** Whatever happens while the sensor keeps k leaves k safe. */
  lemma {:induction false} StepSafe(w: World, e: Event, k: U32)
    requires Tied(w) && ReadRight(w, e) && Safe(w, k)
    requires k in w.hal.templates && k in Step(w, e).hal.templates
    ensures Safe(Step(w, e), k)
  {
    match e {
      case Dispatch(_, _) =>
        if w.queue != [] {
          NoticeKeys(w.d, w.queue[0], e.readable, e.writable);
        }
      case HalCallback(_) => CallbackSafe(w, e, k);
      case TimerFires => TimerFrame(w.d);
      case Advance(_) =>
      case Restart(_, _) =>
      case _ => CallFrame(w, e);
    }
  }

  lemma {:induction false} LawfulIsTied(w0: World, es: seq<Event>, n: nat)
    requires Powered(w0) && n <= |es|
    requires Runs.Throughout(Step, ReadRight, w0, es, n)
    ensures Tied(At(w0, es, n))
  {
    var any := (w: World) => true;
    Runs.ThroughoutFollows(Step, any, ReadRight, HalContract, w0, es, n);
    TiedAlong(w0, es, n);
  }

  predicate HasTemplate(w0: World, es: seq<Event>, j: nat, k: U32) {
    j <= |es| && k in At(w0, es, j).hal.templates
  }

  lemma {:induction false} SafeAt(w0: World, es: seq<Event>, j: nat, k: U32)
    requires Powered(w0) && j < |es|
    requires Runs.Throughout(Step, ReadRight, w0, es, j + 1)
    requires HasTemplate(w0, es, j, k) && HasTemplate(w0, es, j + 1, k)
    ensures Safe(At(w0, es, j), k) ==> Safe(At(w0, es, j + 1), k)
  {
    LawfulIsTied(w0, es, j);
    if Safe(At(w0, es, j), k) {
      StepSafe(At(w0, es, j), es[j], k);
    }
  }

  lemma {:induction false} SafeAlong(w0: World, es: seq<Event>, m: nat, n: nat, k: U32)
    requires Powered(w0) && m <= n <= |es|
    requires Runs.Throughout(Step, ReadRight, w0, es, n)
    requires Safe(At(w0, es, m), k)
    requires forall j :: m <= j <= n ==> HasTemplate(w0, es, j, k)
    ensures Safe(At(w0, es, n), k)
  {
    var inv := (w: World) => Safe(w, k);
    forall j | m <= j < n ensures Runs.Carried(Step, inv, w0, es, j) {
      Runs.ThroughoutPrefix(Step, ReadRight, w0, es, j + 1, n);
      SafeAt(w0, es, j, k);
    }
    Runs.Stays(Step, inv, w0, es, m, n);
  }

  lemma {:induction false} SafeIsSpared(w: World, e: Event, k: U32)
    requires Safe(w, k) && SavesSucceed(w, e) && LoadsFirst(w, e)
    ensures Spares(w, e, k)
  {
  }

  lemma {:induction false} KeptIsSpared(w0: World, es: seq<Event>, m: nat, n: nat, k: U32)
    requires Powered(w0) && m <= n <= |es|
    requires Runs.Throughout(Step, ReadRight, w0, es, n)
    requires Runs.Throughout(Step, SavesSucceed, w0, es, n)
    requires Runs.Between(Step, LoadsFirst, w0, es, m, n)
    requires Safe(At(w0, es, m), k)
    requires forall j :: m <= j <= n ==> HasTemplate(w0, es, j, k)
    ensures Runs.Between(Step, (w, e) => Spares(w, e, k), w0, es, m, n)
    decreases n
  {
    if m < n {
      Runs.ThroughoutPrefix(Step, ReadRight, w0, es, n - 1, n);
      KeptIsSpared(w0, es, m, n - 1, k);
      SafeAlong(w0, es, m, n - 1, k);
      SafeIsSpared(At(w0, es, n - 1), es[n - 1], k);
    }
  }

  /** Name stability: an id keeps its name as long as the sensor keeps its template.  If the HAL keeps its
      contract, no removal callback is misread - with patient clients none ever is - and writes succeed,
      an id that is in a loaded index at m, with no removal of it and no clear still queued, and whose
      template the sensor has at every point from m to n, has the same name in the file at n, and in the
      index if that is loaded - through later enrolments, removals, aborted operations and any number of
      restarts, provided that each process loads its index before it changes it. */
  lemma {:induction false} NameIsStable(w0: World, es: seq<Event>, m: nat, n: nat, k: U32)
    requires Powered(w0) && m <= n <= |es|
    requires Runs.Throughout(Step, ReadRight, w0, es, n)
    requires Runs.Throughout(Step, SavesSucceed, w0, es, n)
    requires Runs.Between(Step, LoadsFirst, w0, es, m, n)
    requires At(w0, es, m).loaded && k in At(w0, es, m).d.names
    requires RemovedId(k) !in At(w0, es, m).queue && RemovedId(0) !in At(w0, es, m).queue
    requires forall j :: m <= j <= n ==> k in At(w0, es, j).hal.templates
    ensures var name, w := At(w0, es, m).d.names[k], At(w0, es, n);
      && (w.loaded ==> k in w.d.names && w.d.names[k] == name)
      && w.d.database.Some? && k in w.d.database.value && w.d.database.value[k] == name
  {
    Runs.ThroughoutPrefix(Step, ReadRight, w0, es, m, n);
    Runs.ThroughoutPrefix(Step, SavesSucceed, w0, es, m, n);
    LawfulIsTied(w0, es, m);
    SparedIfAbsent(true, At(w0, es, m).queue, k);
    assert forall j :: m <= j <= n ==> HasTemplate(w0, es, j, k);
    KeptIsSpared(w0, es, m, n, k);
    SparedNameStays(w0, es, m, n, k);
  }
}
