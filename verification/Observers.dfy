/** A client that takes the list of names once and then only follows the Added and Removed signals: when
    it knows the list at every later point, and how it is misled.  On the way: every id that the queue
    will add is new to the index, and when every id that it will remove is in it. */
module Observers {
  import opened Vocabulary
  import opened Index
  import opened DaemonSpec
  import opened System
  import opened Frames
  import opened Agreement
  import AgreementLimits
  import Adapter = AdapterSpec
  import Runs
  import Sessions

  // ---- Orderly queues ----

  /** The notice adds a new id; under the strict reading it also removes only a present one. */
  predicate Fits(strict: bool, known: bool, keys: set<U32>, n: Notice) {
    && (known && n.Succeeded? ==> n.id !in keys)
    && (strict && known && n.RemovedId? && n.id != 0 ==> n.id in keys)
  }

  predicate Orderly(strict: bool, known: bool, keys: set<U32>, fingers: seq<U32>, q: seq<Notice>)
    decreases |q|
  {
    q == [] ||
    (Fits(strict, known, keys, q[0]) &&
     Orderly(strict, known || q[0].Enumerated?, AfterNotice(keys, fingers, q[0]), fingers, q[1..]))
  }

  lemma {:induction false} OrderlyMore(
      strict: bool, known: bool, keys: set<U32>, fingers: seq<U32>, q: seq<Notice>, n: Notice)
    requires Orderly(strict, known, keys, fingers, q)
    requires Fits(strict, known || Loads(q) > 0, Replay(keys, fingers, q), n)
    ensures Orderly(strict, known, keys, fingers, q + [n])
    decreases |q|
  {
    if q == [] {
      assert q + [n] == [n];
    } else {
      assert (q + [n])[1..] == q[1..] + [n];
      OrderlyMore(strict, known || q[0].Enumerated?, AfterNotice(keys, fingers, q[0]), fingers, q[1..], n);
    }
  }

  /** Before a load is due, any queue will do. */
  lemma {:induction false} OrderlyUnknown(strict: bool, keys: set<U32>, fingers: seq<U32>, q: seq<Notice>)
    requires Loads(q) == 0
    ensures Orderly(strict, false, keys, fingers, q)
    decreases |q|
  {
    if q != [] {
      OrderlyUnknown(strict, AfterNotice(keys, fingers, q[0]), fingers, q[1..]);
    }
  }

  /** The HAL accepts the removal of a stored template only. */
  predicate RemovesStored(w: World, e: Event) {
    e.CallRemove? && Reaches(w.d, e) && e.status == SYS_OK ==> KeyOf(w.d.names, e.name) in w.hal.templates
  }

  /** The HAL's contract with nothing misread; on the strict terms, with patient clients and removals of
      stored templates only. */
  predicate Terms(strict: bool, w: World, e: Event) {
    if strict then Contract(w, e) && RemovesStored(w, e) else ReadRight(w, e)
  }

  ghost predicate InOrder(strict: bool, w: World) {
    && Tied(w) && Agreed(w) && (strict ==> Expected(w))
    && Orderly(strict, w.loaded, w.d.names.Keys, w.d.fp.fingers, w.queue)
    && (strict && w.hal.op.HalRemove? ==> w.hal.op.id in w.hal.templates)
  }

  lemma {:induction false} StepUnderTerms(strict: bool, w: World, e: Event)
    requires InOrder(strict, w) && Terms(strict, w, e)
    ensures ReadRight(w, e)
    ensures var w' := Step(w, e); Tied(w') && Agreed(w') && (strict ==> Expected(w'))
  {
    if strict {
      StepAgrees(w, e);
    } else {
      StepAgreedIff(w, e);
    }
  }

  lemma {:induction false} CallInOrder(strict: bool, w: World, e: Event)
    requires InOrder(strict, w) && Terms(strict, w, e) && Sessions.IsCall(e)
    ensures InOrder(strict, Step(w, e))
  {
    StepUnderTerms(strict, w, e);
    CallFrame(w, e);
  }

  lemma {:induction false} DispatchInOrder(strict: bool, w: World, e: Event)
    requires InOrder(strict, w) && Terms(strict, w, e) && e.Dispatch?
    ensures InOrder(strict, Step(w, e))
  {
    StepUnderTerms(strict, w, e);
    if w.queue != [] {
      NoticeKeys(w.d, w.queue[0], e.readable, e.writable);
    }
  }

  lemma {:induction false} EnrollResultInOrder(strict: bool, w: World, e: Event)
    requires InOrder(strict, w) && Terms(strict, w, e) && e.HalCallback? && e.cb.EnrollResult?
    ensures InOrder(strict, Step(w, e))
  {
    StepUnderTerms(strict, w, e);
    var keys, fingers := w.d.names.Keys, w.d.fp.fingers;
    var (fp, posted) := Adapter.OnCallback(w.d.fp, e.cb);
    OrderlyMore(strict, w.loaded, keys, fingers, w.queue, posted[0]);
    if e.cb.remaining == 0 {
      ReplayMore(keys, fingers, w.queue, posted[0]);
      LoadsMore(w.queue, posted[0]);
      OrderlyMore(strict, w.loaded, keys, fingers, w.queue + [posted[0]], posted[1]);
      assert w.queue + posted == w.queue + [posted[0]] + [posted[1]];
    }
  }

  lemma {:induction false} OtherResultInOrder(strict: bool, w: World, e: Event)
    requires InOrder(strict, w) && Terms(strict, w, e) && e.HalCallback? && !e.cb.EnrollResult?
    ensures InOrder(strict, Step(w, e))
  {
    StepUnderTerms(strict, w, e);
    var (fp, posted) := Adapter.OnCallback(w.d.fp, e.cb);
    if e.cb.EnumerateResult? {
      OrderlyUnknown(strict, w.d.names.Keys, fp.fingers, w.queue);
    }
    if posted == [] {
      assert w.queue + posted == w.queue;
    } else {
      OrderlyMore(strict, w.loaded, w.d.names.Keys, fp.fingers, w.queue, posted[0]);
    }
  }

  lemma {:induction false} StepInOrder(strict: bool, w: World, e: Event)
    requires InOrder(strict, w) && Terms(strict, w, e)
    ensures InOrder(strict, Step(w, e))
  {
    match e {
      case Dispatch(_, _) => DispatchInOrder(strict, w, e);
      case HalCallback(cb) =>
        if cb.EnrollResult? {
          EnrollResultInOrder(strict, w, e);
        } else {
          OtherResultInOrder(strict, w, e);
        }
      case TimerFires =>
        TimerFrame(w.d);
        StepUnderTerms(strict, w, e);
      case Advance(_) =>
      case Restart(_, _) => StepUnderTerms(strict, w, e);
      case _ => CallInOrder(strict, w, e);
    }
  }

  /** Along every run under the terms, the queue stays orderly: what it will add is new and, on the
      strict terms, what it will remove is there. */
  lemma {:induction false} InOrderAlong(strict: bool, w0: World, es: seq<Event>, n: nat)
    requires Powered(w0) && n <= |es|
    requires Runs.Throughout(Step, (w, e) => Terms(strict, w, e), w0, es, n)
    ensures InOrder(strict, At(w0, es, n))
  {
    var inv := (w: World) => InOrder(strict, w);
    var ok := (w: World, e: Event) => Terms(strict, w, e);
    forall w, e | inv(w) && ok(w, e) ensures inv(Step(w, e)) {
      StepInOrder(strict, w, e);
    }
    Runs.Invariant(Step, inv, ok, w0, es, n);
  }

  // ---- The observer ----

  /** The names that GetAll returns, in any order. */
  function Listed(m: Names): multiset<string> {
    multiset(OrderedValues(m))
  }

  function Observe(bag: multiset<string>, s: Signal): multiset<string> {
    match s
    case Added(name) => bag + multiset{name}
    case Removed(name) => bag - multiset{name}
    case _ => bag
  }

  /** The observer's list after some signals. */
  function Watch(bag: multiset<string>, t: seq<Signal>): multiset<string> {
    if t == [] then bag else Observe(Watch(bag, t[..|t| - 1]), t[|t| - 1])
  }

  lemma {:induction false} WatchBoth(bag: multiset<string>, a: seq<Signal>, b: seq<Signal>)
    ensures Watch(bag, a + b) == Watch(Watch(bag, a), b)
    decreases |b|
  {
    if b == [] {
      assert a + b == a;
    } else {
      assert (a + b)[..|a + b| - 1] == a + b[..|b| - 1];
      WatchBoth(bag, a, b[..|b| - 1]);
    }
  }

  predicate Mute(s: Signal) {
    !s.Added? && !s.Removed?
  }

  lemma {:induction false} WatchMute(bag: multiset<string>, t: seq<Signal>)
    requires forall i :: 0 <= i < |t| ==> Mute(t[i])
    ensures Watch(bag, t) == bag
    decreases |t|
  {
    if t != [] {
      WatchMute(bag, t[..|t| - 1]);
    }
  }

  /** Taking leave of every name leaves the observer with nothing. */
  lemma {:induction false} WatchFarewells(names: seq<string>, more: multiset<string>)
    ensures Watch(multiset(names) + more, Farewells(names)) == more
    decreases |names|
  {
    if names != [] {
      var front, last := names[..|names| - 1], names[|names| - 1];
      assert names == front + [last];
      assert Farewells(names)[..|names| - 1] == Farewells(front);
      WatchFarewells(front, more + multiset{last});
      assert multiset(names) + more == multiset(front) + (more + multiset{last});
    }
  }

  /** The step says exactly what it does to the list. */
  ghost predicate Tells(d: Daemon, d': Daemon) {
    && d.trace <= d'.trace
    && Listed(d'.names) == Watch(Listed(d.names), d'.trace[|d.trace|..])
  }

  lemma {:induction false} UntouchedTells(d: Daemon, d': Daemon)
    requires Untouched(d, d')
    ensures Tells(d, d')
  {
    WatchMute(Listed(d.names), d'.trace[|d.trace|..]);
  }

  /** How the three index slots end: saved, announced, idle. */
  lemma {:induction false} Ending(d: Daemon, writable: bool) returns (tail: seq<Signal>)
    ensures SetState(Emit(Save(d, writable), ListChanged), Idle).trace == d.trace + tail
    ensures forall i :: 0 <= i < |tail| ==> tail[i].ListChanged? || tail[i].StateChanged?
  {
    tail := [ListChanged] + if d.state != Idle then [StateChanged(Idle)] else [];
  }

  lemma {:induction false} SaidTellsIff(d: Daemon, d': Daemon, said: seq<Signal>, tail: seq<Signal>)
    requires d'.trace == d.trace + said + tail
    requires forall i :: 0 <= i < |tail| ==> Mute(tail[i])
    ensures Tells(d, d') <==> Listed(d'.names) == Watch(Listed(d.names), said)
  {
    assert d'.trace == d.trace + (said + tail);
    assert d'.trace[|d.trace|..] == said + tail;
    WatchBoth(Listed(d.names), said, tail);
    WatchMute(Watch(Listed(d.names), said), tail);
  }

  lemma {:induction false} WatchOne(bag: multiset<string>, s: Signal)
    ensures Watch(bag, [s]) == Observe(bag, s)
  {
    assert [s][..0] == [];
  }

  lemma {:induction false} ListedWith(less: Names, more: Names, id: U32)
    requires id in more && less == more - {id}
    ensures Listed(more) == Listed(less) + multiset{more[id]}
  {
    ValuesPull(more, id);
  }

  lemma {:induction false} AddingIsSeen(m: Names, more: Names, id: U32, name: string)
    requires id !in m && more == m[id := name]
    ensures Listed(more) == Watch(Listed(m), [Added(name)])
  {
    assert m == more - {id};
    ListedWith(m, more, id);
    WatchOne(Listed(m), Added(name));
  }

  lemma {:induction false} RemovingIsSeen(m: Names, less: Names, id: U32)
    requires id in m && less == m - {id}
    ensures Listed(less) == Watch(Listed(m), [Removed(m[id])])
  {
    ListedWith(less, m, id);
    WatchOne(Listed(m), Removed(m[id]));
  }

  lemma {:induction false} ClearingIsSeen(m: Names, names: seq<string>)
    requires names == OrderedValues(m)
    ensures Listed(map[]) == Watch(Listed(m), Farewells(names))
  {
    WatchFarewells(names, multiset{});
    assert multiset(names) + multiset{} == multiset(names);
    assert OrderedValues(map[]) == [];
  }

  /** A success is announced as one more name, which it is exactly when its id is new. */
  lemma {:induction false} AddingIsSeenIff(m: Names, id: U32, name: string)
    ensures Listed(m[id := name]) == Watch(Listed(m), [Added(name)]) <==> id !in m
  {
    var more := m[id := name];
    if id in m {
      var less := m - {id};
      assert less == more - {id};
      ListedWith(less, m, id);
      ListedWith(less, more, id);
      WatchOne(Listed(m), Added(name));
      OneMore(Listed(less), m[id], name);
    } else {
      AddingIsSeen(m, more, id, name);
    }
  }

  lemma {:induction false} OneMore(bag: multiset<string>, gone: string, name: string)
    ensures bag + multiset{name} != bag + multiset{gone} + multiset{name}
  {
    assert |bag + multiset{gone} + multiset{name}| == |bag + multiset{name}| + 1;
  }

  lemma {:induction false} SucceededTellsIff(d: Daemon, id: U32, writable: bool)
    ensures Tells(d, SlotSucceeded(d, id, writable)) <==> id !in d.names
  {
    var added := Emit(d.(names := d.names[id := d.adding]), Added(d.adding)).(adding := "");
    var tail := Ending(added, writable);
    var d' := SlotSucceeded(d, id, writable);
    assert d'.trace == d.trace + [Added(d.adding)] + tail;
    assert d'.names == d.names[id := d.adding];
    SaidTellsIff(d, d', [Added(d.adding)], tail);
    AddingIsSeenIff(d.names, id, d.adding);
  }

  lemma {:induction false} EnumeratedTellsIff(d: Daemon, readable: bool, writable: bool)
    ensures Tells(d, SlotEnumerated(d, readable, writable)) <==>
            Listed(Reconcile(Stored(d, readable), d.fp.fingers)) == Listed(d.names)
  {
    var read := d.(names := Reconcile(Stored(d, readable), d.fp.fingers));
    var tail := Ending(read, writable);
    assert SlotEnumerated(d, readable, writable).trace == d.trace + [] + tail;
    SaidTellsIff(d, SlotEnumerated(d, readable, writable), [], tail);
  }

  lemma {:induction false} RemovedOneTells(d: Daemon, id: U32, writable: bool)
    requires id != 0 && id in d.names
    ensures Tells(d, SlotRemoved(d, id, writable))
  {
    var tail := Ending(Forget(d, id), writable);
    RemovingIsSeen(d.names, d.names - {id}, id);
    SaidTellsIff(d, SlotRemoved(d, id, writable), [Removed(d.names[id])], tail);
  }

  lemma {:induction false} ClearedTells(d: Daemon, writable: bool)
    ensures Tells(d, SlotRemoved(d, 0, writable))
  {
    var tail := Ending(Forget(d, 0), writable);
    var names := OrderedValues(d.names);
    ClearingIsSeen(d.names, names);
    SaidTellsIff(d, SlotRemoved(d, 0, writable), Farewells(names), tail);
  }

  lemma {:induction false} AcquiredTells(d: Daemon, code: int)
    ensures Tells(d, SlotAcquired(d, code))
  {
    var said := if AcquiredOf(code) != d.acquired then [AcquisitionInfo(AcquiredOf(code))] else [];
    assert SlotAcquired(d, code).trace == d.trace + said + [];
    WatchMute(Listed(d.names), said);
    SaidTellsIff(d, SlotAcquired(d, code), said, []);
  }

  /** The notice removes an id that the index does not have, while some id has the empty name: the
      daemon announces the removal of the empty name. */
  predicate RemovesAbsent(names: Names, n: Notice) {
    n.RemovedId? && n.id != 0 && n.id !in names && "" in names.Values
  }

  /** The notice misleads a client that follows the signals: it replaces the name of an id that the index
      has, removes an absent one in this way, or loads an index with other names. */
  predicate Misleads(d: Daemon, n: Notice, readable: bool) {
    match n
    case Succeeded(id) => id in d.names
    case RemovedId(_) => RemovesAbsent(d.names, n)
    case Enumerated => Listed(Reconcile(Stored(d, readable), d.fp.fingers)) != Listed(d.names)
    case _ => false
  }

  lemma {:induction false} MinusOne(bag: multiset<string>, x: string)
    ensures bag - multiset{x} == bag <==> x !in bag
  {
    assert (bag - multiset{x})[x] == if x in bag then bag[x] - 1 else 0;
  }

  lemma {:induction false} RemovingAbsentIsSeenIff(m: Names)
    ensures Listed(m) == Watch(Listed(m), [Removed("")]) <==> "" !in m.Values
  {
    WatchOne(Listed(m), Removed(""));
    ValuesAreValues(m);
    MinusOne(Listed(m), "");
  }

  lemma {:induction false} ForgetAbsent(d: Daemon, id: U32)
    requires id != 0 && id !in d.names
    ensures Forget(d, id) == Emit(d, Removed(""))
  {
    assert d.names - {id} == d.names;
  }

  /** The removal of an absent id is announced under the empty name, which goes unnoticed exactly when no
      id has that name. */
  lemma {:induction false} RemovedAbsentTellsIff(d: Daemon, id: U32, writable: bool)
    requires id != 0 && id !in d.names
    ensures Tells(d, SlotRemoved(d, id, writable)) <==> "" !in d.names.Values
  {
    ForgetAbsent(d, id);
    var tail := Ending(Emit(d, Removed("")), writable);
    RemovingAbsentIsSeenIff(d.names);
    SaidTellsIff(d, SlotRemoved(d, id, writable), [Removed("")], tail);
  }

  lemma {:induction false} NoticeTellsIff(d: Daemon, n: Notice, readable: bool, writable: bool)
    ensures Tells(d, OnNotice(d, n, readable, writable)) <==> !Misleads(d, n, readable)
  {
    match n {
      case Succeeded(id) => SucceededTellsIff(d, id, writable);
      case RemovedId(id) =>
        if id == 0 {
          ClearedTells(d, writable);
        } else if id in d.names {
          RemovedOneTells(d, id, writable);
        } else {
          RemovedAbsentTellsIff(d, id, writable);
        }
      case AcquiredCode(code) => AcquiredTells(d, code);
      case Enumerated => EnumeratedTellsIff(d, readable, writable);
      case _ =>
        OtherNoticeFrame(d, n, readable, writable);
        UntouchedTells(d, OnNotice(d, n, readable, writable));
    }
  }

  lemma {:induction false} NoticeGrows(d: Daemon, n: Notice, readable: bool, writable: bool)
    ensures d.trace <= OnNotice(d, n, readable, writable).trace
  {
    match n {
      case Succeeded(_) =>
      case RemovedId(_) =>
      case AcquiredCode(_) =>
      case Enumerated =>
      case _ => OtherNoticeFrame(d, n, readable, writable);
    }
  }

  /** The event delivers a notice that misleads. */
  predicate Misled(w: World, e: Event) {
    e.Dispatch? && w.queue != [] && Misleads(w.d, w.queue[0], e.readable)
  }

  lemma {:induction false} DispatchTellsIff(w: World, e: Event)
    requires e.Dispatch?
    ensures w.d.trace <= Step(w, e).d.trace
    ensures Tells(w.d, Step(w, e).d) <==> !Misled(w, e)
  {
    if w.queue != [] {
      NoticeTellsIff(w.d, w.queue[0], e.readable, e.writable);
      NoticeGrows(w.d, w.queue[0], e.readable, e.writable);
    } else {
      SaidTellsIff(w.d, w.d, [], []);
    }
  }

  /** In one process, every event tells exactly if it does not mislead. */
  lemma {:induction false} StepTellsIff(w: World, e: Event)
    requires !e.Restart?
    ensures w.d.trace <= Step(w, e).d.trace
    ensures Tells(w.d, Step(w, e).d) <==> !Misled(w, e)
  {
    match e {
      case Dispatch(_, _) => DispatchTellsIff(w, e);
      case HalCallback(cb) =>
        SaidTellsIff(w.d, Step(w, e).d, [], []);
      case Advance(_) =>
        SaidTellsIff(w.d, w.d, [], []);
      case TimerFires =>
        TimerFrame(w.d);
        UntouchedTells(w.d, SlotCancelIdentify(w.d));
        SaidTellsIff(w.d, w.d, [], []);
      case _ =>
        CallFrame(w, e);
        UntouchedTells(w.d, Step(w, e).d);
    }
  }

  lemma {:induction false} TellsOnIff(a: Daemon, b: Daemon, c: Daemon)
    requires Tells(a, b) && b.trace <= c.trace
    ensures Tells(a, c) <==> Tells(b, c)
  {
    assert c.trace[|a.trace|..] == b.trace[|a.trace|..] + c.trace[|b.trace|..];
    WatchBoth(Listed(a.names), b.trace[|a.trace|..], c.trace[|b.trace|..]);
  }

  predicate SameProcess(w: World, e: Event) {
    !e.Restart?
  }

  /** Observer reconstruction: a client takes GetAll at any point m of any run and applies every Added and
      Removed signal emitted since.  Whatever clients and HAL do, until the next restart its list has, at
      every point, exactly the names that GetAll then returns if and only if no delivery misleads it. */
  lemma {:induction false} ObserverKnowsTheListIff(w0: World, es: seq<Event>, m: nat, n: nat)
    requires m <= n <= |es|
    requires forall k :: m <= k < n ==> !es[k].Restart?
    ensures var d := At(w0, es, m).d;
      Runs.GoodUpTo(Step, (w: World) => Tells(d, w.d), w0, es, m, n) <==> Runs.NoneOf(Step, Misled, w0, es, m, n)
  {
    var d := At(w0, es, m).d;
    var tied := (w: World) => true;
    var good := (w: World) => Tells(d, w.d);
    SaidTellsIff(d, d, [], []);
    forall w, e | good(w) && SameProcess(w, e)
      ensures good(Step(w, e)) <==> !Misled(w, e)
    {
      StepTellsIff(w, e);
      TellsOnIff(d, w.d, Step(w, e).d);
    }
    Runs.BetweenIsEach(Step, SameProcess, w0, es, m, n);
    Runs.GoodIffNoneBad(Step, tied, good, SameProcess, Misled, w0, es, m, n);
  }

  // ---- Under the contract ----

  /** The event delivers the removal of an absent id while some id has the empty name. */
  predicate RemovalMisleads(w: World, e: Event) {
    e.Dispatch? && w.queue != [] && RemovesAbsent(w.d.names, w.queue[0])
  }

  /** An orderly queue leaves only this way to mislead: no success is for a listed id, and a loaded process
      does not load again. */
  lemma {:induction false} OrderlyMisledIff(w: World, e: Event)
    requires InOrder(false, w) && w.loaded
    ensures Misled(w, e) <==> RemovalMisleads(w, e)
  {
  }

  lemma {:induction false} StaysLoaded(w: World, e: Event)
    requires !e.Restart?
    ensures w.loaded ==> Step(w, e).loaded
  {
  }

  lemma {:induction false} LoadedStays(w0: World, es: seq<Event>, m: nat, n: nat)
    requires m <= n <= |es| && At(w0, es, m).loaded
    requires forall k :: m <= k < n ==> !es[k].Restart?
    ensures At(w0, es, n).loaded
  {
    var inv := (w: World) => w.loaded;
    forall k | m <= k < n ensures Runs.Carried(Step, inv, w0, es, k) {
      StaysLoaded(At(w0, es, k), es[k]);
    }
    Runs.Stays(Step, inv, w0, es, m, n);
  }

  lemma {:induction false} OnlyRemovalsMisleadAt(w0: World, es: seq<Event>, m: nat, k: nat)
    requires Powered(w0) && m <= k < |es|
    requires Runs.Throughout(Step, ReadRight, w0, es, k)
    requires At(w0, es, m).loaded
    requires forall j :: m <= j < k ==> !es[j].Restart?
    ensures Misled(At(w0, es, k), es[k]) <==> RemovalMisleads(At(w0, es, k), es[k])
  {
    LoadedStays(w0, es, m, k);
    WeakTerms(w0, es, k);
    InOrderAlong(false, w0, es, k);
    OrderlyMisledIff(At(w0, es, k), es[k]);
  }

  lemma {:induction false} WeakTerms(w0: World, es: seq<Event>, n: nat)
    requires n <= |es| && Runs.Throughout(Step, ReadRight, w0, es, n)
    ensures Runs.Throughout(Step, (w, e) => Terms(false, w, e), w0, es, n)
  {
    var any := (w: World) => true;
    Runs.ThroughoutFollows(Step, any, ReadRight, (w, e) => Terms(false, w, e), w0, es, n);
  }

  /** In a run that is lawful for the HAL and misreads nothing - so in every run under the contract - and
      from the load on, the client knows the list throughout if and only if no delivered removal is of an
      absent id while some id has the empty name. */
  lemma {:induction false} LoadedObserverKnowsIff(w0: World, es: seq<Event>, m: nat, n: nat)
    requires Powered(w0) && m <= n <= |es|
    requires Runs.Throughout(Step, ReadRight, w0, es, n)
    requires At(w0, es, m).loaded
    requires forall k :: m <= k < n ==> !es[k].Restart?
    ensures var d := At(w0, es, m).d;
      Runs.GoodUpTo(Step, (w: World) => Tells(d, w.d), w0, es, m, n) <==>
      Runs.NoneOf(Step, RemovalMisleads, w0, es, m, n)
  {
    ObserverKnowsTheListIff(w0, es, m, n);
    forall k | m <= k < n
      ensures Misled(At(w0, es, k), es[k]) <==> RemovalMisleads(At(w0, es, k), es[k])
    {
      Runs.ThroughoutPrefix(Step, ReadRight, w0, es, k, n);
      OnlyRemovalsMisleadAt(w0, es, m, k);
    }
    Runs.SameBad(Step, Misled, RemovalMisleads, w0, es, m, n);
  }

  lemma {:induction false} PresentIsNotMisled(w: World, e: Event)
    requires InOrder(true, w) && w.loaded
    ensures !Misled(w, e)
  {
  }

  lemma {:induction false} NotMisledAt(w0: World, es: seq<Event>, m: nat, k: nat)
    requires Powered(w0) && m <= k < |es|
    requires Runs.Throughout(Step, (w, e) => Terms(true, w, e), w0, es, k)
    requires At(w0, es, m).loaded
    requires forall j :: m <= j < k ==> !es[j].Restart?
    ensures !Misled(At(w0, es, k), es[k])
  {
    LoadedStays(w0, es, m, k);
    InOrderAlong(true, w0, es, k);
    PresentIsNotMisled(At(w0, es, k), es[k]);
  }

  /** With patient clients and a HAL that accepts the removal of a stored template only, no client is
      misled: at any later point of the process it holds exactly what GetAll then returns. */
  lemma {:induction false} ObserverKnowsTheList(w0: World, es: seq<Event>, m: nat, n: nat)
    requires Powered(w0) && m <= n <= |es|
    requires Runs.Throughout(Step, (w, e) => Terms(true, w, e), w0, es, n)
    requires At(w0, es, m).loaded
    requires forall k :: m <= k < n ==> !es[k].Restart?
    ensures var d, d' := At(w0, es, m).d, At(w0, es, n).d;
      && d.trace <= d'.trace
      && Watch(multiset(OrderedValues(d.names)), d'.trace[|d.trace|..]) == multiset(OrderedValues(d'.names))
  {
    var d := At(w0, es, m).d;
    forall k | m <= k < n ensures !Misled(At(w0, es, k), es[k]) {
      Runs.ThroughoutPrefix(Step, (w, e) => Terms(true, w, e), w0, es, k, n);
      NotMisledAt(w0, es, m, k);
    }
    ObserverKnowsTheListIff(w0, es, m, n);
    assert Tells(d, At(w0, es, n).d);
  }

  // ---- How a client is misled ----

  /** A client removes a finger and aborts when the sensor has done so. */
  function RemoveAbort(name: string, caller: string, id: U32): seq<Event> {
    [CallRemove(name, caller, SYS_OK), HalCallback(RemoveResult(id, 0)), CallAbort(caller)]
  }

  /** Ready for a removal, with this index and queue. */
  predicate ReadyToRemove(w: World, caller: string, names: Names, queue: seq<Notice>) {
    && w.d.state == Idle && Permits(w.d, caller) && w.d.names == names && w.queue == queue
    && w.hal.op == NoOp && w.loaded
  }

  lemma {:induction false} RemovalRuns(w: World, name: string, caller: string, names: Names, queue: seq<Notice>)
    requires ReadyToRemove(w, caller, names, queue) && KeyOf(names, name) != 0
    ensures var id := KeyOf(names, name);
            var w1 := Step(w, CallRemove(name, caller, SYS_OK));
            var w2 := Step(w1, HalCallback(RemoveResult(id, 0)));
      && Contract(w, CallRemove(name, caller, SYS_OK)) && Contract(w1, HalCallback(RemoveResult(id, 0)))
      && w2.d.state == Removing && w2.d.caller == caller && w2.d.names == names
      && w2.queue == queue + [RemovedId(id)] && w2.hal.op == NoOp && w2.loaded
  {
    AgreementLimits.Removing(w, name, caller);
    CallFrame(w, CallRemove(name, caller, SYS_OK));
  }

  lemma {:induction false} AbortMakesReady(w: World, caller: string)
    requires w.d.state == Removing && w.d.caller == caller && w.hal.op == NoOp && w.loaded
    ensures ReadyToRemove(Step(w, CallAbort(caller)), caller, w.d.names, w.queue)
  {
    AgreementLimits.Aborted(w, caller);
    CallFrame(w, CallAbort(caller));
  }

  lemma {:induction false} RemoveAbortQueues(
      w: World, name: string, caller: string, id: U32, names: Names, queue: seq<Notice>)
    requires ReadyToRemove(w, caller, names, queue) && id == KeyOf(names, name) && id != 0
    ensures var es := RemoveAbort(name, caller, id);
      && Runs.Throughout(Step, Contract, w, es, |es|)
      && ReadyToRemove(At(w, es, |es|), caller, names, queue + [RemovedId(id)])
  {
    var es := RemoveAbort(name, caller, id);
    RemovalRuns(w, name, caller, names, queue);
    AbortMakesReady(Step(Step(w, es[0]), es[1]), caller);
    Runs.Unroll(Step, w, es);
    Runs.ThroughoutIsEach(Step, Contract, w, es, 3);
  }

  lemma {:induction false} SecondRemovalMisleads(w: World, id: U32)
    requires w.queue == [RemovedId(id), RemovedId(id)] && id != 0
    requires "" in (w.d.names - {id}).Values
    ensures RemovalMisleads(Step(w, Dispatch(true, true)), Dispatch(true, true))
  {
  }

  /** Under the contract, from every idle, settled world in which another id has the empty name, a client
      who removes a finger, aborts and does so again before the daemon has seen the results, misleads all
      clients with the second result. */
  lemma {:induction false} RemoveTwiceMisleads(w: World, name: string, caller: string, id: U32)
    requires ReadyToRemove(w, caller, w.d.names, []) && id == KeyOf(w.d.names, name) && id != 0
    requires "" in (w.d.names - {id}).Values
    ensures var part := RemoveAbort(name, caller, id); var es := part + part;
      && Runs.Throughout(Step, Contract, w, es, |es|)
      && RemovalMisleads(Step(At(w, es, |es|), Dispatch(true, true)), Dispatch(true, true))
  {
    var part := RemoveAbort(name, caller, id);
    var half := At(w, part, |part|);
    RemoveAbortQueues(w, name, caller, id, w.d.names, []);
    RemoveAbortQueues(half, name, caller, id, w.d.names, [RemovedId(id)]);
    Runs.LawfulBoth(Step, Contract, w, part, part);
    SecondRemovalMisleads(At(half, part, |part|), id);
  }

  /** A client clears, aborts, and asks for a removal that the busy HAL refuses. */
  function ClearInterrupted(name: string, caller: string, refusal: int): seq<Event> {
    [CallClear(caller, SYS_OK), CallAbort(caller), CallRemove(name, caller, refusal)]
  }

  lemma {:induction false} Clearing(w: World, caller: string)
    requires w.d.state == Idle && Permits(w.d, caller)
    ensures var d := Step(w, CallClear(caller, SYS_OK)).d; d.state == Removing && d.caller == caller
  {
  }

  lemma {:induction false} RefusedRemoval(w: World, name: string, caller: string, refusal: int)
    requires w.d.state == Idle && Permits(w.d, caller) && KeyOf(w.d.names, name) != 0 && refusal != SYS_OK
    ensures var d := Step(w, CallRemove(name, caller, refusal)).d; d.state == Idle && d.caller == caller
  {
  }

  /** Which leaves the HAL at the clear and the adapter expecting the removal. */
  lemma {:induction false} ClearRetargets(w: World, name: string, caller: string, refusal: int)
    requires w.d.state == Idle && Permits(w.d, caller) && w.hal.op == NoOp
    requires KeyOf(w.d.names, name) != 0 && refusal != SYS_OK
    ensures var es := ClearInterrupted(name, caller, refusal); var w' := At(w, es, |es|);
      && Runs.Throughout(Step, HalContract, w, es, |es|)
      && w'.d.state == Idle && w'.d.caller == caller && w'.d.names == w.d.names
      && w'.d.fp.removing == KeyOf(w.d.names, name)
      && w'.queue == w.queue && w'.hal == Hal(w.hal.templates, HalClear({}))
  {
    var es := ClearInterrupted(name, caller, refusal);
    var w1 := Step(w, es[0]);
    Clearing(w, caller);
    CallFrame(w, es[0]);
    var w2 := Step(w1, es[1]);
    AgreementLimits.Aborted(w1, caller);
    CallFrame(w1, es[1]);
    RefusedRemoval(w2, name, caller, refusal);
    CallFrame(w2, es[2]);
    Runs.Unroll(Step, w, es);
    Runs.ThroughoutIsEach(Step, HalContract, w, es, 3);
  }

  /** The end of the clear of two templates goes unnoticed by an adapter that expects the removal of the
      one that goes first. */
  lemma {:induction false} ClearEndsUnnoticed(w: World, first: U32, second: U32)
    requires w.hal == Hal({first, second}, HalClear({})) && first != second
    requires w.d.fp.removing == first && first != 0
    ensures var es := [HalCallback(RemoveResult(first, 1)), HalCallback(RemoveResult(second, 0))];
      && Runs.Throughout(Step, HalContract, w, es, |es|)
      && At(w, es, |es|) == w.(hal := Hal({}, NoOp))
  {
    var es := [HalCallback(RemoveResult(first, 1)), HalCallback(RemoveResult(second, 0))];
    var w1 := Step(w, es[0]);
    assert w.hal.templates - {first} == {second};
    assert w.queue + [] == w.queue;
    assert w.hal.op.deleted + (w.hal.templates * {first}) == {first};
    assert w1 == w.(hal := Hal({second}, HalClear({first})));
    assert w1.hal.templates - {second} == {};
    Runs.Unroll(Step, w, es);
    Runs.ThroughoutIsEach(Step, HalContract, w, es, 2);
  }

  lemma {:induction false} EnrolmentStarts(w: World, name: string, caller: string)
    requires w.d.state == Idle && Permits(w.d, caller) && name !in w.d.names.Values
    ensures var w' := Step(w, CallEnroll(name, caller, SYS_OK));
      && w'.d.state == Enrolling && w'.d.names == w.d.names && w'.queue == w.queue
      && w'.hal == w.hal.(op := HalEnroll)
  {
  }

  lemma {:induction false} EnrolmentEnds(w: World, id: U32)
    requires w.d.state == Enrolling && w.queue == []
    ensures var w1 := Step(w, HalCallback(EnrollResult(id, 0, SYS_OK)));
            var w2 := Step(w1, Dispatch(true, true));
      w2.d.names == w.d.names && w2.queue == [Succeeded(id)]
  {
    assert Step(w, HalCallback(EnrollResult(id, 0, SYS_OK))).queue == [EnrollProgress(Some(1.0)), Succeeded(id)];
  }

  /** An enrolment under an id that the index still has, up to the delivery of its success. */
  function Reenrol(name: string, caller: string, id: U32): seq<Event> {
    [CallEnroll(name, caller, SYS_OK), HalCallback(EnrollResult(id, 0, SYS_OK)), Dispatch(true, true)]
  }

  lemma {:induction false} ReenrolmentMisleads(w: World, name: string, caller: string, id: U32)
    requires w.d.state == Idle && Permits(w.d, caller) && w.queue == [] && w.hal == Hal({}, NoOp)
    requires name !in w.d.names.Values && id in w.d.names && id != 0
    ensures var es := Reenrol(name, caller, id);
      && Runs.Throughout(Step, HalContract, w, es, |es|)
      && Misled(At(w, es, |es|), Dispatch(true, true))
  {
    var es := Reenrol(name, caller, id);
    EnrolmentStarts(w, name, caller);
    EnrolmentEnds(Step(w, es[0]), id);
    Runs.Unroll(Step, w, es);
    Runs.ThroughoutIsEach(Step, HalContract, w, es, 3);
  }

  /** Lawful for the HAL, but not with patient clients: from every idle, settled world with two ids, a
      clear that is interrupted in this way leaves the index full over an empty sensor, and the next
      enrolment under one of the ids misleads all clients when its success is delivered. */
  lemma {:induction false} ReusedIdMisleads(
      w: World, name: string, caller: string, refusal: int, other: U32, added: string)
    requires w.d.state == Idle && Permits(w.d, caller) && w.queue == [] && refusal != SYS_OK
    requires var id := KeyOf(w.d.names, name); id != 0 && other != id && other != 0 && w.hal == Hal({id, other}, NoOp)
    requires w.d.names.Keys == w.hal.templates && added !in w.d.names.Values
    ensures var es := ClearInterrupted(name, caller, refusal)
                      + [HalCallback(RemoveResult(KeyOf(w.d.names, name), 1)), HalCallback(RemoveResult(other, 0))]
                      + Reenrol(added, caller, other);
      && Runs.Throughout(Step, HalContract, w, es, |es|)
      && Misled(At(w, es, |es|), Dispatch(true, true))
  {
    var id := KeyOf(w.d.names, name);
    var first := ClearInterrupted(name, caller, refusal);
    var second := [HalCallback(RemoveResult(id, 1)), HalCallback(RemoveResult(other, 0))];
    ClearRetargets(w, name, caller, refusal);
    var w1 := At(w, first, |first|);
    ClearEndsUnnoticed(w1, id, other);
    var w2 := At(w1, second, |second|);
    Runs.LawfulBoth(Step, HalContract, w, first, second);
    ReenrolmentMisleads(w2, added, caller, other);
    Runs.LawfulBoth(Step, HalContract, w, first + second, Reenrol(added, caller, other));
  }
}
