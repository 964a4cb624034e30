/** What becomes of the agreement when a client asks for a removal while the HAL is still at one: the
    adapter forgets which removal is in flight before it learns that the new one is refused. */
module AgreementLimits {
  import opened Vocabulary
  import opened Index
  import opened DaemonSpec
  import opened RequestShape
  import opened System
  import opened Frames
  import opened Agreement
  import Runs

  // ---- The exact condition ----

  /** Under the HAL's contract alone, and whatever the clients ask for and when, index and sensor agree
      at every point of a run - up to what is queued, from the first load of each process on - if and
      only if no final removal callback of the run is misread. */
  lemma {:induction false} AgreementHoldsIff(w0: World, es: seq<Event>, n: nat)
    requires Powered(w0) && n <= |es|
    requires Runs.Throughout(Step, HalContract, w0, es, n)
    ensures Runs.GoodUpTo(Step, Agreed, w0, es, 0, n) <==> Runs.NoneOf(Step, Misreads, w0, es, 0, n)
  {
    PoweredAgrees(w0);
    forall w, e | Tied(w) && Agreed(w) && HalContract(w, e)
      ensures Tied(Step(w, e)) && (Agreed(Step(w, e)) <==> !Misreads(w, e))
    {
      StepAgreedIff(w, e);
    }
    Runs.ThroughoutIsBetween(Step, HalContract, w0, es, n);
    Runs.GoodIffNoneBad(Step, Tied, Agreed, HalContract, Misreads, w0, es, 0, n);
  }

  // ---- What the adapter expects, read off the requests ----

  /** The request reaches the HAL - which may refuse it - and is for the removal of x. */
  predicate AsksToRemove(w: World, e: Event, x: U32) {
    e.CallRemove? && Reaches(w.d, e) && KeyOf(w.d.names, e.name) == x
  }

  /** After this, the adapter no longer expects the removal of x that it was asked for before. */
  predicate Supersedes(w: World, e: Event, x: U32) {
    || ((e.CallRemove? || e.CallClear?) && Reaches(w.d, e))
    || e.Restart?
    || e == HalCallback(RemoveResult(x, 0))
  }

  /** Event i is a request for the removal of x that nothing has superseded. */
  ghost predicate AskedAt(step: (World, Event) -> World, w0: World, es: seq<Event>, i: nat, n: nat, x: U32)
    requires i < n <= |es|
  {
    && AsksToRemove(Runs.After(step, w0, es, i), es[i], x)
    && forall j :: i < j < n ==> !Supersedes(Runs.After(step, w0, es, j), es[j], x)
  }

  /** The last request for a removal was for x, and its final callback has not come. */
  ghost predicate LastAskedFor(step: (World, Event) -> World, w0: World, es: seq<Event>, n: nat, x: U32)
    requires n <= |es|
  {
    exists i :: 0 <= i < n && AskedAt(step, w0, es, i, n, x)
  }

  function RemovingNext(w: World, e: Event): U32 {
    match e
    case HalCallback(RemoveResult(id, 0)) => if id == w.d.fp.removing then 0 else w.d.fp.removing
    case Restart(_, _) => 0
    case _ => RemovingAfter(w.d, e)
  }

  lemma {:induction false} StepRemoving(w: World, e: Event)
    ensures Step(w, e).d.fp.removing == RemovingNext(w, e)
  {
    match e {
      case Dispatch(_, _) =>
        if w.queue != [] {
          NoticeKeys(w.d, w.queue[0], e.readable, e.writable);
        }
      case HalCallback(_) =>
      case TimerFires => TimerFrame(w.d);
      case Advance(_) =>
      case Restart(gs, st) => BootFrame(w.d.fp.rounding, w.d.database, gs, st);
      case _ => CallFrame(w, e);
    }
  }

  ghost predicate Remembers(step: (World, Event) -> World) {
    forall w, e :: step(w, e).d.fp.removing == RemovingNext(w, e)
  }

  lemma {:induction false} StillExpected(w: World, e: Event, x: U32)
    requires x != 0 && w.d.fp.removing == x && RemovingNext(w, e) == x && !AsksToRemove(w, e, x)
    ensures !Supersedes(w, e, x)
  {
  }

  lemma {:induction false} RemovingWasAsked(
      step: (World, Event) -> World, w0: World, es: seq<Event>, n: nat, x: U32) returns (i: nat)
    requires Remembers(step) && n <= |es| && w0.d.fp.removing == 0 && x != 0
    requires Runs.After(step, w0, es, n).d.fp.removing == x
    ensures i < n && AskedAt(step, w0, es, i, n, x)
  {
    var now := (w: World) => w.d.fp.removing == x;
    var start := (w: World, e: Event) => AsksToRemove(w, e, x);
    forall k | 0 <= k < n ensures Runs.Explained(step, now, start, w0, es, k) {
      var w := Runs.After(step, w0, es, k);
      assert step(w, es[k]).d.fp.removing == RemovingNext(w, es[k]);
    }
    i := Runs.Since(step, now, start, w0, es, n);
    forall j | i < j < n ensures !Supersedes(Runs.After(step, w0, es, j), es[j], x) {
      var w := Runs.After(step, w0, es, j);
      assert now(Runs.After(step, w0, es, j + 1)) && now(w) && !start(w, es[j]);
      assert step(w, es[j]).d.fp.removing == RemovingNext(w, es[j]);
      StillExpected(w, es[j], x);
    }
  }

  lemma {:induction false} AskedIsRemoving(
      step: (World, Event) -> World, w0: World, es: seq<Event>, i: nat, n: nat, x: U32)
    requires Remembers(step) && i < n <= |es|
    requires AskedAt(step, w0, es, i, n, x)
    ensures Runs.After(step, w0, es, n).d.fp.removing == x
    decreases n
  {
    var w := Runs.After(step, w0, es, n - 1);
    assert step(w, es[n - 1]).d.fp.removing == RemovingNext(w, es[n - 1]);
    if i < n - 1 {
      AskedIsRemoving(step, w0, es, i, n - 1, x);
    }
  }

  lemma {:induction false} StepRemembers()
    ensures Remembers(Step)
  {
    forall w, e ensures Step(w, e).d.fp.removing == RemovingNext(w, e) {
      StepRemoving(w, e);
    }
  }

  lemma {:induction false} PoweredExpectsNothing(w0: World)
    requires Powered(w0)
    ensures w0.d.fp.removing == 0
  {
    var gs, st :| w0 == Power(w0.d.fp.rounding, w0.d.database, w0.hal.templates, w0.clock, gs, st);
    BootFrame(w0.d.fp.rounding, w0.d.database, gs, st);
  }

  /** The id that the adapter takes to be under removal is the one of the last request for a removal or
      clear that reached the HAL in this process, accepted or not, until its final callback comes; it
      is 0 otherwise. */
  lemma {:induction false} RemovingIsLastAsked(w0: World, es: seq<Event>, n: nat, x: U32)
    requires Powered(w0) && n <= |es| && x != 0
    ensures At(w0, es, n).d.fp.removing == x <==> LastAskedFor(Step, w0, es, n, x)
  {
    PoweredExpectsNothing(w0);
    StepRemembers();
    if At(w0, es, n).d.fp.removing == x {
      var i := RemovingWasAsked(Step, w0, es, n, x);
    }
    if LastAskedFor(Step, w0, es, n, x) {
      var i :| 0 <= i < n && AskedAt(Step, w0, es, i, n, x);
      AskedIsRemoving(Step, w0, es, i, n, x);
    }
  }

  // ---- Requests that come too early ----

  /** A request for a removal or a clear that the HAL refuses because it is still at one: the agreement
      survives the callback that comes next, whichever it is, exactly if that is not misread by an
      adapter that expects what was asked for last. */
  lemma {:induction false} ImpatientRequestAgreesIff(w: World, e: Event, id: U32, remaining: U32)
    requires Known(w) && Agreed(w) && Tied(w) && w.hal.op.Removes()
    requires (e.CallRemove? || e.CallClear?) && Reaches(w.d, e) && e.status != SYS_OK
    requires HalContract(w, HalCallback(RemoveResult(id, remaining)))
    ensures var w' := Step(Step(w, e), HalCallback(RemoveResult(id, remaining)));
      (Replayed(w') == w'.hal.Held()) <==>
      !(remaining == 0
        && MisreadAs(w.hal, id, if e.CallRemove? then KeyOf(w.d.names, e.name) else 0))
  {
    CallFrame(w, e);
    RemovalCallbackAgreesIff(Step(w, e), id, remaining);
  }

  /** In particular, when the removal under way ends: during a single removal the agreement survives
      exactly if the refused request was for the same id, or was a clear of a store that holds nothing
      else; during a clear, exactly if it was a clear, or the store held at most the one template that
      both the request and the last callback name. */
  lemma {:induction false} ImpatientRequestCases(w: World, e: Event, id: U32)
    requires Known(w) && Agreed(w) && Tied(w) && w.hal.op.Removes()
    requires (e.CallRemove? || e.CallClear?) && Reaches(w.d, e) && e.status != SYS_OK
    requires HalContract(w, HalCallback(RemoveResult(id, 0)))
    requires w.hal.op.HalRemove? ==> id == w.hal.op.id && id in w.hal.templates
    ensures var w' := Step(Step(w, e), HalCallback(RemoveResult(id, 0)));
      (Replayed(w') == w'.hal.Held()) <==>
      (if w.hal.op.HalRemove? then
         if e.CallRemove? then KeyOf(w.d.names, e.name) == id else w.hal.templates == {id}
       else
         || e.CallClear? || w.hal.Held() == {}
         || (KeyOf(w.d.names, e.name) == id && w.hal.Held() == {id}))
  {
    ImpatientRequestAgreesIff(w, e, id, 0);
    if w.hal.op.HalRemove? {
      OnlyOne(w.hal.templates, id);
    } else if id in w.hal.Held() {
      OnlyOne(w.hal.Held(), id);
    }
  }

  // ---- A run that parts them ----

  /** A client removes one finger, aborts, and asks for a clear that the busy HAL refuses. */
  function RefusedClear(name: string, caller: string, id: U32, refusal: int): seq<Event> {
    [CallRemove(name, caller, SYS_OK), CallAbort(caller), CallClear(caller, refusal),
     HalCallback(RemoveResult(id, 0)), Dispatch(true, true)]
  }

  /** The first three events leave the HAL at the removal and the adapter expecting a clear. */
  lemma {:induction false} RefusedClearRetargets(w: World, name: string, caller: string, refusal: int)
    requires w.d.state == Idle && Permits(w.d, caller) && w.hal.op == NoOp
    requires KeyOf(w.d.names, name) != 0 && refusal != SYS_OK
    ensures var w1 := Step(w, CallRemove(name, caller, SYS_OK));
            var w2 := Step(w1, CallAbort(caller));
            var w3 := Step(w2, CallClear(caller, refusal));
      && w1.hal == w2.hal == w3.hal == w.hal.(op := HalRemove(KeyOf(w.d.names, name)))
      && w3.d.names == w.d.names && w3.d.fp.removing == 0
      && w3.queue == w.queue && w3.loaded == w.loaded
  {
    var w1 := Step(w, CallRemove(name, caller, SYS_OK));
    Removing(w, name, caller);
    CallFrame(w, CallRemove(name, caller, SYS_OK));
    var w2 := Step(w1, CallAbort(caller));
    Aborted(w1, caller);
    CallFrame(w1, CallAbort(caller));
    CallFrame(w2, CallClear(caller, refusal));
  }

  lemma {:induction false} Removing(w: World, name: string, caller: string)
    requires w.d.state == Idle && Permits(w.d, caller) && KeyOf(w.d.names, name) != 0
    ensures var d := Step(w, CallRemove(name, caller, SYS_OK)).d;
      d.state == State.Removing && d.caller == caller
  {
  }

  lemma {:induction false} Aborted(w: World, caller: string)
    requires w.d.state != Idle && Permits(w.d, caller)
    ensures var d := Step(w, CallAbort(caller)).d; d.state == Idle && d.caller == ""
  {
  }

  /** The last two events empty the index. */
  lemma {:induction false} ClearedByRemoval(w: World, id: U32)
    requires w.queue == [] && w.hal.op == HalRemove(id) && w.d.fp.removing == 0
    ensures var w' := Step(Step(w, HalCallback(RemoveResult(id, 0))), Dispatch(true, true));
      && w'.d.names == map[] && w'.queue == [] && w'.loaded == w.loaded
      && w'.hal == Hal(w.hal.templates - {id}, NoOp)
  {
    assert Step(w, HalCallback(RemoveResult(id, 0))).queue == [RemovedId(0)];
  }

  /** All along, the HAL keeps its contract. */
  lemma {:induction false} RefusedClearIsLawful(
      w: World, name: string, caller: string, id: U32, refusal: int)
    requires w.d.state == Idle && Permits(w.d, caller) && w.hal.op == NoOp
    requires id == KeyOf(w.d.names, name) && id != 0 && refusal != SYS_OK
    ensures Runs.Throughout(Step, HalContract, w, RefusedClear(name, caller, id, refusal), 5)
  {
    var es := RefusedClear(name, caller, id, refusal);
    RefusedClearRetargets(w, name, caller, refusal);
    Runs.Unroll(Step, w, es);
    assert HalContract(At(w, es, 0), es[0]) && HalContract(At(w, es, 1), es[1]);
    assert HalContract(At(w, es, 2), es[2]) && HalContract(At(w, es, 3), es[3]);
    assert HalContract(At(w, es, 4), es[4]);
    Runs.ThroughoutIsEach(Step, HalContract, w, es, 5);
  }

  /** In every idle, settled world that run, lawful for the HAL, empties the index, while the sensor
      loses only the one template: they disagree unless it was the only one. */
  lemma {:induction false} RefusedClearEmptiesIndex(
      w: World, name: string, caller: string, id: U32, refusal: int)
    requires w.loaded && w.queue == [] && w.hal.op == NoOp && w.d.names.Keys == w.hal.templates
    requires w.d.state == Idle && Permits(w.d, caller)
    requires id == KeyOf(w.d.names, name) && id != 0 && refusal != SYS_OK
    ensures var w' := At(w, RefusedClear(name, caller, id, refusal), 5);
      && w'.loaded && w'.queue == [] && w'.hal.op == NoOp
      && w'.d.names == map[] && w'.hal.templates == w.hal.templates - {id}
      && (w'.d.names.Keys == w'.hal.templates <==> w.hal.templates == {id})
  {
    var es := RefusedClear(name, caller, id, refusal);
    RefusedClearRetargets(w, name, caller, refusal);
    ClearedByRemoval(Step(Step(Step(w, es[0]), es[1]), es[2]), id);
    Runs.Unroll(Step, w, es);
    OnlyOne(w.hal.templates, id);
  }

  lemma {:induction false} OnlyOne(s: set<U32>, id: U32)
    requires id in s
    ensures s - {id} == {} <==> s == {id}
  {
    if s - {id} == {} {
      assert forall k :: k in s ==> k == id || k in s - {id};
    }
  }
}
