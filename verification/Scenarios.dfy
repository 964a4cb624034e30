/** Concrete runs from the start of a process that show what does not hold: each is lawful for the HAL. */
module Scenarios {
  import opened Vocabulary
  import opened Index
  import opened DaemonSpec
  import opened System
  import opened Agreement
  import Adapter = AdapterSpec
  import AgreementLimits
  import Observers
  import Runs
  import UniqueNames

  // ---- A loaded daemon ----

  /** A sensor with the templates 1 and 2, on this database file. */
  function PowerTwo(rounding: Adapter.Rounding, database: Option<Names>): World {
    Power(rounding, database, {1, 2}, 0, SYS_OK, SYS_OK)
  }

  /** The two are enumerated and loaded. */
  function LoadTwo(): seq<Event> {
    [HalCallback(EnumerateResult(1, 1)), HalCallback(EnumerateResult(2, 0)), Dispatch(true, true)]
  }

  predicate Enumerating(w: World, database: Option<Names>) {
    && w.hal == Hal({1, 2}, HalEnumerate({})) && w.queue == [] && w.d.fp.fingers == []
    && w.d.database == database && w.d.adding == ""
  }

  lemma {:induction false} StartsEnumerating(rounding: Adapter.Rounding, database: Option<Names>)
    ensures Enumerating(PowerTwo(rounding, database), database)
  {
  }

  lemma {:induction false} Enumerates(w: World, id: U32, remaining: U32)
    requires id != 0 && w.hal.op.HalEnumerate?
    ensures var w' := Step(w, HalCallback(EnumerateResult(id, remaining)));
      && w'.hal == w.hal.(op := if remaining == 0 then NoOp else HalEnumerate(w.hal.op.reported + {id}))
      && w'.queue == (if remaining == 0 then w.queue + [Enumerated] else w.queue)
      && w'.d == w.d.(fp := w.d.fp.(fingers := w.d.fp.fingers + [id]))
  {
    assert {id} - {0} == {id};
  }

  function StoredIn(database: Option<Names>): Names {
    if database.Some? then database.value else map[]
  }

  lemma {:induction false} Loads(w: World)
    requires w.queue == [Enumerated]
    ensures var w' := Step(w, Dispatch(true, true));
      && w'.loaded && w'.queue == [] && w'.hal == w.hal && w'.d.adding == w.d.adding
      && w'.d.names == Reconcile(StoredIn(w.d.database), w.d.fp.fingers)
      && w'.d.state == Idle && w'.d.caller == ""
  {
  }

  /** Idle and settled, with the index that loading the two leaves. */
  predicate LoadedTwo(w: World, database: Option<Names>) {
    && w.loaded && w.queue == [] && w.hal == Hal({1, 2}, NoOp)
    && w.d.names == Reconcile(StoredIn(database), [1, 2])
    && w.d.state == Idle && w.d.caller == "" && w.d.adding == ""
  }

  lemma {:induction false} LoadTwoFrom(w0: World, database: Option<Names>)
    requires Enumerating(w0, database)
    ensures LoadedTwo(At(w0, LoadTwo(), |LoadTwo()|), database)
  {
    var es := LoadTwo();
    Enumerates(w0, 1, 1);
    Enumerates(Step(w0, es[0]), 2, 0);
    Loads(Step(Step(w0, es[0]), es[1]));
    Runs.Unroll(Step, w0, es);
  }

  lemma {:induction false} LoadTwoIsLawful(w0: World, database: Option<Names>)
    requires Enumerating(w0, database)
    ensures Runs.Throughout(Step, Contract, w0, LoadTwo(), |LoadTwo()|)
  {
    var es := LoadTwo();
    Enumerates(w0, 1, 1);
    Runs.Unroll(Step, w0, es);
    assert Contract(At(w0, es, 0), es[0]);
    assert Contract(At(w0, es, 1), es[1]);
    assert Contract(At(w0, es, 2), es[2]);
    Runs.ThroughoutIsEach(Step, Contract, w0, es, 3);
  }

  lemma {:induction false} LoadTwoSettles(rounding: Adapter.Rounding, database: Option<Names>)
    ensures var w0 := PowerTwo(rounding, database); var es := LoadTwo();
      Runs.Throughout(Step, Contract, w0, es, |es|) && LoadedTwo(At(w0, es, |es|), database)
  {
    StartsEnumerating(rounding, database);
    LoadTwoFrom(PowerTwo(rounding, database), database);
    LoadTwoIsLawful(PowerTwo(rounding, database), database);
  }

  lemma {:induction false} LawfulForHal(w0: World, es: seq<Event>)
    requires Runs.Throughout(Step, Contract, w0, es, |es|)
    ensures Runs.Throughout(Step, HalContract, w0, es, |es|)
  {
    var any := (w: World) => true;
    Runs.ThroughoutFollows(Step, any, Contract, HalContract, w0, es, |es|);
  }

  lemma {:induction false} TwoUnknown(w: World)
    requires LoadedTwo(w, None)
    ensures w.d.names == map[1 := UnknownName(1), 2 := UnknownName(2)]
    ensures KeyOf(w.d.names, UnknownName(1)) == 1
  {
    assert w.d.names == map[1 := UnknownName(1), 2 := UnknownName(2)];
    if UnknownName(1) == UnknownName(2) {
      UnknownInjective(1, 2);
    }
    assert 1 in KeysNamed(w.d.names, UnknownName(1));
  }

  // ---- What is reachable ----

  /** Index and sensor part: the index is empty, the sensor holds a template. */
  lemma {:induction false} IndexIsEmptied(rounding: Adapter.Rounding)
    ensures var w0 := PowerTwo(rounding, None);
            var es := LoadTwo() + AgreementLimits.RefusedClear(UnknownName(1), "client", 1, -16);
      && Runs.Throughout(Step, HalContract, w0, es, |es|)
      && var w := At(w0, es, |es|);
        w.loaded && w.queue == [] && w.hal == Hal({2}, NoOp) && w.d.names == map[]
  {
    var w0 := PowerTwo(rounding, None);
    var first, second := LoadTwo(), AgreementLimits.RefusedClear(UnknownName(1), "client", 1, -16);
    LoadTwoSettles(rounding, None);
    LawfulForHal(w0, first);
    var w := At(w0, first, |first|);
    TwoUnknown(w);
    AgreementLimits.RefusedClearIsLawful(w, UnknownName(1), "client", 1, -16);
    AgreementLimits.RefusedClearEmptiesIndex(w, UnknownName(1), "client", 1, -16);
    Runs.LawfulBoth(Step, HalContract, w0, first, second);
  }

  lemma {:induction false} RefusedVerifyLocks(w: World, caller: string, refusal: int)
    requires w.d.state == Idle && Permits(w.d, caller) && refusal != SYS_OK
    ensures var es := [CallVerify(caller, refusal)]; var d := At(w, es, |es|).d;
      && Runs.Throughout(Step, Contract, w, es, |es|)
      && d.state == Idle && d.caller == caller
  {
    var es := [CallVerify(caller, refusal)];
    Runs.Unroll(Step, w, es);
    Runs.ThroughoutIsEach(Step, Contract, w, es, 1);
  }

  /** An idle daemon is locked. */
  lemma {:induction false} IdleIsLocked(rounding: Adapter.Rounding)
    ensures var w0 := PowerTwo(rounding, None);
            var es := LoadTwo() + [CallVerify("client", -16)]; var d := At(w0, es, |es|).d;
      && Runs.Throughout(Step, Contract, w0, es, |es|)
      && d.state == Idle && d.caller == "client"
  {
    var w0 := PowerTwo(rounding, None);
    LoadTwoSettles(rounding, None);
    RefusedVerifyLocks(At(w0, LoadTwo(), |LoadTwo()|), "client", -16);
    Runs.LawfulBoth(Step, Contract, w0, LoadTwo(), [CallVerify("client", -16)]);
  }

  /** A load makes up a name that the file has on another id. */
  lemma {:induction false} LoadClashes(rounding: Adapter.Rounding)
    ensures var w0 := PowerTwo(rounding, Some(map[1 := UnknownName(2)]));
            var es := LoadTwo(); var names := At(w0, es, |es|).d.names;
      && Runs.Throughout(Step, Contract, w0, es, |es|)
      && names == map[1 := UnknownName(2), 2 := UnknownName(2)] && !UniqueNames.Injective(names)
  {
    var database := Some(map[1 := UnknownName(2)]);
    LoadTwoSettles(rounding, database);
    var names := At(PowerTwo(rounding, database), LoadTwo(), |LoadTwo()|).d.names;
    assert names == map[1 := UnknownName(2), 2 := UnknownName(2)];
    assert names[1] == names[2];
  }

  /** Two verifications that the sensor completes. */
  function VerifyTwo(): seq<Event> {
    UniqueNames.VerifyCompletes("client", 3) + UniqueNames.VerifyCompletes("client", 4)
  }

  /** Two ids share the empty name. */
  lemma {:induction false} EmptyNameIsShared(rounding: Adapter.Rounding)
    ensures var w0 := PowerTwo(rounding, None);
            var es := LoadTwo() + VerifyTwo(); var names := At(w0, es, |es|).d.names;
      && Runs.Throughout(Step, Contract, w0, es, |es|)
      && 3 in names && 4 in names && names[3] == names[4] == ""
  {
    var w0 := PowerTwo(rounding, None);
    LoadTwoSettles(rounding, None);
    var w := At(w0, LoadTwo(), |LoadTwo()|);
    UniqueNames.TwoVerificationsAreLawful(w, "client", 3, 4);
    UniqueNames.TwoVerificationsShareName(w, "client", 3, 4);
    Runs.LawfulBoth(Step, Contract, w0, LoadTwo(), VerifyTwo());
  }

  /** Under the HAL's contract alone, a client is misled by an enrolment under an id that the index still
      has. */
  lemma {:induction false} ClientIsMisled(rounding: Adapter.Rounding)
    ensures var w0 := PowerTwo(rounding, None);
            var es := LoadTwo() + (Observers.ClearInterrupted(UnknownName(1), "client", -16)
                      + [HalCallback(RemoveResult(1, 1)), HalCallback(RemoveResult(2, 0))]
                      + Observers.Reenrol("thumb", "client", 2));
      && Runs.Throughout(Step, HalContract, w0, es, |es|)
      && Observers.Misled(At(w0, es, |es|), Dispatch(true, true))
  {
    var w0 := PowerTwo(rounding, None);
    LoadTwoSettles(rounding, None);
    LawfulForHal(w0, LoadTwo());
    var w := At(w0, LoadTwo(), |LoadTwo()|);
    TwoUnknown(w);
    assert UnknownName(1)[0] != "thumb"[0] && UnknownName(2)[0] != "thumb"[0];
    var es := Observers.ClearInterrupted(UnknownName(1), "client", -16)
              + [HalCallback(RemoveResult(1, 1)), HalCallback(RemoveResult(2, 0))]
              + Observers.Reenrol("thumb", "client", 2);
    Observers.ReusedIdMisleads(w, UnknownName(1), "client", -16, 2, "thumb");
    Runs.LawfulBoth(Step, HalContract, w0, LoadTwo(), es);
  }
}
