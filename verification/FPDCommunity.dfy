/** The daemon object, with the fields that src/fpdcommunity.h declares and one method for each
    client request, slot and private helper.  What the HAL or the file system answers is a
    parameter: the status of the request that the method makes, whether the database file opens. */
module FPDCommunityModule {
  import opened Vocabulary
  import opened Index
  import opened EnrolProgress
  import opened AndroidFPModule
  import Adapter = AdapterSpec
  import Spec = DaemonSpec

  class FPDCommunity {
    const androidFP: AndroidFP
    var state: State
    var dbusCaller: string
    var fingerMap: map<U32, string>
    var addingFinger: string
    var acquired: AcquiredState
    var cancelTimer: Option<nat>
    var database: Option<map<U32, string>>
    ghost var trace: seq<Signal>

    ghost function View(): Spec.Daemon
      reads this, androidFP
    {
      Spec.Daemon(state, dbusCaller, fingerMap, addingFinger, acquired, cancelTimer, database, trace,
                  androidFP.View())
    }

    constructor (rounding: Adapter.Rounding, database: Option<map<U32, string>>,
                 groupStatus: int, enumerateStatus: int)
      ensures View() == Spec.Boot(rounding, database, groupStatus, enumerateStatus)
      ensures fresh(androidFP)
    {
      androidFP := new AndroidFP(rounding);
      state := Idle;
      dbusCaller := "";
      fingerMap := map[];
      addingFinger := "";
      acquired := Unspecified;
      cancelTimer := None;
      this.database := database;
      trace := [];
      new;
      SetUser(groupStatus, enumerateStatus);
    }

    method SetUser(groupStatus: int, enumerateStatus: int)
      modifies this, androidFP
      ensures View() == Spec.SetUser(old(View()), groupStatus, enumerateStatus)
    {
      var failure := androidFP.SetGroup(groupStatus);
      if failure.Some? {
        SlotFailed(failure.value);
      }
      Enumerate(enumerateStatus);
    }

    method Enumerate(status: int)
      modifies this, androidFP
      ensures View() == if old(state) != Idle then old(View()) else
                          var busy := Spec.SetState(old(View()), Enumerating);
                          Spec.Requested(busy, Adapter.Enumerate(busy.fp), status)
    {
      if state == Idle {
        SetState(Enumerating);
        var failure := androidFP.Enumerate(status);
        if failure.Some? {
          SlotFailed(failure.value);
        }
      }
    }

    // ---- Helpers ----

    method Emit(signal: Signal)
      modifies this
      ensures View() == Spec.Emit(old(View()), signal)
    {
      trace := trace + [signal];
    }

    method SetState(newState: State)
      modifies this
      ensures View() == Spec.SetState(old(View()), newState)
    {
      if newState == Idle {
        dbusCaller := "";
      }
      if newState != state {
        state := newState;
        Emit(StateChanged(state));
      }
    }

    method AbortOperation()
      modifies this, androidFP
      ensures View() == Spec.AbortOperation(old(View()))
    {
      androidFP.Cancel();
      cancelTimer := None;
      Emit(Aborted);
      SetState(Idle);
    }

    method SaveFingers(writable: bool)
      modifies this
      ensures View() == Spec.Save(old(View()), writable)
    {
      if !writable {
        return;
      }
      database := Some(fingerMap);
    }

    /** Two passes over key snapshots, changing the index in place, leave the reconciliation. */
    method LoadFingers(readable: bool, writable: bool)
      modifies this
      ensures View() == Spec.Load(old(View()), readable, writable)
    {
      if !readable || database.None? {
        fingerMap := map[];
      } else {
        fingerMap := database.value;
      }
      ghost var stored := fingerMap;
      DropUnreported(androidFP.fingers);
      AddUnknown(androidFP.fingers);
      ReconcileInTwo(stored, androidFP.fingers);
      SaveFingers(writable);
    }

    /** First pass: only reported ids stay, with their names. */
    method DropUnreported(enumerated: seq<U32>)
      modifies this`fingerMap
      ensures fingerMap == Reported(old(fingerMap), enumerated)
    {
      ghost var stored := fingerMap;
      var keys := OrderedKeys(fingerMap.Keys);
      for i := 0 to |keys|
        invariant fingerMap == Dropping(stored, enumerated, keys[..i])
      {
        DroppingStep(stored, enumerated, keys, i);
        if keys[i] !in enumerated {
          fingerMap := fingerMap - {keys[i]};
        }
      }
      assert keys[..|keys|] == keys;
    }

    /** Second pass: every reported id is there, new ones under a made-up name. */
    method AddUnknown(enumerated: seq<U32>)
      modifies this`fingerMap
      ensures fingerMap == WithUnknown(old(fingerMap), enumerated)
    {
      ghost var kept := fingerMap;
      var mapped := OrderedKeys(fingerMap.Keys);
      for i := 0 to |enumerated|
        invariant fingerMap == WithUnknown(kept, enumerated[..i])
      {
        var k := enumerated[i];
        WithUnknownStep(kept, enumerated, i);
        if k !in mapped {
          fingerMap := fingerMap[k := UnknownName(k)];
        }
      }
      assert enumerated[..|enumerated|] == enumerated;
    }

    // ---- Client requests ----

    method Enroll(finger: string, caller: string, status: int) returns (reply: Reply)
      modifies this, androidFP
      ensures Spec.Outcome(View(), reply) == Spec.Enroll(old(View()), finger, caller, status)
    {
      if dbusCaller != "" && dbusCaller != caller {
        return AlreadyBusy;
      }
      if finger in fingerMap.Values {
        return KeyAlreadyExists;
      }
      if state == Idle {
        SetState(Enrolling);
        addingFinger := finger;
        dbusCaller := caller;
        var failure := androidFP.Enroll(status);
        if failure.Some? {
          SlotFailed(failure.value);
        }
        Emit(EnrollProgressChanged(Some(0)));
        return Started;
      }
      return AlreadyBusy;
    }

    method Identify(caller: string, now: nat, status: int) returns (reply: Reply)
      modifies this, androidFP
      ensures Spec.Outcome(View(), reply) == Spec.Identify(old(View()), caller, now, status)
    {
      if dbusCaller != "" && dbusCaller != caller {
        return AlreadyBusy;
      }
      if state != Idle {
        return AlreadyBusy;
      }
      if |fingerMap| == 0 {
        return NoKeysAvailable;
      }
      SetState(Identifying);
      dbusCaller := caller;
      cancelTimer := Some(now + CANCEL_INTERVAL);
      var failure := androidFP.Authenticate(status);
      if failure.Some? {
        SlotFailed(failure.value);
      }
      return Started;
    }

    method Clear(caller: string, status: int)
      modifies this, androidFP
      ensures View() == Spec.Clear(old(View()), caller, status)
    {
      if dbusCaller != "" && dbusCaller != caller {
        return;
      }
      if state == Idle {
        SetState(Removing);
        dbusCaller := caller;
        var failure := androidFP.Clear(status);
        if failure.Some? {
          SlotFailed(failure.value);
        }
      }
    }

    method Abort(caller: string) returns (reply: Reply)
      modifies this, androidFP
      ensures Spec.Outcome(View(), reply) == Spec.Abort(old(View()), caller)
    {
      if dbusCaller != "" && dbusCaller != caller {
        return AlreadyIdle;
      }
      if state == Idle {
        return AlreadyIdle;
      }
      AbortOperation();
      return Started;
    }

    method Verify(caller: string, status: int) returns (reply: Reply)
      modifies this, androidFP
      ensures Spec.Outcome(View(), reply) == Spec.Verify(old(View()), caller, status)
    {
      if dbusCaller != "" && dbusCaller != caller {
        return AlreadyIdle;
      }
      if state != Idle {
        return AlreadyBusy;
      }
      SetState(Verifying);
      var failure := androidFP.Enroll(status);
      if failure.Some? {
        SlotFailed(failure.value);
      }
      dbusCaller := caller;
      Emit(EnrollProgressChanged(Some(0)));
      return Started;
    }

    /** The first entry in key order that carries the name, or 0. */
    method FindKey(finger: string) returns (key: U32)
      ensures key == KeyOf(fingerMap, finger)
    {
      key := 0;
      var keys := OrderedKeys(fingerMap.Keys);
      ghost var named := KeysNamed(fingerMap, finger);
      for i := 0 to |keys|
        invariant key == 0
        invariant forall j :: 0 <= j < i ==> fingerMap[keys[j]] != finger
      {
        if fingerMap[keys[i]] == finger {
          key := keys[i];
          assert key in named;
          assert LeastKey(named) in keys;
          return;
        }
      }
      forall k | k in fingerMap ensures k !in named {
        assert k in keys;
      }
      assert named == {};
    }

    method Remove(finger: string, caller: string, status: int) returns (reply: Reply)
      modifies this, androidFP
      ensures Spec.Outcome(View(), reply) == Spec.Remove(old(View()), finger, caller, status)
    {
      if dbusCaller != "" && dbusCaller != caller {
        return AlreadyBusy;
      }
      if state != Idle {
        return AlreadyBusy;
      }
      var key := FindKey(finger);
      if key == 0 {
        return KeyDoesNotExist;
      }
      SetState(Removing);
      var failure := androidFP.Remove(key, status);
      if failure.Some? {
        SlotFailed(failure.value);
      }
      dbusCaller := caller;
      return Started;
    }

    method GetAll() returns (names: seq<string>)
      ensures NamesOf(fingerMap, OrderedKeys(fingerMap.Keys), names)
      ensures multiset(names) == multiset(OrderedValues(fingerMap))
      ensures forall n :: n in names <==> n in fingerMap.Values
    {
      names := OrderedValues(fingerMap);
      ValuesInKeyOrder(fingerMap);
      ValuesAreValues(fingerMap);
    }

    // ---- Slots ----

    method SlotEnrollProgress(pc: Option<real>)
      modifies this, androidFP
      ensures View() == Spec.SlotEnrollProgress(old(View()), pc)
    {
      Emit(EnrollProgressChanged(PercentOf(androidFP.rounding, pc)));
      if state == Verifying {
        Emit(Verified);
        AbortOperation();
      }
    }

    method SlotSucceeded(finger: U32, writable: bool)
      modifies this
      ensures View() == Spec.SlotSucceeded(old(View()), finger, writable)
    {
      fingerMap := fingerMap[finger := addingFinger];
      Emit(Added(addingFinger));
      addingFinger := "";
      SaveFingers(writable);
      Emit(ListChanged);
      SetState(Idle);
    }

    method SlotFailed(message: Message)
      modifies this
      ensures View() == Spec.SlotFailed(old(View()), message)
    {
      Emit(ErrorInfo(message));
      if state == Identifying && message == FingerNotRecognized {
        return;
      }
      if state != Idle {
        Emit(Failed);
        SetState(Idle);
      }
    }

    method SlotAcquired(info: int)
      modifies this
      ensures View() == Spec.SlotAcquired(old(View()), info)
    {
      var newState;
      match info {
        case 0 => newState := Good;
        case 1 => newState := Partial;
        case 2 => newState := Insufficient;
        case 3 => newState := ImagerDirty;
        case 4 => newState := TooSlow;
        case 5 => newState := TooFast;
        case 6 => newState := Unrecognized;
        case _ => newState := Good;
      }
      if newState != acquired {
        acquired := newState;
        Emit(AcquisitionInfo(acquired));
      }
    }

    /** Removing an absent id announces the empty name, as a default-inserting lookup does. */
    method SlotRemoved(finger: U32, writable: bool)
      modifies this
      ensures View() == Spec.SlotRemoved(old(View()), finger, writable)
    {
      if finger != 0 {
        if finger !in fingerMap {
          fingerMap := fingerMap[finger := ""];
        }
        Emit(Removed(fingerMap[finger]));
        fingerMap := fingerMap - {finger};
        assert fingerMap == old(fingerMap) - {finger};
      } else {
        var values := OrderedValues(fingerMap);
        for i := 0 to |values|
          invariant View() == old(View()).(trace := old(trace) + Spec.Farewells(values[..i]))
        {
          Emit(Removed(values[i]));
          assert Spec.Farewells(values[..i + 1]) == Spec.Farewells(values[..i]) + [Removed(values[i])];
        }
        assert values[..|values|] == values;
        fingerMap := map[];
      }
      SaveFingers(writable);
      Emit(ListChanged);
      SetState(Idle);
    }

    method SlotAuthenticated(finger: U32)
      modifies this
      ensures View() == Spec.SlotAuthenticated(old(View()), finger)
    {
      cancelTimer := None;
      if finger in fingerMap {
        Emit(Identified(fingerMap[finger]));
      } else {
        Emit(Identified(UnknownName(finger)));
      }
      SetState(Idle);
    }

    method SlotCancelIdentify()
      modifies this, androidFP
      ensures View() == Spec.SlotCancelIdentify(old(View()))
    {
      cancelTimer := None;
      androidFP.Cancel();
      Emit(Failed);
      SetState(Idle);
    }

    method SlotEnumerated(readable: bool, writable: bool)
      modifies this
      ensures View() == Spec.SlotEnumerated(old(View()), readable, writable)
    {
      LoadFingers(readable, writable);
      Emit(ListChanged);
      SetState(Idle);
    }
  }
}
