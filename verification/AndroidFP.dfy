/** The adapter object, with the fields that src/androidfp.h declares and one method for each
    request and callback.  A request returns the failure it reports inside the call; a callback
    returns the notices it posts to the daemon's event queue. */
module AndroidFPModule {
  import opened Vocabulary
  import Spec = AdapterSpec

  class AndroidFP {
    const rounding: Spec.Rounding
    var enrollRemaining: real
    var removingFinger: U32
    var fingers: seq<U32>
    ghost var requests: seq<HalRequest>

    ghost function View(): Spec.Adapter
      reads this
    {
      Spec.Adapter(rounding, enrollRemaining, removingFinger, fingers, requests)
    }

    constructor (rounding: Spec.Rounding)
      ensures View() == Spec.NewAdapter(rounding)
    {
      this.rounding := rounding;
      enrollRemaining := 0.0;
      removingFinger := 0;
      fingers := [];
      requests := [];
    }

    method SetGroup(status: int) returns (failure: Option<Message>)
      modifies this
      ensures View() == Spec.SetGroup(old(View()))
      ensures failure == if status == SYS_OK then None else Some(GroupRefused(status))
    {
      requests := requests + [AskSetGroup];
      failure := if status != SYS_OK then Some(GroupRefused(status)) else None;
    }

    method Enroll(status: int) returns (failure: Option<Message>)
      modifies this
      ensures View() == Spec.Enroll(old(View()))
      ensures failure == Spec.Refusal(status)
    {
      requests := requests + [AskEnroll];
      enrollRemaining := 0.0;
      failure := None;
      if status != SYS_OK {
        failure := Some(RequestRefused(status));
      }
    }

    method Remove(finger: U32, status: int) returns (failure: Option<Message>)
      modifies this
      ensures View() == Spec.Remove(old(View()), finger)
      ensures failure == Spec.Refusal(status)
    {
      removingFinger := finger;
      requests := requests + [AskRemove(finger)];
      failure := None;
      if status != SYS_OK {
        failure := Some(RequestRefused(status));
      }
    }

    method Cancel()
      modifies this
      ensures View() == Spec.Cancel(old(View()))
    {
      requests := requests + [AskCancel];
    }

    method Authenticate(status: int) returns (failure: Option<Message>)
      modifies this
      ensures View() == Spec.Authenticate(old(View()))
      ensures failure == Spec.Refusal(status)
    {
      requests := requests + [AskAuthenticate];
      failure := None;
      if status != SYS_OK {
        failure := Some(RequestRefused(status));
      }
    }

    method Enumerate(status: int) returns (failure: Option<Message>)
      modifies this
      ensures View() == Spec.Enumerate(old(View()))
      ensures failure == Spec.Refusal(status)
    {
      fingers := [];
      requests := requests + [AskEnumerate];
      failure := None;
      if status != SYS_OK {
        failure := Some(RequestRefused(status));
      }
    }

    method Clear(status: int) returns (failure: Option<Message>)
      modifies this
      ensures View() == Spec.Clear(old(View()))
      ensures failure == Spec.Refusal(status)
    {
      removingFinger := 0;
      requests := requests + [AskRemove(0)];
      failure := None;
      if status != SYS_OK {
        failure := Some(RequestRefused(status));
      }
    }

    method EnumerateCallback(finger: U32, remaining: U32) returns (posted: seq<Notice>)
      modifies this
      ensures (View(), posted) == Spec.OnCallback(old(View()), EnumerateResult(finger, remaining))
    {
      posted := [];
      if finger != 0 {
        fingers := fingers + [finger];
      }
      if remaining == 0 {
        posted := [Enumerated];
      }
    }

    method EnrollCallback(finger: U32, remaining: U32, postEnroll: int) returns (posted: seq<Notice>)
      modifies this
      ensures (View(), posted)
           == Spec.OnCallback(old(View()), EnrollResult(finger, remaining, postEnroll))
    {
      if remaining > 0 {
        if enrollRemaining == 0.0 {
          enrollRemaining := rounding.single(((remaining + 1) % 0x1_0000_0000) as real);
        }
        posted := [EnrollProgress(Spec.Progress(rounding, enrollRemaining, remaining))];
      } else {
        requests := requests + [AskPostEnroll];
        var result := Succeeded(finger);
        if postEnroll != SYS_OK {
          result := FailedWith(RequestRefused(postEnroll));
        }
        posted := [EnrollProgress(Some(1.0)), result];
      }
    }

    method RemoveCallback(finger: U32, remaining: U32) returns (posted: seq<Notice>)
      modifies this
      ensures (View(), posted) == Spec.OnCallback(old(View()), RemoveResult(finger, remaining))
    {
      posted := [];
      if (finger == removingFinger || removingFinger == 0) && remaining == 0 {
        var reported := finger;
        if removingFinger == 0 {
          reported := 0;
        }
        posted := [RemovedId(reported)];
        removingFinger := 0;
      }
    }

    method AcquiredCallback(code: int) returns (posted: seq<Notice>)
      modifies this
      ensures (View(), posted) == Spec.OnCallback(old(View()), AcquiredResult(code))
    {
      posted := [AcquiredCode(code)];
    }

    method AuthenticatedCallback(finger: U32) returns (posted: seq<Notice>)
      modifies this
      ensures (View(), posted) == Spec.OnCallback(old(View()), AuthResult(finger))
    {
      if finger != 0 {
        posted := [Authenticated(finger)];
      } else {
        posted := [FailedWith(FingerNotRecognized)];
      }
    }

    method ErrorCallback(error: int, vendorCode: int) returns (posted: seq<Notice>)
      modifies this
      ensures (View(), posted) == Spec.OnCallback(old(View()), ErrorResult(error, vendorCode))
    {
      if error == 0 {
        return [];
      }
      posted := [FailedWith(HardwareError(error, vendorCode))];
    }
  }
}
