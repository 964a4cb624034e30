/** AndroidFP as functions on values: the three fields that decide what its callbacks report, the
    log of what it asked of the HAL, and the effect of every request and callback. */
module AdapterSpec {
  import opened Vocabulary

  predicate Near(y: real, x: real, u: real) {
    var size := if x > 1.0 then x else 1.0;
    x - u * size <= y <= x + u * size
  }

  /** The two roundings that the C++ progress arithmetic goes through: to float and to double. */
  datatype Rounding = Rounding(single: real -> real, double: real -> real) {
    /** What IEEE rounding to nearest satisfies and the progress bounds need. */
    ghost predicate Sound() {
      && (forall x: real, y: real :: x <= y ==> single(x) <= single(y))
      && (forall x: real, y: real :: x <= y ==> double(x) <= double(y))
      && single(0.0) == 0.0 && single(1.0) == 1.0 && single(100.0) == 100.0
      && double(0.0) == 0.0 && double(1.0) == 1.0
    }

    /** Both err by at most the fraction u of the number, or of 1 if that is larger: true of IEEE rounding
        with u == 2^-24. */
    ghost predicate Accurate(u: real) {
      && (forall x: real :: 0.0 <= x <= 4294967296.0 ==> Near(single(x), x, u))
      && (forall x: real :: 0.0 <= x <= 4294967296.0 ==> Near(double(x), x, u))
    }
  }

  datatype Adapter = Adapter(
    rounding: Rounding,
    enrollRemaining: real,
    removing: U32,
    fingers: seq<U32>,
    requests: seq<HalRequest>)

  function NewAdapter(rounding: Rounding): Adapter {
    Adapter(rounding, 0.0, 0, [], [])
  }

  // ---- Requests ----

  function Ask(a: Adapter, request: HalRequest): Adapter {
    a.(requests := a.requests + [request])
  }

  function SetGroup(a: Adapter): Adapter {
    Ask(a, AskSetGroup)
  }

  function Enroll(a: Adapter): Adapter {
    Ask(a, AskEnroll).(enrollRemaining := 0.0)
  }

  function Remove(a: Adapter, id: U32): Adapter {
    Ask(a.(removing := id), AskRemove(id))
  }

  function Clear(a: Adapter): Adapter {
    Remove(a, 0)
  }

  function Cancel(a: Adapter): Adapter {
    Ask(a, AskCancel)
  }

  function Authenticate(a: Adapter): Adapter {
    Ask(a, AskAuthenticate)
  }

  function Enumerate(a: Adapter): Adapter {
    Ask(a.(fingers := []), AskEnumerate)
  }

  /** The failure that a request reports when the HAL answers with this status. */
  function Refusal(status: int): Option<Message> {
    if status == SYS_OK then None else Some(RequestRefused(status))
  }

  // ---- Callbacks ----

  /** The progress baseline in force for a callback: kept once set, otherwise one more than the
      counter, in 32-bit arithmetic. */
  function Baseline(a: Adapter, remaining: U32): real {
    if a.enrollRemaining == 0.0
    then a.rounding.single(((remaining + 1) % 0x1_0000_0000) as real)
    else a.enrollRemaining
  }

  /** 1 - remaining / baseline: float division, double subtraction, float result. */
  function Progress(rounding: Rounding, baseline: real, remaining: U32): Option<real> {
    if baseline == 0.0 then None else
      var quotient := rounding.single(rounding.single(remaining as real) / baseline);
      Some(rounding.single(rounding.double(1.0 - quotient)))
  }

  function OnEnroll(a: Adapter, id: U32, remaining: U32, postEnroll: int): (Adapter, seq<Notice>) {
    if remaining > 0 then
      var baseline := Baseline(a, remaining);
      (a.(enrollRemaining := baseline), [EnrollProgress(Progress(a.rounding, baseline, remaining))])
    else
      (Ask(a, AskPostEnroll),
       [EnrollProgress(Some(1.0)),
        if postEnroll == SYS_OK then Succeeded(id) else FailedWith(RequestRefused(postEnroll))])
  }

  function OnRemove(a: Adapter, id: U32, remaining: U32): (Adapter, seq<Notice>) {
    if (id == a.removing || a.removing == 0) && remaining == 0 then
      (a.(removing := 0), [RemovedId(if a.removing == 0 then 0 else id)])
    else
      (a, [])
  }

  function OnEnumerate(a: Adapter, id: U32, remaining: U32): (Adapter, seq<Notice>) {
    (a.(fingers := if id != 0 then a.fingers + [id] else a.fingers),
     if remaining == 0 then [Enumerated] else [])
  }

  function OnCallback(a: Adapter, cb: Callback): (Adapter, seq<Notice>) {
    match cb
    case EnrollResult(id, remaining, postEnroll) => OnEnroll(a, id, remaining, postEnroll)
    case AcquiredResult(code) => (a, [AcquiredCode(code)])
    case AuthResult(id) =>
      (a, [if id != 0 then Authenticated(id) else FailedWith(FingerNotRecognized)])
    case ErrorResult(error, vendorCode) =>
      (a, if error == 0 then [] else [FailedWith(HardwareError(error, vendorCode))])
    case RemoveResult(id, remaining) => OnRemove(a, id, remaining)
    case EnumerateResult(id, remaining) => OnEnumerate(a, id, remaining)
  }

  /** Everything a list of callbacks reports, in order. */
  function Reported(a: Adapter, cbs: seq<Callback>): seq<Notice>
    decreases |cbs|
  {
    if cbs == [] then [] else
      var (a', out) := OnCallback(a, cbs[0]);
      out + Reported(a', cbs[1..])
  }
}
