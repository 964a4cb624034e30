/** The enumerations, D-Bus signals, adapter notices and HAL messages that the other modules share.
    Constructor names follow src/fpdcommunity.h, src/androidfp.h and src/biometry.h. */
module Vocabulary {

  /** The width of finger ids and of the HAL's "remaining" counters. */
  type U32 = x: int | 0 <= x < 0x1_0000_0000

  datatype Option<+T> = None | Some(value: T)

  /** The status with which the HAL accepts a request. */
  const SYS_OK := 0

  /** How long an identification session may last, in milliseconds. */
  const CANCEL_INTERVAL: nat := 30000

  datatype State =
    | UnknownState | Unset | Idle | Enrolling | Identifying | Enumerating
    | Removing | Verifying | Aborting | Terminating

  datatype AcquiredState =
    | UnknownAcquired | Good | Partial | Insufficient | ImagerDirty
    | TooSlow | TooFast | UnsetAcquired | Unspecified | Unrecognized

  datatype Reply =
    | Started | AlreadyIdle | AlreadyBusy | KeyAlreadyExists | KeyDoesNotExist | NoKeysAvailable

  /** The text of a failure, by origin: the program only ever tests for the first one. */
  datatype Message =
    | FingerNotRecognized
    | RequestRefused(status: int)
    | GroupRefused(status: int)
    | HardwareError(error: int, vendorCode: int)

  /** What the daemon emits on the bus.  A percentage is None where the C++ conversion of the
      progress to int has no defined value. */
  datatype Signal =
    | Added(name: string)
    | Removed(name: string)
    | Identified(name: string)
    | Aborted
    | Failed
    | Verified
    | StateChanged(state: State)
    | EnrollProgressChanged(percent: Option<int>)
    | AcquisitionInfo(info: AcquiredState)
    | ErrorInfo(message: Message)
    | ListChanged

  /** What the adapter tells the daemon, one event-queue entry each.  A progress is None where the
      C++ division is by zero. */
  datatype Notice =
    | EnrollProgress(progress: Option<real>)
    | Succeeded(id: U32)
    | FailedWith(message: Message)
    | RemovedId(id: U32)
    | AcquiredCode(code: int)
    | Authenticated(id: U32)
    | Enumerated

  /** What the adapter asks of the HAL.  A clear is AskRemove(0). */
  datatype HalRequest =
    | AskSetGroup
    | AskEnroll
    | AskPostEnroll
    | AskRemove(id: U32)
    | AskAuthenticate
    | AskEnumerate
    | AskCancel

  /** What the HAL calls back with.  An enrolment result carries the status that the postEnroll
      request would return. */
  datatype Callback =
    | EnrollResult(id: U32, remaining: U32, postEnroll: int)
    | AcquiredResult(code: int)
    | AuthResult(id: U32)
    | ErrorResult(error: int, vendorCode: int)
    | RemoveResult(id: U32, remaining: U32)
    | EnumerateResult(id: U32, remaining: U32)
}
