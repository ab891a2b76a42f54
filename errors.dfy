/**
 * The error types of the `openvino` crate: the C API's status codes and their
 * conversion to `InferenceError`, the loading errors, the `SetupError` that wraps
 * either, and the messages all of them display.
 */
module Errors {
  import opened Wrappers
  import opened Strings
  import opened Decimal

  /** `ov_status_e`: the status returned by every call into the C API. */
  datatype Status =
    | OK | GENERAL_ERROR | NOT_IMPLEMENTED | NETWORK_NOT_LOADED | PARAMETER_MISMATCH
    | NOT_FOUND | OUT_OF_BOUNDS | UNEXPECTED | REQUEST_BUSY | RESULT_NOT_READY
    | NOT_ALLOCATED | INFER_NOT_STARTED | NETWORK_NOT_READ | INFER_CANCELLED
    | INVALID_C_PARAM | UNKNOWN_C_ERROR | NOT_IMPLEMENT_C_METHOD | UNKNOW_EXCEPTION

  /** A failed call into the C API; `Undefined` holds a code outside the known statuses. */
  datatype InferenceError =
    | GeneralError | NotImplemented | NetworkNotLoaded | ParameterMismatch | NotFound
    | OutOfBounds | Unexpected | RequestBusy | ResultNotReady | NotAllocated
    | InferNotStarted | NetworkNotRead | InferCancelled | InvalidCParam | UnknownCError
    | NotImplementCMethod | UnknownException | Undefined(code: i32)

  /** `InferenceError::convert`: `OK` succeeds, every other status fails with its namesake. */
  function Convert(status: Status): (r: Result<(), InferenceError>)
    ensures r.Ok? <==> status == OK
    ensures r.Err? ==> !r.error.Undefined? && StatusOf(r.error) == status
  {
    match status
    case OK => Ok(())
    case GENERAL_ERROR => Err(GeneralError)
    case NOT_IMPLEMENTED => Err(NotImplemented)
    case NETWORK_NOT_LOADED => Err(NetworkNotLoaded)
    case PARAMETER_MISMATCH => Err(ParameterMismatch)
    case NOT_FOUND => Err(NotFound)
    case OUT_OF_BOUNDS => Err(OutOfBounds)
    case UNEXPECTED => Err(Unexpected)
    case REQUEST_BUSY => Err(RequestBusy)
    case RESULT_NOT_READY => Err(ResultNotReady)
    case NOT_ALLOCATED => Err(NotAllocated)
    case INFER_NOT_STARTED => Err(InferNotStarted)
    case NETWORK_NOT_READ => Err(NetworkNotRead)
    case INFER_CANCELLED => Err(InferCancelled)
    case INVALID_C_PARAM => Err(InvalidCParam)
    case UNKNOWN_C_ERROR => Err(UnknownCError)
    case NOT_IMPLEMENT_C_METHOD => Err(NotImplementCMethod)
    case UNKNOW_EXCEPTION => Err(UnknownException)
  }

  /** The status an error was converted from: the inverse table of `Convert`, `OK` for `Undefined`. */
  function StatusOf(e: InferenceError): Status {
    match e
    case GeneralError => GENERAL_ERROR
    case NotImplemented => NOT_IMPLEMENTED
    case NetworkNotLoaded => NETWORK_NOT_LOADED
    case ParameterMismatch => PARAMETER_MISMATCH
    case NotFound => NOT_FOUND
    case OutOfBounds => OUT_OF_BOUNDS
    case Unexpected => UNEXPECTED
    case RequestBusy => REQUEST_BUSY
    case ResultNotReady => RESULT_NOT_READY
    case NotAllocated => NOT_ALLOCATED
    case InferNotStarted => INFER_NOT_STARTED
    case NetworkNotRead => NETWORK_NOT_READ
    case InferCancelled => INFER_CANCELLED
    case InvalidCParam => INVALID_C_PARAM
    case UnknownCError => UNKNOWN_C_ERROR
    case NotImplementCMethod => NOT_IMPLEMENT_C_METHOD
    case UnknownException => UNKNOW_EXCEPTION
    case Undefined(_) => OK
  }

  /** Distinct statuses convert to distinct results. */
  lemma ConvertInjective(s: Status, t: Status)
    requires Convert(s) == Convert(t)
    ensures s == t
  {
    if s != OK {
      assert StatusOf(Convert(s).error) == s;
    }
  }

  /** Every error other than `Undefined` is the conversion of its status. */
  lemma ConvertOfStatusOf(e: InferenceError)
    requires !e.Undefined?
    ensures Convert(StatusOf(e)) == Err(e)
  {
  }

  /** The `Display` of an `InferenceError`. */
  function Message(e: InferenceError): (r: string)
    ensures e.Undefined? ==> r == UNDEFINED_PREFIX + FormatInt(e.code as int)
    ensures !e.Undefined? ==> !StartsWith(r, UNDEFINED_PREFIX)
  {
    match e
    case GeneralError => "general error"
    case NotImplemented => "not implemented"
    case NetworkNotLoaded => "network not loaded"
    case ParameterMismatch => "parameter mismatch"
    case NotFound => "not found"
    case OutOfBounds => "out of bounds"
    case Unexpected => "unexpected"
    case RequestBusy => "request busy"
    case ResultNotReady => "result not ready"
    case NotAllocated => "not allocated"
    case InferNotStarted => "infer not started"
    case NetworkNotRead => "network not read"
    case InferCancelled => "infer cancelled"
    case InvalidCParam => "invalid C parameter"
    case UnknownCError => "unknown C error"
    case NotImplementCMethod =>
      var m := "not implemented C method";
      assert m[0] != UNDEFINED_PREFIX[0];
      m
    case UnknownException => "unknown exception"
    case Undefined(code) => UNDEFINED_PREFIX + FormatInt(code as int)
  }

  const UNDEFINED_PREFIX: string := "undefined error code: "

  /** Distinct errors display distinct messages; in particular every undefined code shows as itself. */
  lemma MessageInjective(e: InferenceError, f: InferenceError)
    requires Message(e) == Message(f)
    ensures e == f
  {
    if e.Undefined? && f.Undefined? {
      var p := |UNDEFINED_PREFIX|;
      assert FormatInt(e.code as int) == Message(e)[p..];
      assert FormatInt(f.code as int) == Message(f)[p..];
      FormatIntInjective(e.code as int, f.code as int);
    } else if e.Undefined? || f.Undefined? {
      var u := if e.Undefined? then e else f;
      assert StartsWith(Message(u), UNDEFINED_PREFIX);
    }
  }

  /** The ways loading the shared libraries fails. */
  datatype LoadingError = SystemFailure(reason: string) | CannotFindLibraryPath | CannotFindPluginPath | CannotStringifyPath

  const FINDER_HELP: string := "(see https://github.com/intel/openvino-rs/blob/main/crates/openvino-finder)"

  /** The `Display` of a `LoadingError`. */
  function LoadingMessage(e: LoadingError): (r: string)
    ensures e.SystemFailure? ==> |e.reason| <= |r| && r[|r| - |e.reason|..] == e.reason
  {
    match e
    case SystemFailure(msg) => "system failed to load shared libraries " + FINDER_HELP + ": " + msg
    case CannotFindLibraryPath => "cannot find path to shared libraries " + FINDER_HELP
    case CannotFindPluginPath => "cannot find path to XML plugin configuration " + FINDER_HELP
    case CannotStringifyPath =>
      "unable to convert path to a UTF-8 string " + "(see https://doc.rust-lang.org/std/path/struct.Path.html#method.to_str)"
  }

  /** A failure during setup: of a call into the C API or of loading the libraries. */
  datatype SetupError = Inference(inference: InferenceError) | Loading(loading: LoadingError)

  /** `From<InferenceError> for SetupError`. */
  function FromInference(e: InferenceError): (r: SetupError)
    ensures r.Inference? && r.inference == e
  {
    Inference(e)
  }

  /** `From<LoadingError> for SetupError`. */
  function FromLoading(e: LoadingError): (r: SetupError)
    ensures r.Loading? && r.loading == e
  {
    Loading(e)
  }

  const INFERENCE_PREFIX: string := "inference error: "
  const LOADING_PREFIX: string := "library loading error: "

  /** Wrapping keeps the inner error apart: distinct inference errors stay distinct. */
  lemma FromInferenceInjective(e: InferenceError, f: InferenceError)
    ensures FromInference(e) == FromInference(f) <==> e == f
  {
  }

  /** Distinct loading errors stay distinct. */
  lemma FromLoadingInjective(e: LoadingError, f: LoadingError)
    ensures FromLoading(e) == FromLoading(f) <==> e == f
  {
  }

  /** No inference error converts to the same setup error as a loading error. */
  lemma FromKindsDisjoint(e: InferenceError, f: LoadingError)
    ensures FromInference(e) != FromLoading(f)
  {
  }

  /**
   * The `Display` of a `SetupError`: a prefix naming the kind, which starts the message
   * exactly for that kind, then the inner message.
   */
  function SetupMessage(e: SetupError): (r: string)
    ensures StartsWith(r, INFERENCE_PREFIX) <==> e.Inference?
    ensures StartsWith(r, LOADING_PREFIX) <==> e.Loading?
    ensures e.Inference? ==> r[|INFERENCE_PREFIX|..] == Message(e.inference)
    ensures e.Loading? ==> r[|LOADING_PREFIX|..] == LoadingMessage(e.loading)
  {
    assert INFERENCE_PREFIX[0] != LOADING_PREFIX[0];
    match e
    case Inference(error) => INFERENCE_PREFIX + Message(error)
    case Loading(error) => LOADING_PREFIX + LoadingMessage(error)
  }

  /** The message tells the two kinds apart, and within the inference kind the error itself. */
  lemma SetupMessageDistinguishes(e: SetupError, f: SetupError)
    requires SetupMessage(e) == SetupMessage(f)
    ensures e.Inference? <==> f.Inference?
    ensures e.Inference? ==> e == f
  {
    assert INFERENCE_PREFIX[0] != LOADING_PREFIX[0];
    assert SetupMessage(e)[0] == SetupMessage(f)[0];
    if e.Inference? && f.Inference? {
      var p := |INFERENCE_PREFIX|;
      assert Message(e.inference) == SetupMessage(e)[p..];
      assert Message(f.inference) == SetupMessage(f)[p..];
      MessageInjective(e.inference, f.inference);
    }
  }

  /** Converting a failed status and wrapping it for setup displays its namesake message behind the prefix. */
  lemma ConvertedSetupMessage(s: Status)
    requires s != OK
    ensures SetupMessage(FromInference(Convert(s).error)) == INFERENCE_PREFIX + Message(Convert(s).error)
  {
  }
}
