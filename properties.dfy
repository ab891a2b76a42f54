/**
 * The property keys of the `openvino` crate and the names under which the C API
 * knows them.
 */
module Properties {
  import opened Wrappers

  /** The read-write property keys, and an arbitrary key given by name. */
  datatype RwPropertyKey =
    | CacheDir | CacheMode | NumStreams | InferenceNumThreads | HintEnableCpuPinning
    | HintEnableHyperThreading | HintPerformanceMode | HintSchedulingCoreType
    | HintInferencePrecision | HintNumRequests | LogLevel | HintModelPriority
    | EnableProfiling | DevicePriorities | HintExecutionMode | ForceTbbTerminate
    | EnableMmap | AutoBatchTimeout | Other(name: string)

  /** The read-only property keys, a read-write key, and an arbitrary key given by name. */
  datatype PropertyKey =
    | SupportedProperties | AvailableDevices | OptimalNumberOfInferRequests
    | RangeForAsyncInferRequests | RangeForStreams | DeviceFullName | DeviceCapabilities
    | ModelName | OptimalBatchSize | MaxBatchSize | Rw(key: RwPropertyKey) | Other(name: string)

  /** A key with a fixed name: neither an arbitrary key nor a read-write arbitrary key. */
  predicate IsFixed(k: PropertyKey) {
    !k.Other? && !(k.Rw? && k.key.Other?)
  }

  /** `AsRef<str> for RwPropertyKey`. */
  function RwName(k: RwPropertyKey): (r: string)
    ensures k.Other? ==> r == k.name
  {
    match k
    case CacheDir => "CACHE_DIR"
    case CacheMode => "CACHE_MODE"
    case NumStreams => "NUM_STREAMS"
    case InferenceNumThreads => "INFERENCE_NUM_THREADS"
    case HintEnableCpuPinning => "ENABLE_CPU_PINNING"
    case HintEnableHyperThreading => "ENABLE_HYPER_THREADING"
    case HintPerformanceMode => "PERFORMANCE_HINT"
    case HintSchedulingCoreType => "SCHEDULING_CORE_TYPE"
    case HintInferencePrecision => "INFERENCE_PRECISION_HINT"
    case HintNumRequests => "PERFORMANCE_HINT_NUM_REQUESTS"
    case LogLevel => "LOG_LEVEL"
    case HintModelPriority => "MODEL_PRIORITY"
    case EnableProfiling => "PERF_COUNT"
    case DevicePriorities => "MULTI_DEVICE_PRIORITIES"
    case HintExecutionMode => "EXECUTION_MODE_HINT"
    case ForceTbbTerminate => "FORCE_TBB_TERMINATE"
    case EnableMmap => "ENABLE_MMAP"
    case AutoBatchTimeout => "AUTO_BATCH_TIMEOUT"
    case Other(s) => s
  }

  /** `AsRef<str> for PropertyKey`: a read-write key is known by its own name. */
  function Name(k: PropertyKey): (r: string)
    ensures k.Rw? ==> r == RwName(k.key)
    ensures k.Other? ==> r == k.name
  {
    match k
    case SupportedProperties => "SUPPORTED_PROPERTIES"
    case AvailableDevices => "AVAILABLE_DEVICES"
    case OptimalNumberOfInferRequests => "OPTIMAL_NUMBER_OF_INFER_REQUESTS"
    case RangeForAsyncInferRequests => "RANGE_FOR_ASYNC_INFER_REQUESTS"
    case RangeForStreams => "RANGE_FOR_STREAMS"
    case DeviceFullName => "FULL_DEVICE_NAME"
    case DeviceCapabilities => "OPTIMIZATION_CAPABILITIES"
    case ModelName => "NETWORK_NAME"
    case OptimalBatchSize => "OPTIMAL_BATCH_SIZE"
    case MaxBatchSize => "MAX_BATCH_SIZE"
    case Rw(rw) => RwName(rw)
    case Other(s) => s
  }

  /** The key a fixed name belongs to, across both tables, looked up by its first letter; `None` for any other string. */
  function KeyOfName(s: string): Option<PropertyKey> {
    if s == [] then None
    else match s[0]
    case 'S' =>
      if s == "SUPPORTED_PROPERTIES" then Some(SupportedProperties)
      else if s == "SCHEDULING_CORE_TYPE" then Some(Rw(HintSchedulingCoreType))
      else None
    case 'A' =>
      if s == "AVAILABLE_DEVICES" then Some(AvailableDevices)
      else if s == "AUTO_BATCH_TIMEOUT" then Some(Rw(AutoBatchTimeout))
      else None
    case 'O' =>
      if s == "OPTIMAL_NUMBER_OF_INFER_REQUESTS" then Some(OptimalNumberOfInferRequests)
      else if s == "OPTIMIZATION_CAPABILITIES" then Some(DeviceCapabilities)
      else if s == "OPTIMAL_BATCH_SIZE" then Some(OptimalBatchSize)
      else None
    case 'R' =>
      if s == "RANGE_FOR_ASYNC_INFER_REQUESTS" then Some(RangeForAsyncInferRequests)
      else if s == "RANGE_FOR_STREAMS" then Some(RangeForStreams)
      else None
    case 'F' =>
      if s == "FULL_DEVICE_NAME" then Some(DeviceFullName)
      else if s == "FORCE_TBB_TERMINATE" then Some(Rw(ForceTbbTerminate))
      else None
    case 'N' =>
      if s == "NETWORK_NAME" then Some(ModelName)
      else if s == "NUM_STREAMS" then Some(Rw(NumStreams))
      else None
    case 'M' =>
      if s == "MAX_BATCH_SIZE" then Some(MaxBatchSize)
      else if s == "MODEL_PRIORITY" then Some(Rw(HintModelPriority))
      else if s == "MULTI_DEVICE_PRIORITIES" then Some(Rw(DevicePriorities))
      else None
    case 'C' =>
      if s == "CACHE_DIR" then Some(Rw(CacheDir))
      else if s == "CACHE_MODE" then Some(Rw(CacheMode))
      else None
    case 'I' =>
      if s == "INFERENCE_NUM_THREADS" then Some(Rw(InferenceNumThreads))
      else if s == "INFERENCE_PRECISION_HINT" then Some(Rw(HintInferencePrecision))
      else None
    case 'E' =>
      if s == "ENABLE_CPU_PINNING" then Some(Rw(HintEnableCpuPinning))
      else if s == "ENABLE_HYPER_THREADING" then Some(Rw(HintEnableHyperThreading))
      else if s == "EXECUTION_MODE_HINT" then Some(Rw(HintExecutionMode))
      else if s == "ENABLE_MMAP" then Some(Rw(EnableMmap))
      else None
    case 'P' =>
      if s == "PERFORMANCE_HINT" then Some(Rw(HintPerformanceMode))
      else if s == "PERFORMANCE_HINT_NUM_REQUESTS" then Some(Rw(HintNumRequests))
      else if s == "PERF_COUNT" then Some(Rw(EnableProfiling))
      else None
    case 'L' =>
      if s == "LOG_LEVEL" then Some(Rw(LogLevel))
      else None
    case _ => None
  }

  /** Every fixed read-write name leads back to its key. */
  lemma KeyOfRwName(k: RwPropertyKey)
    requires !k.Other?
    ensures KeyOfName(RwName(k)) == Some(Rw(k))
  {
  }

  /** Every fixed name leads back to its key. */
  lemma KeyOfNameOfName(k: PropertyKey)
    requires IsFixed(k)
    ensures KeyOfName(Name(k)) == Some(k)
  {
    if k.Rw? {
      KeyOfRwName(k.key);
    }
  }

  /** The fixed names of both tables are pairwise distinct. */
  lemma NameInjective(k: PropertyKey, l: PropertyKey)
    requires IsFixed(k) && IsFixed(l) && Name(k) == Name(l)
    ensures k == l
  {
    KeyOfNameOfName(k);
    KeyOfNameOfName(l);
  }

  /** The arbitrary keys of both types are known by exactly the name they carry. */
  lemma OtherPassesThrough(s: string)
    ensures Name(PropertyKey.Other(s)) == s && RwName(RwPropertyKey.Other(s)) == s
    ensures Name(Rw(RwPropertyKey.Other(s))) == s
  {
  }

  /** `From<RwPropertyKey> for PropertyKey`: the converted key is known by the same name. */
  function FromRw(k: RwPropertyKey): (r: PropertyKey)
    ensures Name(r) == RwName(k)
  {
    Rw(k)
  }

  /** Distinct read-write keys convert to distinct keys. */
  lemma FromRwInjective(k: RwPropertyKey, l: RwPropertyKey)
    ensures FromRw(k) == FromRw(l) <==> k == l
  {
  }

  /** A converted fixed key is found again under its name. */
  lemma KeyOfNameOfFromRw(k: RwPropertyKey)
    requires !k.Other?
    ensures KeyOfName(Name(FromRw(k))) == Some(FromRw(k))
  {
    KeyOfNameOfName(FromRw(k));
  }
}
