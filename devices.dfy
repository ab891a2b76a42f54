/**
 * `DeviceType` of the `openvino` crate: the accelerator a model is compiled for, and
 * its conversions to and from device names.
 */
module Devices {
  import opened Wrappers

  /** The four named devices and an arbitrary device given by name. */
  datatype DeviceType = CPU | GPU | NPU | GNA | Other(name: string)

  /** The names that denote a named device rather than an arbitrary one. */
  predicate IsDeviceName(s: string) {
    s == "CPU" || s == "GPU" || s == "NPU" || s == "GNA"
  }

  /** `to_owned`: the same device, with its name (if any) copied into owned storage. */
  function ToOwned(d: DeviceType): (r: DeviceType)
    ensures r == d
  {
    match d
    case CPU => CPU
    case GPU => GPU
    case NPU => NPU
    case GNA => GNA
    case Other(s) => Other(s[..])
  }

  /** `From<&DeviceType> for &str`: the device's name. */
  function Name(d: DeviceType): (r: string)
    ensures d.Other? ==> r == d.name
    ensures !d.Other? ==> IsDeviceName(r)
  {
    match d
    case CPU => "CPU"
    case GPU => "GPU"
    case NPU => "NPU"
    case GNA => "GNA"
    case Other(s) => s
  }

  /** `From<&str> for DeviceType`: the four names select their device, any other string is `Other`. */
  function FromName(s: string): (r: DeviceType)
    ensures r.Other? <==> !IsDeviceName(s)
    ensures r.Other? ==> r.name == s
  {
    match s
    case "CPU" => CPU
    case "GPU" => GPU
    case "NPU" => NPU
    case "GNA" => GNA
    case _ => Other(s)
  }

  /** Every string survives the trip to a device and back. */
  lemma NameOfFromName(s: string)
    ensures Name(FromName(s)) == s
  {
  }

  /** A device survives the trip to a name and back unless it is an arbitrary device spelled like a named one. */
  lemma FromNameOfName(d: DeviceType)
    ensures FromName(Name(d)) == d <==> !(d.Other? && IsDeviceName(d.name))
  {
  }

  /** The arbitrary device called "CPU" comes back as the CPU. */
  lemma OtherCpuBecomesCpu()
    ensures Name(Other("CPU")) == Name(CPU) && FromName(Name(Other("CPU"))) == CPU
  {
  }

  /** `FromStr`: never fails, and yields the owned form of `From<&str>`. The error type is uninhabited in the source. */
  function FromStr(s: string): (r: Result<DeviceType, ()>)
    ensures r == Ok(FromName(s))
  {
    Ok(ToOwned(FromName(s)))
  }

  const CSTRING_PANIC: string := "a valid C string"

  /** `From<DeviceType> for CString`: the name, which must not contain a NUL character. */
  function ToCString(d: DeviceType): (r: Outcome<string>)
    ensures r.Done? <==> '\0' !in Name(d)
    ensures r.Done? ==> r.value == Name(d)
    ensures r.Panic? ==> r.message == CSTRING_PANIC
  {
    var device := Name(d);
    if '\0' in device then Panic(CSTRING_PANIC) else Done(device)
  }

  /** The named devices always convert. */
  lemma NamedDevicesConvert(d: DeviceType)
    requires !d.Other?
    ensures ToCString(d) == Done(Name(d))
  {
  }
}
