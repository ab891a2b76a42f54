# openvino-rs in Dafny

This project models the logic of the openvino-rs workspace that does more than call into the native OpenVINO C API, and proves properties of it.

- **Library locator** (`openvino-finder`):
  - `find` builds the platform file name and probes a fixed, prioritised list of candidate paths, returning the first that is a file;
  - `find_plugins_xml` layers the search for `plugins.xml` on top of it;
  - the helpers `get_suffixes` and `build_latest_version`.

  The process environment is a map. The filesystem is a set of files, a set of directories and a listing per readable directory. Paths are strings, and each target OS's constants are members of `Finder.Os`.
- **Runtime binder** (`openvino-sys`, the expansion of `link!`):
  - the `SharedLibrary` with its function table;
  - the process-wide `LIBRARY` slot;
  - `load`, `load_from`, `SharedLibrary::load`, the per-symbol `load::$name`;
  - the proxy functions.

  The finder's answer, the OS loader and symbol lookup are parameters. The lock around the slot is a plain field of `Runtime.Binder`.
- **Tensor converter**:
  - the NHWC to NCHW byte transposition, as an imperative method over an array;
  - the `HxWxCxprec` dimension parser;
  - both byte-size computations;
  - the format dispatch at the end of `convert`.
- **`TensorDesc`**: packing the dimensions into the fixed eight-slot `dimensions_t` (a class over an `array`), the accessors, and `len`.
- **Lookup tables**: `DeviceType`, the property keys, and the C status codes with the error types and their messages.
- **`bump`**: the version-bump keyword parser, and the line-by-line `Cargo.toml` rewriter `update_version`. Its outer and inner loops are imperative methods.

Panics are values: `Wrappers.Outcome.Panic(message)` carries the message of the `panic!`, `assert!` or `expect` that fires. Arithmetic follows a release build: `i32` and `usize` products wrap.

Where single-operation contracts are not enough, each imperative method is proved against a specification function. That function's properties are proved as lemmas:
- the search order of `find`;
- the permutation law of the transposition;
- one output line per input line in `update_version`.

The generic modules `Strings` (prefixes, `contains`, `replace`, `split`, `lines`, `trim`, ASCII lower case, Rust's string order) and `Decimal` (`i32::from_str`, formatting of integers, division facts) model the parts of the Rust standard library the core relies on.

In the runtime binder a missing symbol does not fail the load: `load::$name` stores `None` in that symbol's slot (crates/openvino-sys/src/linking/runtime.rs:59-65), `load_from` still succeeds (runtime.rs:97-98), and the proxy panics only when the function is called.

## Model

| member | source | states |
|---|---|---|
| Finder.FileName | crates/openvino-finder/src/lib.rs:31-36 | the searched name opens with the platform's DLL prefix, ends with its DLL suffix, and holds exactly the library name between them |
| Finder.FileNameInjective | crates/openvino-finder/src/lib.rs:31-36 | distinct library names are searched under distinct file names |
| Finder.Os.SplitPaths | crates/openvino-finder/src/lib.rs:72 | splitting the library path variable always yields at least one entry (an empty value is one empty entry) |
| Finder.ParentOfJoin | crates/openvino-finder/src/lib.rs:196 | the parent of a plain file name joined onto any non-empty directory that does not end in a separator is that directory |
| Finder.JoinExtends | crates/openvino-finder/src/lib.rs:197 | joining a relative name onto a directory yields a path that starts with the directory |
| Finder.GetSuffixes | crates/openvino-finder/src/lib.rs:220-225 | every suffix comes from a listed name with the prefix; every listed name with the prefix contributes its remainder; no more results than names |
| Finder.GetSuffixesAppend | crates/openvino-finder/src/lib.rs:220-225 | filtering keeps input order: the suffixes of a concatenated listing are the suffixes of each part, concatenated |
| Finder.Greatest | crates/openvino-finder/src/lib.rs:232-236 | the head of the sorted and reversed list is a member that is greatest under Rust's string order |
| Finder.BuildLatestVersion | crates/openvino-finder/src/lib.rs:228-239 | `None` exactly for no versions; otherwise `dir` joined with the prefix and a version that is at least every other version |
| Finder.LatestPluginsDirExample | crates/openvino-finder/src/lib.rs:273-283 | `2023.1.0` is chosen from `2022.3.0`, `2023.1.0`, `2022.1.0` |
| Finder.LatestLibraryExample | crates/openvino-finder/src/lib.rs:256-268 | `2022.3.0` is chosen over `2022.1.0` |
| Finder.FirstFile | crates/openvino-finder/src/lib.rs:15-23 | the first hit is a file and a candidate; there is no hit exactly when no candidate is a file |
| Finder.FoundIsFile | crates/openvino-finder/src/lib.rs:15-23 | any path `find` returns is a file and one of the candidates of the search plan |
| Finder.NotFoundExactly | crates/openvino-finder/src/lib.rs:30-110 | `find` returns `None` exactly when the whole plan is probed and no candidate is a file |
| Finder.FindOrder | crates/openvino-finder/src/lib.rs:41-107 | build dir, install dir, Intel install dir, library path, system dirs, default dirs: each is consulted only when every earlier one has no hit |
| Finder.SystemSkipsNonDirectories | crates/openvino-finder/src/lib.rs:80-84 | system entries that are not directories add no candidate and cannot stop the search |
| Finder.DefaultsSkipNonDirectories | crates/openvino-finder/src/lib.rs:98-102 | default roots that are not directories add no candidate |
| Finder.NothingToSearch | crates/openvino-finder/src/lib.rs:41-109 | with every variable unset and no system or default directory present, the plan is empty and `find` returns `None` |
| Finder.InstallDirWins | crates/openvino-finder/src/lib.rs:51-57 | without a build dir, a hit under `OPENVINO_INSTALL_DIR` is returned whatever the later sources hold |
| Finder.ProbeDirectory | crates/openvino-finder/src/lib.rs:43-46 | the subdirectory loop returns the first `dir/sub/file` that is a file, in table order |
| Finder.ProbeLibraryPath | crates/openvino-finder/src/lib.rs:71-76 | the library-path loop returns the first `entry/file` that is a file, in entry order; nothing when the variable is unset |
| Finder.ProbeSystemDirectory | crates/openvino-finder/src/lib.rs:85-94 | the exact name first, then the latest versioned name; a directory whose listing fails panics |
| Finder.ProbeSystem | crates/openvino-finder/src/lib.rs:80-95 | the system loop yields the first hit of the system part of the plan, or its panic |
| Finder.ProbeDefaults | crates/openvino-finder/src/lib.rs:98-107 | the default-roots loop yields the first hit among the installation subdirectories of the roots that are directories |
| Finder.Find | crates/openvino-finder/src/lib.rs:30-110 | `find` returns the first candidate of the plan that is a file (a file, when some), panics at an unlistable system directory, else `None` |
| Finder.FindPluginsXml | crates/openvino-finder/src/lib.rs:185-207 | the override path unchecked; else `plugins.xml` beside `openvino_c`, else in the latest `openvino-<version>` directory beside it; `None` when a step fails |
| Finder.PluginsXmlBesideLibrary | crates/openvino-finder/src/lib.rs:193-204 | without the override, a found `plugins.xml` is a file under the directory holding the `openvino_c` library |
| Runtime.OpenError | crates/openvino-sys/src/linking/runtime.rs:88-94 | the open-failure message names the path right after its fixed prefix |
| Runtime.SharedLibrary.constructor | crates/openvino-sys/src/linking/runtime.rs:25-31 | a fresh library keeps its image and path, and every function slot is empty |
| Runtime.SharedLibrary.LoadSymbol | crates/openvino-sys/src/linking/runtime.rs:59-65 | the slot of the symbol becomes the lookup's result, `None` when it is missing; no other slot changes |
| Runtime.SharedLibrary.Load | crates/openvino-sys/src/linking/runtime.rs:86-100 | a failed open yields the message naming the path; otherwise a fresh library whose slots are the lookups of every manifest symbol |
| Runtime.ProxyUnloaded | crates/openvino-sys/src/linking/runtime.rs:108-116 | with no library loaded (`with_library` finds the slot empty) every proxy panics with the not-loaded message |
| Runtime.ProxyAfterLoad | crates/openvino-sys/src/linking/runtime.rs:108-116 | after a load, a proxy panics with `function not loaded` exactly when its lookup failed, else forwards the same arguments to the resolved address |
| Runtime.Binder.constructor | crates/openvino-sys/src/linking/runtime.rs:35 | the slot starts out empty |
| Runtime.Binder.Load | crates/openvino-sys/src/linking/runtime.rs:74-79 | no path: the not-found error and the slot unchanged; otherwise as `load_from` |
| Runtime.Binder.LoadFrom | crates/openvino-sys/src/linking/runtime.rs:80-84 | a failed open leaves the slot unchanged; a successful one replaces it with the new library and its path, missing symbols included |
| Runtime.Binder.Call | crates/openvino-sys/src/linking/runtime.rs:108-116 | a call is the proxy against the current slot: a panic when nothing is loaded; with a library loaded, a manifest symbol has a slot, panics exactly when that slot is empty and is otherwise forwarded to its address |
| TensorConverter.WrapI32 | crates/openvino-tensor-converter/src/lib.rs:163 | the wrapped product is an `i32` congruent to the exact product modulo 2^32 |
| TensorConverter.FromParseIntError | crates/openvino-tensor-converter/src/lib.rs:130-134 | a parse failure's message starts with `parsing error: ` |
| TensorConverter.BytesOfBitWidth | crates/openvino-tensor-converter/src/lib.rs:211-218 | a precision occupies a byte count that is an eighth of the bit width its name ends with (`u8`, `fp32`) |
| TensorConverter.OnePixelBytes | crates/openvino-tensor-converter/src/lib.rs:162-167 | a single one-channel pixel occupies exactly its precision's byte count, in both byte-size computations |
| TensorConverter.ParsePrecision | crates/openvino-tensor-converter/src/lib.rs:223-229 | accepted exactly when the ASCII lower case is `u8` or `fp32`, naming that precision; otherwise the error quotes the input |
| TensorConverter.ParsePrecisionCaseInsensitive | crates/openvino-tensor-converter/src/lib.rs:224 | strings with the same ASCII lower case parse alike |
| TensorConverter.ParsePrecisionName | crates/openvino-tensor-converter/src/lib.rs:225-226 | each precision's name parses back to it |
| TensorConverter.ParseField | crates/openvino-tensor-converter/src/lib.rs:189-191 | each dimension field parses exactly when `i32::from_str` accepts it, to the same value |
| TensorConverter.ParseDimensions | crates/openvino-tensor-converter/src/lib.rs:184-199 | not four `x`-separated parts of the trimmed input is the parts error; four parts that all parse give `Ok` of the parsed fields; otherwise the error of the first failing field, in the order height, width, channels, precision |
| TensorConverter.PartsErrorExactly | crates/openvino-tensor-converter/src/lib.rs:185-188 | the parts error occurs exactly when the trimmed input does not hold three `x` |
| TensorConverter.NoPartsErrorOtherwise | crates/openvino-tensor-converter/src/lib.rs:189-192 | a field or precision failure never reports the parts error |
| TensorConverter.ParseFormatDimensions | crates/openvino-tensor-converter/src/lib.rs:184-199 | every dimension written as `HxWxCxprec` parses back to itself |
| TensorConverter.ParseDimensionsExample | crates/openvino-tensor-converter/src/lib.rs:236-241 | the literal `100x20x3xfp32` parses to (100, 20, 3, FP32) |
| TensorConverter.BytesAsWritten | crates/openvino-tensor-converter/src/lib.rs:162-167 | as written: the wrapped `i32` product panics when negative, otherwise times the precision's bytes |
| TensorConverter.BytesAsWrittenWraps | crates/openvino-tensor-converter/src/lib.rs:163 | 65536x65536x1 U8 gives 0 bytes |
| TensorConverter.Bytes | crates/openvino-tensor-converter/src/lib.rs:156-167 | corrected: the exact byte count, and a panic exactly when it is negative or does not fit a `usize` |
| TensorConverter.BytesExact | crates/openvino-tensor-converter/src/lib.rs:160-166 | 65536x65536x1 U8 gives 2^32 bytes |
| TensorConverter.BytesAgreeWithoutOverflow | crates/openvino-tensor-converter/src/lib.rs:162-167 | where the item count fits an `i32` the two agree |
| TensorConverter.SourceIndices | crates/openvino-tensor-converter/src/lib.rs:32-35 | the source's NHWC and NCHW index expressions are the model's source and destination indices |
| TensorConverter.SrcInjective | crates/openvino-tensor-converter/src/lib.rs:32-33 | distinct in-range (h, w, c, b) have distinct NHWC indices |
| TensorConverter.SrcOfUnique | crates/openvino-tensor-converter/src/lib.rs:34-35 | each output index is the NCHW index of exactly one (h, w, c, b) |
| TensorConverter.Transposed | crates/openvino-tensor-converter/src/lib.rs:19 | the output is as long as the input |
| TensorConverter.TransposedMoves | crates/openvino-tensor-converter/src/lib.rs:29-41 | byte `b` of pixel (h, w, c) moves from its NHWC index to its NCHW index |
| TensorConverter.TransposedPermutes | crates/openvino-tensor-converter/src/lib.rs:18-43 | the output is a permutation of the input |
| TensorConverter.CopyPixel | crates/openvino-tensor-converter/src/lib.rs:36-38 | the byte loop copies the pixel's bytes, extending what is filled |
| TensorConverter.NhwcToNchw | crates/openvino-tensor-converter/src/lib.rs:18-43 | the length assertion (wrapping `usize` product), the out-of-bounds panic of a length that only matches after wrap-around, else the transposed bytes |
| TensorConverter.ConvertLayout | crates/openvino-tensor-converter/src/lib.rs:110-114 | `nchw` transposes, `nhwc` returns the data, any other format is the format error; results keep the length |
| Decimal.ParseI32 | crates/openvino-tensor-converter/src/lib.rs:189 | `i32::from_str`: an empty string is the empty error, and values are in the `i32` range |
| Decimal.FormatParseRoundTrip | crates/openvino-tensor-converter/src/lib.rs:189-191 | every `i32` written in decimal parses back to itself |
| Decimal.FormatIntInjective | crates/openvino/src/error.rs:81 | distinct `i32` codes format differently |
| TensorDescriptor.EightDimensionsRejected | crates/openvino/src/tensor_desc.rs:15-18 | the written check and the documented one differ only at eight dimensions, which the written check rejects |
| TensorDescriptor.TensorDesc.Pack | crates/openvino/src/tensor_desc.rs:19-31 | the eight slots hold the dimensions and then zeros, with the rank, layout and precision as given |
| TensorDescriptor.TensorDesc.Dims | crates/openvino/src/tensor_desc.rs:43-45 | the slice has rank many entries |
| TensorDescriptor.TensorDesc.Len | crates/openvino/src/tensor_desc.rs:53-55 | the wrapping fold is the exact product of the dimensions modulo 2^64 |
| TensorDescriptor.FoldIsProduct | crates/openvino/src/tensor_desc.rs:54 | a wrapping left fold is the exact product reduced modulo 2^64 |
| TensorDescriptor.NewAsWritten | crates/openvino/src/tensor_desc.rs:16-33 | as written: panics exactly at eight or more dimensions; otherwise a fresh packed description whose dims, rank, layout and precision are the inputs |
| TensorDescriptor.New | crates/openvino/src/tensor_desc.rs:16-33 | corrected: panics exactly above eight dimensions; otherwise as above |
| TensorDescriptor.LenEmpty | crates/openvino/src/tensor_desc.rs:54 | no dimensions describe one element |
| TensorDescriptor.LenExact | crates/openvino/src/tensor_desc.rs:53-55 | where the product fits a `usize`, `len` is the exact element count |
| TensorDescriptor.LenExample | crates/openvino/src/blob.rs:203 | `[1, 2, 2, 2]` describes 8 elements |
| TensorDescriptor.ProductZero | crates/openvino/src/tensor_desc.rs:53-55 | any zero dimension gives no elements |
| Devices.ToOwned | crates/openvino/src/device_type.rs:25-34 | the variant and the name's content are kept |
| Devices.Name | crates/openvino/src/device_type.rs:37-47 | an arbitrary device gives its own name, a named device one of the four names |
| Devices.FromName | crates/openvino/src/device_type.rs:57-67 | the four names select their device; any other string is an arbitrary device carrying it |
| Devices.NameOfFromName | crates/openvino/src/device_type.rs:37-67 | every string survives the trip to a device and back |
| Devices.FromNameOfName | crates/openvino/src/device_type.rs:37-67 | a device survives the trip through its name exactly unless it is an arbitrary device spelled like a named one |
| Devices.OtherCpuBecomesCpu | crates/openvino/src/device_type.rs:40-60 | `Other("CPU")` comes back as `CPU` |
| Devices.FromStr | crates/openvino/src/device_type.rs:70-75 | never fails and yields the device of the string |
| Devices.ToCString | crates/openvino/src/device_type.rs:50-55 | the name, and the `a valid C string` panic exactly when it contains NUL |
| Devices.NamedDevicesConvert | crates/openvino/src/device_type.rs:50-55 | the four named devices always convert |
| Errors.Convert | crates/openvino/src/error.rs:35-56 | `Ok` exactly for `OK`; every other status fails with its namesake, never `Undefined` |
| Errors.ConvertInjective | crates/openvino/src/error.rs:35-56 | distinct statuses convert to distinct results |
| Errors.ConvertOfStatusOf | crates/openvino/src/error.rs:38-54 | every error but `Undefined` is the conversion of its status |
| Errors.Message | crates/openvino/src/error.rs:61-83 | `Undefined(code)` shows `undefined error code: ` and the code; no other message starts that way |
| Errors.MessageInjective | crates/openvino/src/error.rs:61-83 | distinct errors display distinct messages |
| Errors.LoadingMessage | crates/openvino/src/error.rs:98-106 | a system failure's message ends with the system's reason |
| Errors.FromInferenceInjective | crates/openvino/src/error.rs:130-134 | wrapping keeps inference errors apart: equal wrappings exactly for equal errors |
| Errors.FromLoadingInjective | crates/openvino/src/error.rs:136-140 | wrapping keeps loading errors apart: equal wrappings exactly for equal errors |
| Errors.FromKindsDisjoint | crates/openvino/src/error.rs:130-140 | no inference error wraps to the same setup error as a loading error |
| Errors.SetupMessage | crates/openvino/src/error.rs:121-127 | the message starts with the inference prefix exactly for inference errors and with the loading prefix exactly for loading errors, and the rest is the inner error's message |
| Errors.SetupMessageDistinguishes | crates/openvino/src/error.rs:121-127 | the message tells the two kinds apart, and inference errors apart |
| Errors.ConvertedSetupMessage | crates/openvino/src/error.rs:124 | a failed status wrapped for setup displays the inference prefix and its namesake's message |
| Properties.Name | crates/openvino/src/property.rs:90-106 | a read-write key shows its own name, an arbitrary key its string |
| Properties.RwName | crates/openvino/src/property.rs:130 | an arbitrary read-write key shows its string |
| Properties.KeyOfRwName | crates/openvino/src/property.rs:109-133 | every fixed read-write name leads back to its key |
| Properties.KeyOfNameOfName | crates/openvino/src/property.rs:90-106 | every fixed name of either table leads back to its key |
| Properties.NameInjective | crates/openvino/src/property.rs:93-129 | the fixed names of both tables are pairwise distinct |
| Properties.OtherPassesThrough | crates/openvino/src/property.rs:104 | arbitrary keys of both kinds show exactly their string |
| Properties.FromRwInjective | crates/openvino/src/property.rs:135-139 | distinct read-write keys convert to distinct keys |
| Properties.KeyOfNameOfFromRw | crates/openvino/src/property.rs:135-139 | a converted fixed read-write key is found again under its name |
| Bump.ParseBump | crates/xtask/src/bump.rs:74-84 | never fails; `major`, `minor` and `patch` exactly select their variant, anything else is a custom version |
| Bump.DependencyNone | crates/xtask/src/bump.rs:167-187 | the inner loop yields nothing exactly when it passes every crate by |
| Bump.DependencyRewrites | crates/xtask/src/bump.rs:180-186 | a rewrite comes from the first crate the line lists, with that crate's version replaced |
| Bump.DependencyPanics | crates/xtask/src/bump.rs:171-179 | a panic comes from the first crate named without its version on a line with `version =` |
| Bump.Step | crates/xtask/src/bump.rs:160-164 | the section flag becomes whether a `[` line contains `dependencies`, and is kept on other lines |
| Bump.StepTopLevel | crates/xtask/src/bump.rs:150-157 | a top-level `version =` line has the crate's version replaced |
| Bump.StepDependency | crates/xtask/src/bump.rs:166-187 | inside a dependencies section the line is what the inner loop makes of it, or copied |
| Bump.StepCopies | crates/xtask/src/bump.rs:189-192 | any other line is copied unchanged |
| Bump.StepOneLine | crates/xtask/src/bump.rs:146-194 | no output line gains a newline |
| Bump.RunOneLineEach | crates/xtask/src/bump.rs:146-195 | output so far is kept, and one `\n`-terminated line is emitted per input line |
| Bump.DryRunWritesNothing | crates/xtask/src/bump.rs:197-199 | a dry run writes nothing |
| Bump.WrittenLineCount | crates/xtask/src/bump.rs:144-199 | the written text has one `\n`-terminated line per line of the manifest |
| Bump.DependencyLoop | crates/xtask/src/bump.rs:167-187 | the inner loop computes the dependency rewrite of the line, nothing outside a dependencies section |
| Bump.RewriteLine | crates/xtask/src/bump.rs:147-192 | one iteration of the outer loop is one step of the rewriter |
| Bump.UpdateVersion | crates/xtask/src/bump.rs:137-202 | the rewrite of every line, written back unless `dry_run`, or the inner loop's panic |
| Strings.StripPrefix | crates/openvino-finder/src/lib.rs:223 | a remainder exactly for names with the prefix, which the prefix completes |
| Strings.SplitJoin | crates/openvino-tensor-converter/src/lib.rs:185 | the parts joined back give the input; one more part than separators, none holding one |
| Strings.UnlinesLines | crates/xtask/src/bump.rs:146 | a newline-terminated text without `\r` is its lines joined with `\n` |
| Strings.Trim | crates/openvino-tensor-converter/src/lib.rs:185 | the result is the input with a white-space prefix and a white-space suffix cut off, and neither starts nor ends with white space |
| Strings.ToAsciiLowercase | crates/openvino-tensor-converter/src/lib.rs:224 | same length, no `A`..`Z` left, each upper-case letter replaced by the lower-case letter of the same place, everything else kept, and the identity on strings without upper-case letters |
| Strings.ToAsciiLowercaseIdempotent | crates/openvino-tensor-converter/src/lib.rs:224 | lowering twice is lowering once |
| Strings.LexLeTotal | crates/openvino-finder/src/lib.rs:232 | Rust's string order is total |
| Strings.LexLeTransitive | crates/openvino-finder/src/lib.rs:232 | Rust's string order is transitive |

## Left out

- Logging (`log::debug!`, `log::info!`) and the `println!` progress lines of `bump`: output only.
- Real filesystem and process I/O: file and directory tests, listings, the environment, and reading and writing `Cargo.toml` are parameters.
- `Finder.Find`: OS conventions such as Windows prefixes and verbatim paths, and non-UTF-8 names, are not modelled. Paths are plain strings and `join` follows the separator rule of each OS.
- `Finder.Os`: targets other than Linux, macOS and Windows are treated as Unix-like (`lib`/`.so`, `LD_LIBRARY_PATH`, no default or system directories).
- `Finder.ProbeSystemDirectory`: the panic of `expect("cannot list installation directory")` is a value, and the search stops there.
- `Finder.Greatest`: `sort` followed by `reverse` is modelled as picking a greatest element, which is the head of the reversed sorted list.
- `Runtime.Binder`: the `LazyLock<RwLock<Option<Arc<_>>>>` slot and its threads are a single sequential field. Other holders of the old `Arc` are not modelled.
- `Runtime.Binder.Call`: invoking the native function is left out. A call returns the address and arguments it would forward.
- `Runtime.SharedLibrary.Load`: the OS loader's diagnostic is an opaque string. The path is shown as given, without `Path::display`'s lossy conversion.
- OpenCV steps of `convert` (decode, resize, `convert_to`, copying out of the `Mat`): foreign calls with floating-point arithmetic.
- `TensorConverter.NhwcToNchw`: the index-out-of-bounds panic of a length that matches only after `usize` wrap-around is summarised as one panic message. Debug-build overflow panics are not modelled, since arithmetic follows a release build.
- `TensorDescriptor.TensorDesc`: layout and precision come from generated bindings and are type parameters.
- `Errors.Status`: the numeric values of `ov_status_e` come from generated bindings and are not modelled, so conversion takes the named status.
- `Devices.FromStr`: the uninhabited `Infallible` error type is the unit type.
- `Devices.ToCString`: the `CString` is modelled as the name it holds.
- `Bump.UpdateVersion`: `Result<()>` is modelled as the text written (`None` for a dry run). I/O errors of the read and write are not modelled.
- `Bump.RewriteLine`: the outer loop's body is a method returning what it pushes before the `"\n"`. The source pushes straight onto the new contents.
- `Bump.ParseBump`: `anyhow::Error` is a string and is never produced.
- The rest of `BumpCommand::execute` (semver increments, crate discovery, `cargo fetch`): foreign crates and process calls.
- Panic messages that format runtime values (`{:?}` of a path, `assert_eq!`'s operands) keep only their fixed text or the values the model has. `Debug` escaping of paths is not reproduced.

## Findings

| source | as written | input that shows it | evidently intended | confidence | as-written member | corrected member |
|---|---|---|---|---|---|---|
| crates/openvino-tensor-converter/src/lib.rs:162-167 | the item count `height * width * channels` is multiplied in `i32` before the conversion to `usize`, so in a release build it wraps | 65536x65536x1 U8 yields 0 bytes instead of 4294967296 | the exact byte count, with a panic only when it cannot be a `usize` (the doc says it panics if the count overflows a `usize`) | not executed | TensorConverter.BytesAsWritten, TensorConverter.BytesAsWrittenWraps | TensorConverter.Bytes, TensorConverter.BytesExact |
| crates/openvino/src/tensor_desc.rs:15-18 | `assert!(dimensions.len() < 8)` rejects eight dimensions | eight dimensions panic although eight slots exist | up to eight dimensions, as documented, one per slot | not executed | TensorDescriptor.NewAsWritten, TensorDescriptor.EightDimensionsRejected | TensorDescriptor.New |
