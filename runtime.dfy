/**
 * The runtime binder of `openvino-sys` (the expansion of `link!`): a process-wide slot
 * that holds the loaded `openvino_c` library, a table with one optional function
 * pointer per exported symbol of the manifest, and a proxy per symbol that calls
 * through the table.
 *
 * The OS loader (`libloading::Library::new`) and symbol lookup (`Library::get`) are
 * oracles passed as function values; the `LazyLock<RwLock<Option<Arc<_>>>>` slot is a
 * plain field.
 */
module Runtime {
  import opened Wrappers
  import opened Strings

  /** An opened native library image, as the OS loader hands it out. */
  datatype Image = Image(handle: nat)

  /** The address of a resolved native function. */
  type Address = nat

  /** The call a proxy forwards: the resolved function with the caller's arguments. */
  datatype Invocation<A> = Invocation(target: Address, args: A)

  /** A read-only view of a loaded library: where it came from and its function table. */
  datatype LibraryView = LibraryView(path: string, image: Image, functions: map<string, Option<Address>>)

  const NOT_FOUND: string := "Unable to find the `openvino_c` library to load"
  const NOT_LOADED: string := "an `openvino_c` shared library is not loaded on this thread"
  const FUNCTION_NOT_LOADED: string := "`openvino_c` function not loaded: `"

  /** The error of `SharedLibrary::load` when the OS loader refuses the path. */
  function OpenError(path: string, diagnostic: string): (m: string)
    ensures OccursAt(m, path, 22) && StartsWith(m, "the shared library at ")
  {
    "the shared library at " + path + " could not be opened: " + diagnostic
  }

  /** The function table after every manifest symbol has been looked up in `image`. */
  function Resolved(image: Image, manifest: seq<string>, lookup: (Image, string) -> Option<Address>): map<string, Option<Address>> {
    map n | n in manifest :: lookup(image, n)
  }

  /** `SharedLibrary`: the opened image, its path and the function table `Functions`. */
  class SharedLibrary {
    const image: Image
    const path: string
    var functions: map<string, Option<Address>>

    /** `SharedLibrary::new`: every function slot starts out empty (`Functions::default`). */
    constructor (image: Image, path: string, manifest: seq<string>)
      ensures this.image == image && this.path == path
      ensures functions == map n | n in manifest :: None
    {
      this.image := image;
      this.path := path;
      functions := map n | n in manifest :: None;
    }

    function View(): LibraryView
      reads this
    {
      LibraryView(path, image, functions)
    }

    /** `load::$name`: the slot of `name` becomes the lookup's result, `None` when the symbol is missing. */
    method LoadSymbol(name: string, lookup: (Image, string) -> Option<Address>)
      modifies this
      ensures functions == old(functions)[name := lookup(image, name)]
    {
      functions := functions[name := lookup(image, name)];
    }

    /**
     * `SharedLibrary::load`: open the path, then resolve every manifest symbol in turn.
     * A symbol that cannot be resolved leaves its slot empty and does not fail the load.
     */
    static method Load(path: string, manifest: seq<string>, open: string -> Result<Image, string>,
                       lookup: (Image, string) -> Option<Address>) returns (r: Result<SharedLibrary, string>)
      ensures open(path).Err? ==> r == Err(OpenError(path, open(path).error))
      ensures open(path).Ok? ==> r.Ok? && fresh(r.value)
                                 && r.value.View() == LibraryView(path, open(path).value, Resolved(open(path).value, manifest, lookup))
    {
      var handle := open(path);
      if handle.Err? {
        return Err(OpenError(path, handle.error));
      }
      var library := new SharedLibrary(handle.value, path, manifest);
      for i := 0 to |manifest|
        invariant library.image == handle.value && library.path == path
        invariant library.functions == map n | n in manifest :: if n in manifest[..i] then lookup(handle.value, n) else None
      {
        library.LoadSymbol(manifest[i], lookup);
        assert manifest[..i + 1] == manifest[..i] + [manifest[i]];
      }
      assert manifest[..|manifest|] == manifest;
      return Ok(library);
    }
  }

  /** `with_library`: `None` when nothing is loaded, otherwise `f` applied to the library. */
  function WithLibrary<T>(slot: Option<LibraryView>, f: LibraryView -> T): Option<T> {
    match slot
    case None => None
    case Some(library) => Some(f(library))
  }

  /** The slot of `name` in a loaded library, or the panic of its `expect`. */
  function Entry(library: LibraryView, name: string): Outcome<Address> {
    if name in library.functions && library.functions[name].Some? then Done(library.functions[name].value)
    else Panic(FUNCTION_NOT_LOADED + name)
  }

  /** The proxy `$name(args)`: look the function up in the loaded library and forward the call. */
  function Proxy<A>(slot: Option<LibraryView>, name: string, args: A): Outcome<Invocation<A>> {
    var entry: Option<Outcome<Address>> := WithLibrary(slot, library => Entry(library, name));
    match entry
    case None => Panic(NOT_LOADED)
    case Some(Panic(m)) => Panic(m)
    case Some(Done(f)) => Done(Invocation(f, args))
  }

  /** With no library loaded, every proxy panics with the not-loaded message. */
  lemma ProxyUnloaded<A>(name: string, args: A)
    ensures Proxy(None, name, args) == Panic(NOT_LOADED)
  {
  }

  /**
   * After a load of `image`, the proxy of a manifest symbol panics exactly when its
   * lookup failed, and otherwise forwards the same arguments to the looked-up address.
   */
  lemma ProxyAfterLoad<A>(path: string, image: Image, manifest: seq<string>, lookup: (Image, string) -> Option<Address>,
                          name: string, args: A)
    requires name in manifest
    ensures var r := Proxy(Some(LibraryView(path, image, Resolved(image, manifest, lookup))), name, args);
            && (lookup(image, name).None? <==> r == Panic(FUNCTION_NOT_LOADED + name))
            && (lookup(image, name).Some? ==> r == Done(Invocation(lookup(image, name).value, args)))
  {
  }

  /** The binder's state: the `LIBRARY` slot and the manifest of symbols its proxies cover. */
  class Binder {
    const manifest: seq<string>
    var library: SharedLibrary?

    /** The slot starts out empty. */
    constructor (manifest: seq<string>)
      ensures this.manifest == manifest && library == null
    {
      this.manifest := manifest;
      library := null;
    }

    /** A loaded library has exactly one slot per manifest symbol. */
    predicate Valid()
      reads this, library
    {
      library != null ==> library.functions.Keys == set n | n in manifest
    }

    /** `LIBRARY.read()`: a snapshot of the slot. */
    function Slot(): Option<LibraryView>
      reads this, library
    {
      if library == null then None else Some(library.View())
    }

    /**
     * `load`: `find` is the oracle's answer. Without a path the slot is left alone;
     * otherwise it is `load_from`.
     */
    method Load(found: Option<string>, open: string -> Result<Image, string>,
                lookup: (Image, string) -> Option<Address>) returns (r: Result<(), string>)
      requires Valid()
      modifies this
      ensures Valid()
      ensures found.None? ==> r == Err(NOT_FOUND) && library == old(library)
      ensures found.Some? && open(found.value).Err? ==>
                r == Err(OpenError(found.value, open(found.value).error)) && library == old(library)
      ensures found.Some? && open(found.value).Ok? ==>
                r == Ok(()) && library != null && fresh(library)
                && Slot() == Some(LibraryView(found.value, open(found.value).value, Resolved(open(found.value).value, manifest, lookup)))
    {
      match found
      case None =>
        return Err(NOT_FOUND);
      case Some(path) =>
        r := LoadFrom(path, open, lookup);
    }

    /**
     * `load_from`: on a failed open the error names the path and the slot is unchanged;
     * otherwise the new library replaces whatever the slot held, missing symbols included.
     */
    method LoadFrom(path: string, open: string -> Result<Image, string>,
                    lookup: (Image, string) -> Option<Address>) returns (r: Result<(), string>)
      requires Valid()
      modifies this
      ensures Valid()
      ensures open(path).Err? ==> r == Err(OpenError(path, open(path).error)) && library == old(library)
      ensures open(path).Ok? ==> r == Ok(()) && library != null && fresh(library)
                                 && Slot() == Some(LibraryView(path, open(path).value, Resolved(open(path).value, manifest, lookup)))
    {
      var loaded := SharedLibrary.Load(path, manifest, open, lookup);
      if loaded.Err? {
        return Err(loaded.error);
      }
      library := loaded.value;
      return Ok(());
    }

    /**
     * A proxy call against the current slot; it changes nothing. With a library loaded,
     * a manifest symbol panics exactly when its slot is empty and is otherwise forwarded.
     */
    method Call<A>(name: string, args: A) returns (r: Outcome<Invocation<A>>)
      requires Valid()
      ensures r == Proxy(Slot(), name, args)
      ensures library == null ==> r == Panic(NOT_LOADED)
      ensures library != null && name in manifest ==>
                name in library.functions
                && (library.functions[name].None? <==> r == Panic(FUNCTION_NOT_LOADED + name))
                && (library.functions[name].Some? ==> r == Done(Invocation(library.functions[name].value, args)))
    {
      var slot := if library == null then None else Some(library.View());
      r := Proxy(slot, name, args);
    }
  }
}
