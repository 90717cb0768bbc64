/** The module registry of src/libwrtctl/mod.c: loading a shared object,
    unloading it, and the module error strings.

    The dynamic loader is a `Loader`: which paths dlopen(3) opens, and for
    each the symbols it exports and what mod_init returns. Its trace records
    each dlopen that succeeds, each dlsym, the calls of mod_init and
    mod_destroy, and each dlclose, so their order is part of what the methods
    promise; dlerror and a dlopen that fails are not recorded. */
module Mod {
  import opened WrtctlNet

  /** What one shared object exports: its symbol names, the value mod_init
      returns, and the values behind mod_name, mod_magic_str and mod_version. */
  datatype Library = Library(symbols: set<string>, initRc: nat, name: string, magic: string, version: int)

  /** One dl* call, or a call into the module through a symbol. */
  datatype DlEvent = Opened(path: string) | Looked(sym: string) | Inited(path: string)
                   | Destroyed(path: string) | Closed(path: string)

  /** Why load_module failed: no memory, a dlerror(3) report (the model names
      the path or the symbol instead of dlerror's text), or mod_init refusing. */
  datatype LoadError = NoMemory | DlFailure(what: string) | InitFailed(path: string)

  /** The string load_module returns for a failure the model knows the text of. */
  function ErrText(e: LoadError): string
  {
    match e
      case NoMemory => "Insufficient Memory."
      case DlFailure(what) => what
      case InitFailed(path) => "Failed to initialize " + path + ".\n"
  }

  /** The symbols looked up after mod_init, in the order load_module asks. */
  const REQUIRED: seq<string> := ["mod_name", "mod_magic_str", "mod_version", "mod_handler", "mod_errstr"]

  /** The lookups of `syms` in order, up to and including the first missing one. */
  function Lookups(lib: Library, syms: seq<string>): (r: seq<DlEvent>)
    ensures |r| <= |syms|
    ensures forall i :: 0 <= i < |r| ==> r[i] == Looked(syms[i])
  {
    if syms == [] then []
    else if syms[0] !in lib.symbols then [Looked(syms[0])]
    else [Looked(syms[0])] + Lookups(lib, syms[1..])
  }

  /** The first of `syms` the library lacks. */
  function FirstMissing(lib: Library, syms: seq<string>): (r: Option<string>)
    ensures r.Some? ==> r.value in syms && r.value !in lib.symbols
    ensures r.None? ==> forall i :: 0 <= i < |syms| ==> syms[i] in lib.symbols
  {
    if syms == [] then None
    else if syms[0] !in lib.symbols then Some(syms[0])
    else FirstMissing(lib, syms[1..])
  }

  /** The dl* calls unload_module makes for a module opened from `path`:
      mod_destroy is called when it resolves, and the handle is closed unless
      WRTCTL_NO_DLCLOSE is set. */
  function UnloadEvents(lib: Library, path: string, noDlclose: bool): seq<DlEvent>
  {
    [Looked("mod_destroy")]
    + (if "mod_destroy" in lib.symbols then [Destroyed(path)] else [])
    + (if noDlclose then [] else [Closed(path)])
  }

  datatype Load = Load(err: Option<LoadError>, events: seq<DlEvent>)

  /** load_module, as the error it returns and the dl* calls it makes.
      `allocOk` says whether the malloc of struct mod_data succeeds; `lib` is
      what dlopen(3) finds at the path. A missing mod_version is reported
      like any other symbol, where the code as written crashes
      (LoadAsWritten). */
  function LoadSpec(lib: Option<Library>, path: string, noDlclose: bool, allocOk: bool): Load
  {
    if !allocOk then Load(Some(NoMemory), [])
    else if lib.None? then Load(Some(DlFailure(path)), [])
    else
      var l := lib.value;
      var start := [Opened(path), Looked("mod_init")];
      var unload := UnloadEvents(l, path, noDlclose);
      if "mod_init" !in l.symbols then Load(Some(DlFailure("mod_init")), start + unload)
      else if l.initRc != MOD_OK then Load(Some(InitFailed(path)), start + [Inited(path)] + unload)
      else
        var looks := start + [Inited(path)] + Lookups(l, REQUIRED);
        match FirstMissing(l, REQUIRED)
          case Some(sym) => Load(Some(DlFailure(sym)), looks + unload)
          case None => Load(None, looks)
  }

  /** mod_init runs before any of the module's other symbols is looked up,
      and a load that fails closes what it opened (unless dlclose is turned
      off) while one that succeeds keeps it open. */
  lemma LoadOrder(lib: Option<Library>, path: string, noDlclose: bool, allocOk: bool)
    ensures var r := LoadSpec(lib, path, noDlclose, allocOk);
      (forall j :: 0 <= j < |r.events| && r.events[j].Looked? && r.events[j].sym in REQUIRED ==>
         Inited(path) in r.events[..j]) &&
      (r.err.None? ==> Closed(path) !in r.events && Inited(path) in r.events &&
                       r.events == [Opened(path), Looked("mod_init"), Inited(path)] + Lookups(lib.value, REQUIRED)) &&
      (r.err.Some? && Opened(path) in r.events && !noDlclose ==> r.events[|r.events| - 1] == Closed(path)) &&
      (r.err.None? <==> allocOk && lib.Some? && "mod_init" in lib.value.symbols && lib.value.initRc == MOD_OK &&
                        forall i :: 0 <= i < |REQUIRED| ==> REQUIRED[i] in lib.value.symbols)
  {
    InitBeforeLookups(lib, path, noDlclose, allocOk);
    LoadSucceeds(lib, path, noDlclose, allocOk);
  }

  /** No required symbol is looked up before mod_init has run. */
  lemma InitBeforeLookups(lib: Option<Library>, path: string, noDlclose: bool, allocOk: bool)
    ensures var r := LoadSpec(lib, path, noDlclose, allocOk);
      forall j :: 0 <= j < |r.events| && r.events[j].Looked? && r.events[j].sym in REQUIRED ==>
        Inited(path) in r.events[..j]
  {
    var r := LoadSpec(lib, path, noDlclose, allocOk);
    if allocOk && lib.Some? {
      var l := lib.value;
      assert "mod_init" !in REQUIRED && "mod_destroy" !in REQUIRED;
      forall j | 0 <= j < |r.events| && r.events[j].Looked? && r.events[j].sym in REQUIRED
        ensures Inited(path) in r.events[..j]
      {
        assert r.events[0] == Opened(path) && r.events[1] == Looked("mod_init");
        if "mod_init" in l.symbols && l.initRc == MOD_OK {
          assert r.events[2] == Inited(path);
          assert j >= 3;
          assert r.events[..j][2] == Inited(path);
        } else {
          UnloadLooksNoRequired(l, path, noDlclose);
        }
      }
    }
  }

  /** unload_module only looks up mod_destroy. */
  lemma UnloadLooksNoRequired(l: Library, path: string, noDlclose: bool)
    ensures forall e :: e in UnloadEvents(l, path, noDlclose) && e.Looked? ==> e.sym !in REQUIRED
  {
    assert "mod_destroy" !in REQUIRED;
  }

  /** A load succeeds exactly when everything it needs is there, and then
      it makes exactly the opening and lookup calls and closes nothing. */
  lemma LoadSucceeds(lib: Option<Library>, path: string, noDlclose: bool, allocOk: bool)
    ensures var r := LoadSpec(lib, path, noDlclose, allocOk);
      (r.err.None? ==> Closed(path) !in r.events && Inited(path) in r.events &&
                       r.events == [Opened(path), Looked("mod_init"), Inited(path)] + Lookups(lib.value, REQUIRED)) &&
      (r.err.None? <==> allocOk && lib.Some? && "mod_init" in lib.value.symbols && lib.value.initRc == MOD_OK &&
                        forall i :: 0 <= i < |REQUIRED| ==> REQUIRED[i] in lib.value.symbols)
  {
    var r := LoadSpec(lib, path, noDlclose, allocOk);
    if r.err.None? {
      var looks := [Opened(path), Looked("mod_init"), Inited(path)] + Lookups(lib.value, REQUIRED);
      assert r.events == looks;
      assert looks[2] == Inited(path);
      forall i | 0 <= i < |looks| ensures looks[i] != Closed(path) { }
    }
  }

  /** load_module as the code runs it: it returns, or it dereferences the
      NULL that dlsym gives for a missing mod_version, having made the calls
      in `events`. */
  datatype LoadRun = Returned(l: Load) | VersionMissing(events: seq<DlEvent>)

  /** The library has everything before mod_version and lacks mod_version. */
  predicate LacksOnlyVersion(l: Library)
  {
    "mod_init" in l.symbols && l.initRc == MOD_OK &&
    "mod_name" in l.symbols && "mod_magic_str" in l.symbols && "mod_version" !in l.symbols
  }

  /** load_module as written: the value behind mod_version is read before
      dlerror is asked whether the lookup failed, so a library without it
      crashes the loader instead of being closed and reported. */
  function LoadAsWritten(lib: Option<Library>, path: string, noDlclose: bool, allocOk: bool): (r: LoadRun)
    ensures r.VersionMissing? <==> allocOk && lib.Some? && LacksOnlyVersion(lib.value)
    ensures r.Returned? ==> r.l == LoadSpec(lib, path, noDlclose, allocOk)
  {
    if allocOk && lib.Some? && LacksOnlyVersion(lib.value) then
      VersionMissing([Opened(path), Looked("mod_init"), Inited(path)] + Lookups(lib.value, REQUIRED))
    else Returned(LoadSpec(lib, path, noDlclose, allocOk))
  }

  /** A library lacking only mod_version: as written the loader crashes
      after mod_init has run, with the library still open; the corrected
      LoadSpec reports the missing symbol and closes it. */
  lemma LoadVersionCrashes(lib: Library, path: string)
    requires LacksOnlyVersion(lib)
    ensures var w := LoadAsWritten(Some(lib), path, false, true);
      var r := LoadSpec(Some(lib), path, false, true);
      w.VersionMissing? && Inited(path) in w.events && Closed(path) !in w.events &&
      r.err == Some(DlFailure("mod_version")) && r.events[|r.events| - 1] == Closed(path)
  {
    var rest := REQUIRED[1..];
    assert REQUIRED[0] == "mod_name" && rest[0] == "mod_magic_str" && rest[1..][0] == "mod_version";
    assert FirstMissing(lib, rest[1..]) == Some("mod_version");
    assert FirstMissing(lib, REQUIRED) == Some("mod_version");
    var w := LoadAsWritten(Some(lib), path, false, true);
    assert w.events[2] == Inited(path);
  }

  /** struct mod_data: a handler module, built in (no library) or loaded
      from a path. */
  class ModData {
    const name: string
    const magic: string
    const version: int
    const lib: Option<string>

    constructor (name: string, magic: string, version: int, lib: Option<string>)
      ensures this.name == name && this.magic == magic && this.version == version && this.lib == lib
    {
      this.name := name;
      this.magic := magic;
      this.version := version;
      this.lib := lib;
    }
  }

  /** The dynamic loader: what each path holds, whether WRTCTL_NO_DLCLOSE
      is set, and the calls made so far. */
  class Loader {
    const libs: map<string, Library>
    const noDlclose: bool
    var events: seq<DlEvent>

    constructor (libs: map<string, Library>, noDlclose: bool)
      ensures this.libs == libs && this.noDlclose == noDlclose && events == []
    {
      this.libs := libs;
      this.noDlclose := noDlclose;
      events := [];
    }

    function Find(path: string): Option<Library>
    {
      if path in libs then Some(libs[path]) else None
    }

    /** The calls unload_module makes for md. */
    function UnloadOf(md: ModData): seq<DlEvent>
    {
      match md.lib
        case None => []
        case Some(path) => if path in libs then UnloadEvents(libs[path], path, noDlclose) else []
    }
  }

  /** STAILQ_HEAD(module_list, mod_data): the handler modules in order. */
  class ModList {
    var mods: seq<ModData>

    constructor ()
      ensures mods == []
    {
      mods := [];
    }

    /** A module is on the list at most once. */
    predicate Valid()
      reads this
    {
      forall i, j :: 0 <= i < j < |mods| ==> mods[i] != mods[j]
    }

    /** STAILQ_INSERT_TAIL */
    method Append(md: ModData)
      requires Valid() && md !in mods
      modifies this
      ensures Valid() && mods == old(mods) + [md]
    {
      mods := mods + [md];
    }
  }

  /** The list without its one occurrence of md. */
  function Without(mods: seq<ModData>, md: ModData): (r: seq<ModData>)
    ensures md !in mods ==> r == mods
    ensures |r| <= |mods|
    ensures forall x :: x in r ==> x in mods
  {
    if mods == [] then []
    else if mods[0] == md then mods[1..]
    else [mods[0]] + Without(mods[1..], md)
  }

  /** Removing from a list without repeats keeps the order of the others
      and leaves md out. */
  lemma {:induction false} WithoutRemoves(mods: seq<ModData>, md: ModData)
    requires forall i, j :: 0 <= i < j < |mods| ==> mods[i] != mods[j]
    ensures var r := Without(mods, md);
      md !in r && (forall x :: x in mods && x != md ==> x in r) &&
      (md in mods ==> |r| == |mods| - 1) &&
      (forall i, j :: 0 <= i < j < |r| ==> r[i] != r[j])
  {
    if mods != [] {
      WithoutRemoves(mods[1..], md);
      if mods[0] == md {
        assert md !in mods[1..];
      } else {
        var t := Without(mods[1..], md);
        assert forall x :: x in t ==> x in mods[1..];
        assert mods[0] !in mods[1..];
      }
    }
  }

  /** unload_module: call mod_destroy if it resolves, close the handle unless
      WRTCTL_NO_DLCLOSE is set, and take md off the list when a list is given. */
  method UnloadModule(dl: Loader, ml: ModList?, md: ModData)
    requires ml != null ==> ml.Valid()
    modifies dl, ml
    ensures dl.events == old(dl.events) + dl.UnloadOf(md)
    ensures ml != null ==> ml.Valid() && ml.mods == Without(old(ml.mods), md)
  {
    match md.lib {
      case None =>
      case Some(path) =>
        if path in dl.libs {
          dl.events := dl.events + UnloadEvents(dl.libs[path], path, dl.noDlclose);
        }
    }
    if ml != null {
      WithoutRemoves(ml.mods, md);
      ml.mods := Without(ml.mods, md);
    }
  }

  /** load_module: open the library, run mod_init, then resolve the name,
      the tag, the version, the handler and the error-string function. On
      success the module goes to the tail of ml (when given) and is returned;
      on failure it is unloaded and is on no list. */
  method LoadModule(dl: Loader, ml: ModList?, path: string, allocOk: bool) returns (err: Option<LoadError>, md: ModData?)
    requires ml != null ==> ml.Valid()
    modifies dl, ml
    ensures err == LoadSpec(dl.Find(path), path, dl.noDlclose, allocOk).err
    ensures dl.events == old(dl.events) + LoadSpec(dl.Find(path), path, dl.noDlclose, allocOk).events
    ensures err.None? <==> md != null
    ensures md != null ==> (fresh(md) && md.lib == Some(path) && path in dl.libs &&
                            md.name == dl.libs[path].name && md.magic == dl.libs[path].magic &&
                            md.version == dl.libs[path].version)
    ensures ml != null ==> ml.Valid() && ml.mods == old(ml.mods) + (if md != null then [md] else [])
  {
    md := null;
    if !allocOk {
      err := Some(NoMemory);
      return;
    }
    if path !in dl.libs {
      err := Some(DlFailure(path));
      return;
    }
    var lib := dl.libs[path];
    var calls := [Opened(path), Looked("mod_init")];
    if "mod_init" !in lib.symbols {
      err := Some(DlFailure("mod_init"));
    } else {
      calls := calls + [Inited(path)];
      if lib.initRc != MOD_OK {
        err := Some(InitFailed(path));
      } else {
        var missing := FirstMissing(lib, REQUIRED);
        calls := calls + Lookups(lib, REQUIRED);
        if missing.None? {
          md := new ModData(lib.name, lib.magic, lib.version, Some(path));
          if ml != null {
            ml.mods := ml.mods + [md];
          }
          dl.events := dl.events + calls;
          err := None;
          return;
        }
        err := Some(DlFailure(missing.value));
      }
    }
    dl.events := dl.events + (calls + UnloadEvents(lib, path, dl.noDlclose));
  }

  /** unload_modules: unload every module on the list, front to back. */
  method UnloadModules(dl: Loader, ml: ModList)
    requires ml.Valid()
    modifies dl, ml
    ensures ml.mods == []
    ensures dl.events == old(dl.events) + UnloadAll(dl, old(ml.mods))
  {
    ghost var done: seq<ModData> := [];
    while ml.mods != []
      invariant ml.Valid()
      invariant done + ml.mods == old(ml.mods)
      invariant dl.events == old(dl.events) + UnloadAll(dl, done)
      decreases |ml.mods|
    {
      var md := ml.mods[0];
      WithoutHead(ml.mods);
      MoveHead(done, ml.mods);
      UnloadAllAppend(dl, done, md);
      UnloadModule(dl, ml, md);
      done := done + [md];
    }
    assert done + [] == done;
  }

  lemma WithoutHead(mods: seq<ModData>)
    requires mods != []
    ensures Without(mods, mods[0]) == mods[1..]
  {
  }

  lemma MoveHead<T>(done: seq<T>, mods: seq<T>)
    requires mods != []
    ensures (done + [mods[0]]) + mods[1..] == done + mods
  {
    assert mods == [mods[0]] + mods[1..];
  }

  /** The calls unloading every module of the list makes, in order. */
  function UnloadAll(dl: Loader, mods: seq<ModData>): seq<DlEvent>
  {
    if mods == [] then [] else UnloadAll(dl, mods[..|mods| - 1]) + dl.UnloadOf(mods[|mods| - 1])
  }

  lemma UnloadAllAppend(dl: Loader, mods: seq<ModData>, md: ModData)
    ensures UnloadAll(dl, mods + [md]) == UnloadAll(dl, mods) + dl.UnloadOf(md)
  {
    assert (mods + [md])[..|mods|] == mods;
  }

  const MOD_ERRSTR_TABLE: seq<string> := [
    "Success",
    "Insufficient memory",
    "Fork failed",
    "Failed to send signal",
    "Insufficient permission",
    "Invalid arguments",
    "TPL failed",
    "Internal module failure",
    "Error loading module(s)",
    "Unknown error number"
  ]

  /** mod_strerror: the message for a mod_errno; every code from MOD_ERR_MAX
      upwards reads as an unknown error number. */
  function ModStrerror(err: nat): string
  {
    MOD_ERRSTR_TABLE[if err < MOD_ERR_MAX then err else MOD_ERR_MAX]
  }

  /** Each code below MOD_ERR_MAX has a message of its own, and everything
      from MOD_ERR_MAX up shares "Unknown error number". */
  lemma ModStrerrorTable(e1: nat, e2: nat)
    ensures e1 >= MOD_ERR_MAX ==> ModStrerror(e1) == "Unknown error number"
    ensures (ModStrerror(e1) == ModStrerror(e2)) <==> (e1 == e2 || (e1 >= MOD_ERR_MAX && e2 >= MOD_ERR_MAX))
  {
    var t := MOD_ERRSTR_TABLE;
    assert t[0][0] == 'S' && t[1][0] == 'I' && t[2][0] == 'F' && t[3][0] == 'F' && t[4][0] == 'I';
    assert t[5][0] == 'I' && t[6][0] == 'T' && t[7][0] == 'I' && t[8][0] == 'E' && t[9][0] == 'U';
    assert t[1][2] == 's' && t[4][2] == 's' && t[5][2] == 'v' && t[7][2] == 't' && t[2][1] == 'o' && t[3][1] == 'a';
  }
}
