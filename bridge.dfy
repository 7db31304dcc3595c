/** The capability table a mod's Lua script receives: `load_mod_dll`,
    `write_dat_contents`, `read_dat_contents` and `read_mod_contents`, as
    methods over the shared mod state and the shared overlay map. The native
    loader, the file system and the overlay engine are parameters; a ghost log
    records every request made of them. */
module BnlcModLoaderLib {
  import opened Types
  import opened Paths
  import opened Sandboxing

  /** An opaque handle to a mapped native module. */
  datatype Handle = Handle(id: nat)

  /** A mutable virtual archive, abstracted to its entries by internal path. */
  type Overlay = map<string, Bytes>

  /** A request the bridge makes of a collaborator outside it. */
  datatype Request =
    | LoadLibrary(path: Path)                  // the native loader
    | OpenFile(path: Path)                     // open and read to the end
    | WriteOverlay(dat: string, entry: string) // an overlay's `write`
    | ReadOverlay(dat: string, entry: string)  // an overlay's `read`

  /** The per-mod state: the trust flag read from configuration and the
      registry of loaded DLLs, keyed by the path they were loaded from. */
  class ModState {
    const trusted: bool
    var dlls: seq<(Path, Handle)>

    constructor (trusted: bool)
      ensures this.trusted == trusted && dlls == []
    {
      this.trusted := trusted;
      dlls := [];
    }

    /** Registers a loaded DLL; loading the same path twice registers it twice. */
    method AddDll(path: Path, dll: Handle)
      modifies this`dlls
      ensures dlls == old(dlls) + [(path, dll)]
    {
      dlls := dlls + [(path, dll)];
    }
  }

  /** The process-wide map from archive name to its overlay. */
  class OverlayRegistry {
    var overlays: map<string, Overlay>

    constructor (overlays: map<string, Overlay>)
      ensures this.overlays == overlays
    {
      this.overlays := overlays;
    }
  }

  /** The table built for one mod, closing over its directory, its state and
      the shared overlays. */
  class Capabilities {
    const modName: string
    const modPath: Path := ModRoot(modName)
    const state: ModState
    const registry: OverlayRegistry
    ghost var requests: seq<Request>

    constructor New(modName: string, state: ModState, registry: OverlayRegistry)
      ensures this.modName == modName && modPath == ModRoot(modName)
      ensures this.state == state && this.registry == registry
      ensures requests == []
    {
      this.modName := modName;
      this.state := state;
      this.registry := registry;
      requests := [];
    }

    /** Loads a DLL from the mod's directory. Trust is checked before the path
        is looked at; a path the check refuses, or one the loader cannot map,
        registers nothing; otherwise exactly one entry, keyed by the cleaned
        path, is added. Nothing else changes. An unanchored path is loaded
        from below `mods/<name>`; a rooted or drive-prefixed one passes the
        check and is loaded from where it points, outside the mod directory. */
    method LoadModDll(path: Path, loader: Path -> Option<Handle>) returns (r: Result<(), Error>)
      modifies state`dlls, this`requests
      ensures !state.trusted ==>
                r == Err(NotTrusted) && state.dlls == old(state.dlls) && requests == old(requests)
      ensures state.trusted && SandboxAsWritten(path).Err? ==>
                r == Err(OutsideModDirectory) && state.dlls == old(state.dlls) && requests == old(requests)
      ensures state.trusted && SandboxAsWritten(path).Ok? ==>
                var key := SandboxAsWritten(path).value;
                var realPath := Join(modPath, key);
                && requests == old(requests) + [LoadLibrary(realPath)]
                && (loader(realPath).None? ==>
                      r == Err(LibraryNotLoaded) && state.dlls == old(state.dlls))
                && (loader(realPath).Some? ==>
                      r == Ok(()) && state.dlls == old(state.dlls) + [(key, loader(realPath).value)])
      ensures state.trusted && Unanchored(path) && SandboxAsWritten(path).Ok? ==>
                && Contained(SandboxAsWritten(path).value)
                && requests == old(requests) + [LoadLibrary(modPath + SandboxAsWritten(path).value)]
      ensures state.trusted && path != [] && IsAnchor(path[0]) ==>
                && requests == old(requests) + [LoadLibrary(Clean(path))]
                && Clean(path)[0] == path[0]
    {
      if !state.trusted {
        return Err(NotTrusted);
      }
      ResolvedPath(path);
      var checked := SandboxAsWritten(path);
      if checked.Err? {
        return Err(OutsideModDirectory);
      }
      var key := checked.value;
      var realPath := Join(modPath, key);
      requests := requests + [LoadLibrary(realPath)];
      var dll := loader(realPath);
      if dll.None? {
        return Err(LibraryNotLoaded);
      }
      state.AddDll(key, dll.value);
      return Ok(());
    }

    /** Where a path the check accepts is joined to: below `mods/<name>` when
        the path is unanchored, at the path itself when it begins with a root
        or a drive prefix. */
    lemma ResolvedPath(path: Path)
      ensures Unanchored(path) && SandboxAsWritten(path).Ok? ==>
                Join(modPath, SandboxAsWritten(path).value) == modPath + SandboxAsWritten(path).value
      ensures path != [] && IsAnchor(path[0]) ==>
                SandboxAsWritten(path).Ok? &&
                Join(modPath, SandboxAsWritten(path).value) == Clean(path) && Clean(path)[0] == path[0]
    {
      if Unanchored(path) {
        CleanKeepsUnanchored(path);
      }
      if path != [] && IsAnchor(path[0]) {
        AsWrittenAdmitsAnchoredPaths(modName, path);
      }
    }

    /** Writes an entry of the overlay named `dat`. An archive with no overlay
        is an error and changes nothing; otherwise only that overlay changes,
        to what its `write` leaves, and a failed write is reported. */
    method WriteDatContents(dat: string, entry: string, contents: Bytes,
                            write: (Overlay, string, Bytes) -> (Overlay, Option<Cause>))
      returns (r: Result<(), Error>)
      modifies registry`overlays, this`requests
      ensures dat !in old(registry.overlays) ==>
                r == Err(NoSuchDat(dat))
                && registry.overlays == old(registry.overlays) && requests == old(requests)
      ensures dat in old(registry.overlays) ==>
                var (after, failure) := write(old(registry.overlays)[dat], entry, contents);
                && registry.overlays == old(registry.overlays)[dat := after]
                && requests == old(requests) + [WriteOverlay(dat, entry)]
                && r == (if failure.Some? then Err(OverlayFailed(failure.value)) else Ok(()))
    {
      if dat !in registry.overlays {
        return Err(NoSuchDat(dat));
      }
      requests := requests + [WriteOverlay(dat, entry)];
      var (after, failure) := write(registry.overlays[dat], entry, contents);
      registry.overlays := registry.overlays[dat := after];
      if failure.Some? {
        return Err(OverlayFailed(failure.value));
      }
      return Ok(());
    }

    /** Reads an entry of the overlay named `dat`. An archive with no overlay
        gives `None`, not an error; otherwise the overlay's answer is returned
        as `Some`, or its failure is reported. No overlay changes. */
    method ReadDatContents(dat: string, entry: string, read: (Overlay, string) -> Result<Bytes, Cause>)
      returns (r: Result<Option<Bytes>, Error>)
      modifies this`requests
      ensures dat !in registry.overlays ==> r == Ok(None) && requests == old(requests)
      ensures dat in registry.overlays ==>
                && requests == old(requests) + [ReadOverlay(dat, entry)]
                && r == match read(registry.overlays[dat], entry)
                        case Ok(bytes) => Ok(Some(bytes))
                        case Err(cause) => Err(OverlayFailed(cause))
    {
      if dat !in registry.overlays {
        return Ok(None);
      }
      requests := requests + [ReadOverlay(dat, entry)];
      var answer := read(registry.overlays[dat], entry);
      match answer
      case Ok(bytes) => r := Ok(Some(bytes));
      case Err(cause) => r := Err(OverlayFailed(cause));
    }

    /** Reads a whole file from the mod's directory. Trust plays no part; a
        path the check refuses opens nothing; otherwise the file at the
        cleaned path joined to `mods/<name>` is read and its bytes, or the
        file system's failure, returned. An unanchored path is read from below
        `mods/<name>`; a rooted or drive-prefixed one passes the check and is
        read from where it points, outside the mod directory. */
    method ReadModContents(path: Path, readFile: Path -> Result<Bytes, Cause>) returns (r: Result<Bytes, Error>)
      modifies this`requests
      ensures SandboxAsWritten(path).Err? ==> r == Err(OutsideModDirectory) && requests == old(requests)
      ensures SandboxAsWritten(path).Ok? ==>
                var realPath := Join(modPath, SandboxAsWritten(path).value);
                && requests == old(requests) + [OpenFile(realPath)]
                && r == match readFile(realPath)
                        case Ok(bytes) => Ok(bytes)
                        case Err(cause) => Err(FileFailed(cause))
      ensures Unanchored(path) && SandboxAsWritten(path).Ok? ==>
                && Contained(SandboxAsWritten(path).value)
                && requests == old(requests) + [OpenFile(modPath + SandboxAsWritten(path).value)]
      ensures path != [] && IsAnchor(path[0]) ==>
                && requests == old(requests) + [OpenFile(Clean(path))]
                && Clean(path)[0] == path[0]
    {
      ResolvedPath(path);
      var checked := SandboxAsWritten(path);
      if checked.Err? {
        return Err(OutsideModDirectory);
      }
      var realPath := Join(modPath, checked.value);
      requests := requests + [OpenFile(realPath)];
      match readFile(realPath)
      case Ok(bytes) => r := Ok(bytes);
      case Err(cause) => r := Err(FileFailed(cause));
    }
  }
}
