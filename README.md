# bnlc-mod-loader: the Lua capability bridge

`bnlc_mod_loader_lib::new` builds, for one mod, the table of four functions a
mod's Lua script may call: `load_mod_dll`, `write_dat_contents`,
`read_dat_contents` and `read_mod_contents`. They close over the mod's
directory `mods/<name>`, the shared per-mod state (trust flag and the
registry of loaded DLLs) and the shared map from `.dat` archive name to
overlay. This project models that bridge and proves what it promises:

- `load_mod_dll` checks trust before anything else, then checks the path,
  then asks the native loader, and registers the handle only on success,
  keyed by the cleaned path.
- `write_dat_contents` fails on an unknown archive and touches only the named
  overlay; `read_dat_contents` answers `None` for an unknown archive.
- `read_mod_contents` needs no trust; only the path check gates it.
- The path check as the source writes it (lexical cleaning, then refusing a
  cleaned path that begins with `..`) admits, among unanchored paths (no root,
  no drive prefix), exactly those whose step-by-step walk never climbs above
  the mod directory, and joins them under it. It also admits every rooted or
  drive-prefixed path, and `Path::join` then discards the mod directory (see
  "## Findings"). The corrected check, which also refuses anchored paths,
  admits exactly the walk-contained paths.

Files:

- `types.dfy` (`Types`): bytes, `Option`, `Result`, and the error taxonomy
  (`NotTrusted`, `OutsideModDirectory`, `LibraryNotLoaded`, `NoSuchDat`,
  `OverlayFailed`, `FileFailed`).
- `paths.dfy` (`Paths`): path components, lexical cleaning in the algorithm
  of Go's `path.Clean` (drop `.`; `..` cancels a preceding name, is dropped
  right after a root, and is otherwise kept; an empty result becomes `.`),
  and `Walk`, the reference semantics of resolving a path one component at a
  time. The main lemma ties the two together.
- `sandbox.dfy` (`Sandboxing`): the mod directory, `Path::join`, the check as
  written and the check as meant, and the containment lemmas.
- `bridge.dfy` (`BnlcModLoaderLib`): `ModState`, `OverlayRegistry` and the
  `Capabilities` class whose four methods are the four closures. The native
  loader, the file system and the overlay engine are function parameters, and
  a ghost `requests` log records every request made of them. That log is how
  the contracts say that a refused call loads nothing and opens nothing.

`clean_path::clean` itself is not part of this model. Its cleaning is written
out here from the lexical algorithm it follows.

## Model

| member | source | states |
|---|---|---|
| `Paths.Clean` | bnlc-mod-loader/src/mods/lua/bnlc_mod_loader_lib.rs:30 | cleaning never yields an empty path; a path that cleans to nothing becomes `.` |
| `Paths.CleanPrefixWalk` | bnlc-mod-loader/src/mods/lua/bnlc_mod_loader_lib.rs:30-32 | for an unanchored path, what the cleaning loop keeps is `..`* followed by names; it begins with `..` exactly when walking the raw path climbs above its start; otherwise it is the list of names the walk reaches |
| `Paths.CleanIsLexicalWalk` | bnlc-mod-loader/src/mods/lua/bnlc_mod_loader_lib.rs:30-36 | the fact the first-component test relies on: a cleaned unanchored path has `..` only as a leading prefix, and its first component is `..` if and only if the raw path escapes its start at some step; otherwise the cleaned path names the walk's destination (`.` when that is the start itself) |
| `Paths.WalkFrom` | bnlc-mod-loader/src/mods/lua/bnlc_mod_loader_lib.rs:38 | a path that never climbs above its start, walked from any directory `d`, reaches `d` followed by the same names |
| `Paths.CleanPrefixFixes` | bnlc-mod-loader/src/mods/lua/bnlc_mod_loader_lib.rs:30 | a path already of the form `..`* names* is left unchanged by the cleaning loop |
| `Paths.CleanIdempotent` | bnlc-mod-loader/src/mods/lua/bnlc_mod_loader_lib.rs:30 | cleaning an unanchored path twice gives what cleaning it once gives |
| `Paths.CleanPrefixKeepsAnchors` | bnlc-mod-loader/src/mods/lua/bnlc_mod_loader_lib.rs:30 | cleaning never removes a drive prefix or a root from a path that has one |
| `Paths.CleanKeepsUnanchored` | bnlc-mod-loader/src/mods/lua/bnlc_mod_loader_lib.rs:30-32 | a path has no root or drive prefix if and only if its cleaned form has none |
| `Paths.CleanKeepsAnchor` | bnlc-mod-loader/src/mods/lua/bnlc_mod_loader_lib.rs:30-32 | a path that begins with a root or a drive prefix still begins with it after cleaning (`/..` cleans to `/`) |
| `Sandboxing.ModRoot` | bnlc-mod-loader/src/mods/lua/bnlc_mod_loader_lib.rs:15 | the mod directory `mods/<name>` is an unanchored, contained, already-clean path whose walk reaches `mods/<name>` |
| `Sandboxing.Join` | bnlc-mod-loader/src/mods/lua/bnlc_mod_loader_lib.rs:38 | `Path::join`: the result ends with the joined path; an unanchored right side is appended after the whole base; a right side beginning with a root or prefix replaces the base |
| `Sandboxing.SandboxAsWritten` | bnlc-mod-loader/src/mods/lua/bnlc_mod_loader_lib.rs:30-36 | the source's check: every refusal is `OutsideModDirectory`; an accepted value is the cleaned path; on unanchored input it accepts exactly the paths whose walk never climbs above its start, and what it accepts is contained |
| `Sandboxing.Sandbox` | bnlc-mod-loader/src/mods/lua/bnlc_mod_loader_lib.rs:99-105 | the corrected check (also refuses anchored cleaned paths): every refusal is `OutsideModDirectory`; an accepted value is the cleaned path and is contained (all names, or `.`) |
| `Sandboxing.SandboxIsWalkContainment` | bnlc-mod-loader/src/mods/lua/bnlc_mod_loader_lib.rs:30-36 | the corrected check accepts a path if and only if it is unanchored and its walk never climbs above the mod directory; what it accepts is the cleaned path naming the walk's destination |
| `Sandboxing.SandboxResolvesUnderModDir` | bnlc-mod-loader/src/mods/lua/bnlc_mod_loader_lib.rs:30-38 | a path the corrected check accepts, joined to `mods/<name>`, is appended to it; walking the raw path from `mods/<name>` ends below `mods/<name>` at the same place |
| `Sandboxing.AsWrittenAgreesOnRelative` | bnlc-mod-loader/src/mods/lua/bnlc_mod_loader_lib.rs:99-105 | on every unanchored path (no root, no drive prefix) the check as written and the corrected check give the same answer |
| `Sandboxing.AsWrittenAdmitsAnchoredPaths` | bnlc-mod-loader/src/mods/lua/bnlc_mod_loader_lib.rs:30-38 | the check as written accepts every path beginning with a root or drive prefix, and joining it to `mods/<name>` gives a path that begins with that root, not with `mods`; the corrected check refuses it |
| `Sandboxing.AsWrittenEscapeExample` | bnlc-mod-loader/src/mods/lua/bnlc_mod_loader_lib.rs:99-107 | `/Windows/System32/x.dll` passes the check as written and resolves to itself, outside `mods/<name>` |
| `BnlcModLoaderLib.Capabilities.New` | bnlc-mod-loader/src/mods/lua/bnlc_mod_loader_lib.rs:5-15 | the table closes over `mods/<name>`, the given mod state and the given overlay map, and has made no requests |
| `BnlcModLoaderLib.ModState.AddDll` | bnlc-mod-loader/src/mods/lua/bnlc_mod_loader_lib.rs:47 | registering appends exactly one (path, handle) entry; a path loaded twice is registered twice |
| `BnlcModLoaderLib.Capabilities.ResolvedPath` | bnlc-mod-loader/src/mods/lua/bnlc_mod_loader_lib.rs:38 | a path the source's check accepts is joined below `mods/<name>` when unanchored; a rooted or drive-prefixed path is always accepted and joined to itself, outside the mod directory |
| `BnlcModLoaderLib.Capabilities.LoadModDll` | bnlc-mod-loader/src/mods/lua/bnlc_mod_loader_lib.rs:22-50 | untrusted: `NotTrusted` for every path, no loader request, registry unchanged; trusted but refused by the source's check: `OutsideModDirectory`, no request, registry unchanged; otherwise exactly one loader request for `Join(mods/<name>, cleaned path)`, and either `LibraryNotLoaded` with the registry unchanged or success with exactly one entry added, keyed by the cleaned path; for an unanchored path that request is `mods/<name>` + a contained path; for a rooted or drive-prefixed path the loader is asked for the cleaned path itself, outside `mods/<name>`; overlays and trust never change |
| `BnlcModLoaderLib.Capabilities.WriteDatContents` | bnlc-mod-loader/src/mods/lua/bnlc_mod_loader_lib.rs:58-71 | unknown archive: `NoSuchDat`, no overlay changes, no request; known archive: one write request, only that overlay is replaced by what its write leaves, and a failing write is reported as `OverlayFailed` with its cause; the DLL registry never changes |
| `BnlcModLoaderLib.Capabilities.ReadDatContents` | bnlc-mod-loader/src/mods/lua/bnlc_mod_loader_lib.rs:79-90 | unknown archive: `Ok(None)`, never an error, no request; known archive: one read request, and `Some` of the overlay's bytes or `OverlayFailed` with its cause; nothing in the state changes |
| `BnlcModLoaderLib.Capabilities.ReadModContents` | bnlc-mod-loader/src/mods/lua/bnlc_mod_loader_lib.rs:98-114 | independent of trust; a path the source's check refuses gives `OutsideModDirectory` and opens no file; otherwise exactly one read of `Join(mods/<name>, cleaned path)`, returning its bytes or `FileFailed` with the cause; for an unanchored path that is `mods/<name>` + a contained path; for a rooted or drive-prefixed path it is the cleaned path itself, outside `mods/<name>`; nothing in the state changes |

## Findings

| source | as written | input that shows it | evidently intended | confidence | as-written member | corrected member |
|---|---|---|---|---|---|---|
| bnlc-mod-loader/src/mods/lua/bnlc_mod_loader_lib.rs:30-38 (and 99-107) | only a cleaned path whose first component is `..` is refused; a rooted or drive-prefixed path keeps its root through cleaning, passes, and `Path::join` then replaces `mods/<name>` with it | `read_mod_contents("/Windows/System32/x.dll")` (no trust needed) or `load_mod_dll("C:/x.dll")` resolves outside `mods/<name>` | every accepted path resolves under `mods/<name>`, as the error text "cannot read files outside of mod directory" says | high that the check lets these paths through and that `join` discards the base (the documented behaviour of Rust's `Path`); not executed | `Sandboxing.AsWrittenAdmitsAnchoredPaths` (with `Sandboxing.SandboxAsWritten`, `Sandboxing.AsWrittenEscapeExample`) | `Sandboxing.SandboxResolvesUnderModDir` (with `Sandboxing.Sandbox`, `Sandboxing.SandboxIsWalkContainment`) |

`LoadModDll` and `ReadModContents` follow the source's check, so their
contracts show the escape at the level of the operation: for a rooted or
drive-prefixed path the loader or the file system is asked for that path
itself. The corrected check is `Sandbox`; `Sandboxing.AsWrittenAgreesOnRelative`
shows that it gives the same answer as the source's check on every unanchored
path, so replacing one with the other changes only the anchored cases.

## Left out

- Lua plumbing: creating the table and functions, marshalling arguments, `lua.create_string` and `to_lua_err`. Errors are classified by the `Error` datatype; message texts are not reproduced.
- The `Arc<Mutex<…>>` locks and `lock().unwrap()`: each call is modelled as exclusive access to the state, so concurrent interleavings and lock poisoning are not modelled.
- `PathBuf::from_str` and `Path::components`: paths are given as component sequences. Rust's guarantee that a `Normal` component is never empty, `.`, `..` or holding a separator is stated in a comment, not checked.
- `ModDir`/`ModRoot`: the mod name is taken to be one well-formed path component. `Path::join` of a mod name that is empty, holds a separator, or is itself absolute is not modelled: the caller of `new`, which supplies the name, is not part of this model.
- Filesystem-level resolution (symbolic links, junctions, case folding): containment is lexical, as in the source.
- `Path::join` on Windows keeps the base's drive prefix when the joined path has a root but no prefix; `mods/<name>` has no prefix, so `Join` simply returns the rooted path.
- The native loader (`windows_libloader::ModuleHandle::load`): a function parameter from the resolved path to an optional handle. What mapping a DLL does to the process is not modelled.
- `File::open` and the `read_to_end` loop: a single function parameter from the resolved path to the bytes or a failure cause. Bytes read before a failure are not modelled, since the source discards them.
- The overlay engine (`assets::dat::Overlay`) is not part of this model. An overlay is a map from entry path to bytes. Its `write` is a parameter that returns the overlay afterwards and an optional failure, so a failing write may still change that overlay. Its `read` is a parameter that does not change the overlay, though the source reaches it through `get_mut`.
- A write-then-read round trip through `write_dat_contents` and `read_dat_contents`: it depends on the overlay engine's semantics, which are not part of this model.
- `mods::State` beyond `is_trusted` and `add_dll`: trust is a constant field, and `add_dll` appends to a sequence without deduplication.
- Failures of `new` itself (`lua.create_table()?`, `table.set(…)?`): Lua plumbing.
