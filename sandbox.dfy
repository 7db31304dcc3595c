/** The path sandbox of `load_mod_dll` and `read_mod_contents`: clean the
    caller's path, refuse it if it would leave the mod's directory, and join
    what remains to `mods/<name>`. */
module Sandboxing {
  import opened Types
  import opened Paths

  /** A mod's directory, `mods/<name>`, as a list of names. The mod name is
      taken to be one well-formed name. */
  function ModDir(modName: string): seq<string> {
    ["mods", modName]
  }

  /** A mod's directory as a path: a relative path whose walk reaches
      `mods/<name>` and that cleaning leaves as it is. */
  function ModRoot(modName: string): (r: Path)
    ensures Unanchored(r) && Contained(r)
    ensures Walk([], r) == Some(ModDir(modName))
    ensures Clean(r) == r
  {
    var r := Names(ModDir(modName));
    var first: Path := [Normal("mods")];
    assert first[..|first| - 1] == [];
    assert Walk([], first) == Visit([], Normal("mods"));
    assert [] + ["mods"] == ["mods"];
    assert r[..|r| - 1] == first;
    assert Walk([], r) == Visit(["mods"], Normal(modName));
    assert ["mods"] + [modName] == ModDir(modName);
    CleanPrefixFixes(r);
    r
  }

  /** `Path::join`: an anchored right-hand side replaces the base, any other is
      appended to it. Either way the result ends with the right-hand side; it
      keeps the base only when the right-hand side is unanchored. */
  function Join(base: Path, rel: Path): (r: Path)
    ensures |r| >= |rel| && r[|r| - |rel|..] == rel
    ensures Unanchored(rel) ==> |r| == |base| + |rel| && r[..|base|] == base
    ensures rel != [] && IsAnchor(rel[0]) ==> r == rel
  {
    if rel != [] && IsAnchor(rel[0]) then rel else base + rel
  }

  /** A cleaned path that can only name the mod directory or something below it. */
  predicate Contained(q: Path) {
    q == [CurDir] || (q != [] && forall i :: 0 <= i < |q| ==> q[i].Normal?)
  }

  /** The check as the bridge writes it: only a cleaned path whose first
      component is `..` is refused. On unanchored input that refuses exactly
      the paths whose walk climbs above its start, and what it accepts is
      contained; on anchored input it promises nothing of the kind. */
  function SandboxAsWritten(p: Path): (r: Result<Path, Error>)
    ensures r.Err? ==> r.error == OutsideModDirectory
    ensures r.Ok? ==> r.value == Clean(p)
    ensures Unanchored(p) ==> (r.Ok? <==> Walk([], p).Some?)
    ensures Unanchored(p) && r.Ok? ==> Contained(r.value)
  {
    CleanedUnanchoredContained(p);
    var q := Clean(p);
    if q[0].ParentDir? then Err(OutsideModDirectory) else Ok(q)
  }

  /** The check as it is meant: a cleaned path that begins with `..` or that
      carries a prefix or a root is refused; what it accepts, the cleaned
      path, is contained. */
  function Sandbox(p: Path): (r: Result<Path, Error>)
    ensures r.Err? ==> r.error == OutsideModDirectory
    ensures r.Ok? ==> r.value == Clean(p) && Contained(r.value)
  {
    CleanKeepsUnanchored(p);
    CleanedUnanchoredContained(p);
    var q := Clean(p);
    if q[0].ParentDir? || !Unanchored(q) then Err(OutsideModDirectory) else Ok(q)
  }

  /** An unanchored path cleans to something that begins with `..` exactly
      when its walk climbs above its start, and to a contained path otherwise. */
  lemma CleanedUnanchoredContained(p: Path)
    ensures Unanchored(p) ==> (Clean(p)[0].ParentDir? <==> Walk([], p).None?)
    ensures Unanchored(p) && !Clean(p)[0].ParentDir? ==> Contained(Clean(p))
  {
    if Unanchored(p) {
      CleanIsLexicalWalk(p);
    }
  }

  /** The corrected check accepts exactly the unanchored paths whose walk
      never climbs above its start, and what it accepts is the cleaned path,
      which names the directory that walk reaches. */
  lemma SandboxIsWalkContainment(p: Path)
    ensures Sandbox(p).Ok? <==> Unanchored(p) && Walk([], p).Some?
    ensures Sandbox(p).Ok? ==>
              Sandbox(p).value == (if Walk([], p).value == [] then [CurDir] else Names(Walk([], p).value))
  {
    CleanKeepsUnanchored(p);
    if Unanchored(p) {
      CleanIsLexicalWalk(p);
    }
  }

  /** Containment: a path the corrected check accepts has no `..`, no prefix
      and no root, so joining it to `mods/<name>` appends it to that directory;
      walking the raw path from `mods/<name>` ends at the same place, below
      the mod directory. */
  lemma SandboxResolvesUnderModDir(modName: string, p: Path)
    requires Sandbox(p).Ok?
    ensures Join(ModRoot(modName), Sandbox(p).value) == ModRoot(modName) + Sandbox(p).value
    ensures Walk([], p).Some?
    ensures Walk(ModDir(modName), p) == Some(ModDir(modName) + Walk([], p).value)
  {
    SandboxIsWalkContainment(p);
    var s := Walk([], p).value;
    WalkFrom(ModDir(modName), p, s);
  }

  /** On relative paths the check as written and the check as meant agree. */
  lemma AsWrittenAgreesOnRelative(p: Path)
    requires Unanchored(p)
    ensures SandboxAsWritten(p) == Sandbox(p)
  {
    CleanKeepsUnanchored(p);
  }

  /** The check as written lets every rooted or drive-prefixed path through,
      and joining such a path to `mods/<name>` discards the mod directory: the
      result begins with the root or prefix, not with `mods`. The check as
      meant refuses all of them. */
  lemma AsWrittenAdmitsAnchoredPaths(modName: string, p: Path)
    requires p != [] && IsAnchor(p[0])
    ensures SandboxAsWritten(p).Ok?
    ensures Join(ModRoot(modName), SandboxAsWritten(p).value)[0] == p[0]
    ensures Sandbox(p) == Err(OutsideModDirectory)
  {
    CleanKeepsAnchor(p);
    assert !Unanchored(Clean(p)) by {
      assert IsAnchor(Clean(p)[0]);
    }
  }

  /** A concrete input: `/Windows/System32/x.dll` passes the check as written
      and resolves to itself instead of to a file under `mods/<name>`. */
  lemma AsWrittenEscapeExample(modName: string)
    ensures var p := [RootDir, Normal("Windows"), Normal("System32"), Normal("x.dll")];
            && SandboxAsWritten(p) == Ok(p)
            && Join(ModRoot(modName), p) == p
            && Sandbox(p) == Err(OutsideModDirectory)
  {
    var p := [RootDir, Normal("Windows"), Normal("System32"), Normal("x.dll")];
    assert CleanPrefix(p[..1]) == [RootDir] by { assert p[..1][..0] == []; }
    assert CleanPrefix(p[..2]) == p[..2] by { assert p[..2][..1] == p[..1]; }
    assert CleanPrefix(p[..3]) == p[..3] by { assert p[..3][..2] == p[..2]; }
    assert CleanPrefix(p) == p by { assert p[..3] == p[..|p| - 1]; }
    assert !Unanchored(p) by { assert IsAnchor(p[0]); }
  }
}
