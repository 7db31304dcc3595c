/** Paths as sequences of components, lexical cleaning, and the step-by-step
    walk that cleaning must agree with. */
module Paths {
  import opened Types

  /** One component of a path, as `Path::components` yields it. A `Normal`
      name is never empty, `.`, `..`, nor holds a separator. */
  datatype Component =
    | Prefix(drive: string)   // a Windows drive or UNC prefix, `C:`
    | RootDir                 // the leading separator of a rooted path
    | CurDir                  // `.`
    | ParentDir               // `..`
    | Normal(name: string)

  type Path = seq<Component>

  /** A component that pins the path to a place outside any base directory. */
  predicate IsAnchor(c: Component) {
    c.Prefix? || c.RootDir?
  }

  /** No prefix and no root anywhere: the path is read from whatever base it is
      joined to. This is stricter than Rust's `Path::is_relative`, which on
      Windows calls `\temp` (a root, no prefix) and `C:temp` (a prefix, no
      root) relative although `Path::join` does not keep the base for either. */
  predicate Unanchored(p: Path) {
    forall i :: 0 <= i < |p| ==> !IsAnchor(p[i])
  }

  /** The path made of the given names, one `Normal` component each. */
  function Names(s: seq<string>): Path {
    seq(|s|, i requires 0 <= i < |s| => Normal(s[i]))
  }

  /** `..` components only as a leading run; everything after them is a name. */
  predicate UpsThenNames(q: Path) {
    && (forall i :: 0 <= i < |q| ==> q[i].ParentDir? || q[i].Normal?)
    && (forall i, j :: 0 <= i < j < |q| && q[j].ParentDir? ==> q[i].ParentDir?)
  }

  // ---------------------------------------------------------------------
  // Lexical cleaning (the algorithm of Go's path.Clean, on components)
  // ---------------------------------------------------------------------

  /** One turn of the cleaning loop: `out` holds the components kept so far.
      `.` is dropped; `..` cancels a preceding name, is dropped right after a
      root, and is otherwise kept; every other component is kept. */
  function CleanStep(out: Path, c: Component): Path {
    match c
    case CurDir => out
    case ParentDir =>
      if out != [] && out[|out| - 1].Normal? then out[..|out| - 1]
      else if out != [] && out[|out| - 1].RootDir? then out
      else out + [c]
    case _ => out + [c]
  }

  /** The components the cleaning loop has kept after reading all of `p`. */
  function CleanPrefix(p: Path): Path
    decreases |p|
  {
    if p == [] then [] else CleanStep(CleanPrefix(p[..|p| - 1]), p[|p| - 1])
  }

  /** Lexical cleaning; a path that cleans to nothing becomes `.`. */
  function Clean(p: Path): (q: Path)
    ensures q != []
  {
    var out := CleanPrefix(p);
    if out == [] then [CurDir] else out
  }

  // ---------------------------------------------------------------------
  // Reference semantics: walking a path one component at a time
  // ---------------------------------------------------------------------

  /** The directory reached from `d` (a list of names below some fixed start)
      by one component; `None` when it climbs above the start or meets an
      anchor, which leaves the start's subtree altogether. */
  function Visit(d: seq<string>, c: Component): Option<seq<string>> {
    match c
    case CurDir => Some(d)
    case Normal(n) => Some(d + [n])
    case ParentDir => if d == [] then None else Some(d[..|d| - 1])
    case _ => None
  }

  /** The directory reached by walking `p` from `dir`, component by component,
      or `None` if some step leaves the subtree the walk started in. */
  function Walk(dir: seq<string>, p: Path): Option<seq<string>>
    decreases |p|
  {
    if p == [] then Some(dir)
    else
      match Walk(dir, p[..|p| - 1])
      case None => None
      case Some(d) => Visit(d, p[|p| - 1])
  }

  // ---------------------------------------------------------------------
  // Properties
  // ---------------------------------------------------------------------

  /** Cleaning a relative path keeps `..` only as a leading run, and that run
      is there exactly when the walk climbs above its start; otherwise what
      is kept is the list of names the walk ends at. */
  lemma {:induction false} CleanPrefixWalk(p: Path)
    requires Unanchored(p)
    ensures UpsThenNames(CleanPrefix(p))
    ensures Walk([], p).None? <==> (CleanPrefix(p) != [] && CleanPrefix(p)[0].ParentDir?)
    ensures Walk([], p).Some? ==> CleanPrefix(p) == Names(Walk([], p).value)
    decreases |p|
  {
    if p != [] {
      var init, c := p[..|p| - 1], p[|p| - 1];
      assert Unanchored(init) by {
        forall i | 0 <= i < |init| ensures !IsAnchor(init[i]) {
          assert init[i] == p[i];
        }
      }
      CleanPrefixWalk(init);
      var out := CleanPrefix(init);
      assert CleanPrefix(p) == CleanStep(out, c);
      assert !IsAnchor(c) by { assert c == p[|p| - 1]; }
      match Walk([], init)
      case None =>
        assert Walk([], p).None?;
        assert out != [] && out[0].ParentDir?;
        if c.ParentDir? && out[|out| - 1].Normal? {
          assert |out| >= 2;
          assert CleanPrefix(p) == out[..|out| - 1];
        }
      case Some(d) =>
        assert out == Names(d);
        match c
        case CurDir =>
        case Normal(n) =>
          assert CleanPrefix(p) == Names(d + [n]);
        case ParentDir =>
          if d == [] {
            assert CleanPrefix(p) == [ParentDir];
          } else {
            assert out[|out| - 1] == Normal(d[|d| - 1]);
            assert CleanPrefix(p) == Names(d[..|d| - 1]);
          }
    }
  }

  /** The containment fact the sandbox relies on: cleaning a relative path
      leaves `..` only as a leading prefix, the cleaned path begins with `..`
      exactly when walking the raw path climbs above its start, and otherwise
      the cleaned path names the directory the walk reaches (`.` if none). */
  lemma CleanIsLexicalWalk(p: Path)
    requires Unanchored(p)
    ensures UpsThenNames(Clean(p)) || Clean(p) == [CurDir]
    ensures Clean(p)[0].ParentDir? <==> Walk([], p).None?
    ensures Walk([], p).Some? ==>
              Clean(p) == (if Walk([], p).value == [] then [CurDir] else Names(Walk([], p).value))
  {
    CleanPrefixWalk(p);
  }

  /** A walk that stays inside its start from the empty list stays inside any
      start: from `dir` it reaches `dir` followed by the same names. */
  lemma {:induction false} WalkFrom(dir: seq<string>, p: Path, s: seq<string>)
    requires Walk([], p) == Some(s)
    ensures Walk(dir, p) == Some(dir + s)
    decreases |p|
  {
    if p != [] {
      var init, c := p[..|p| - 1], p[|p| - 1];
      var d :| Walk([], init) == Some(d);
      WalkFrom(dir, init, d);
      match c
      case CurDir =>
      case Normal(n) =>
        assert dir + d + [n] == dir + (d + [n]);
      case ParentDir =>
        assert (dir + d)[..|dir + d| - 1] == dir + d[..|d| - 1];
      case _ =>
    } else {
      assert dir + s == dir;
    }
  }

  /** A path already of the form `..`* names* is left as it is by cleaning. */
  lemma {:induction false} CleanPrefixFixes(q: Path)
    requires UpsThenNames(q)
    ensures CleanPrefix(q) == q
    decreases |q|
  {
    if q != [] {
      var init, c := q[..|q| - 1], q[|q| - 1];
      assert UpsThenNames(init) by {
        forall i, j | 0 <= i < j < |init| && init[j].ParentDir? ensures init[i].ParentDir? {
          assert init[i] == q[i] && init[j] == q[j];
        }
      }
      CleanPrefixFixes(init);
      if c.ParentDir? && init != [] {
        assert init[|init| - 1] == q[|q| - 2];
        assert q[|q| - 2].ParentDir?;
      }
      assert init + [c] == q;
    }
  }

  /** Cleaning a relative path twice gives what cleaning it once gives. */
  lemma CleanIdempotent(p: Path)
    requires Unanchored(p)
    ensures Clean(Clean(p)) == Clean(p)
  {
    CleanPrefixWalk(p);
    var q := CleanPrefix(p);
    if q == [] {
      assert Clean(p) == [CurDir];
      assert CleanPrefix([CurDir]) == CleanStep(CleanPrefix([]), CurDir);
    } else {
      CleanPrefixFixes(q);
    }
  }

  /** Cleaning never removes a prefix or a root: once one is kept, later
      steps only drop a trailing name. */
  lemma {:induction false} CleanPrefixKeepsAnchors(p: Path)
    requires !Unanchored(p)
    ensures !Unanchored(CleanPrefix(p))
    decreases |p|
  {
    var init, c := p[..|p| - 1], p[|p| - 1];
    var out := CleanPrefix(init);
    assert CleanPrefix(p) == CleanStep(out, c);
    if IsAnchor(c) {
      assert CleanStep(out, c) == out + [c];
      assert IsAnchor(CleanPrefix(p)[|out|]);
    } else {
      var i :| 0 <= i < |p| && IsAnchor(p[i]);
      assert i < |init| && init[i] == p[i];
      CleanPrefixKeepsAnchors(init);
      var k :| 0 <= k < |out| && IsAnchor(out[k]);
      if c.ParentDir? && out[|out| - 1].Normal? {
        assert k < |out| - 1;
        assert CleanPrefix(p)[k] == out[k];
      } else {
        assert CleanPrefix(p)[k] == out[k];
      }
    }
  }

  /** A path is relative exactly when its cleaned form is. */
  lemma CleanKeepsUnanchored(p: Path)
    ensures Unanchored(p) <==> Unanchored(Clean(p))
  {
    if Unanchored(p) {
      CleanPrefixWalk(p);
    } else {
      CleanPrefixKeepsAnchors(p);
    }
  }

  /** A rooted or prefixed path keeps its first component: cleaning never
      drops it, and `..` right after a root is dropped rather than kept. */
  lemma {:induction false} CleanKeepsAnchor(p: Path)
    requires p != [] && IsAnchor(p[0])
    ensures CleanPrefix(p) != [] && CleanPrefix(p)[0] == p[0]
    decreases |p|
  {
    if |p| == 1 {
      assert CleanPrefix(p) == CleanStep([], p[0]);
    } else {
      var init := p[..|p| - 1];
      assert init[0] == p[0];
      CleanKeepsAnchor(init);
      var out := CleanPrefix(init);
      assert CleanPrefix(p) == CleanStep(out, p[|p| - 1]);
      if p[|p| - 1].ParentDir? && out[|out| - 1].Normal? {
        assert |out| >= 2;
        assert CleanPrefix(p)[0] == out[0];
      }
    }
  }
}
