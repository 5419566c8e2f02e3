/**
 * Mapping request paths into the mounted directory. Paths are sequences of names from the file
 * system root; symbolic links are whatever `canonicalize` and `exists` say about them.
 */
module HostfsPaths {
  import opened Bytes
  import opened Text

  /** A component that names an entry: not empty, not "." or "..", no separator. */
  predicate IsName(s: string) { s != "" && s != "." && s != ".." && '/' !in s }

  type Name = s: string | IsName(s) witness "a"

  type Path = seq<Name>

  datatype PathError = NotRelative | Traversal | RefersToRoot | Escapes | Io

  /** What the operating system knows: whether a path exists, and its link-free form. */
  datatype Links = Links(exists_: Path -> bool, canonicalize: Path -> Option<Path>)

  //// Request paths

  /** The names among the pieces; empty pieces and "." stand for nothing. */
  function Names(pieces: seq<string>): (r: Path)
    requires forall i :: 0 <= i < |pieces| ==> '/' !in pieces[i] && pieces[i] != ".."
  {
    if pieces == [] then []
    else if pieces[0] == "" || pieces[0] == "." then Names(pieces[1..])
    else [pieces[0]] + Names(pieces[1..])
  }

  ghost predicate HasParent(pieces: seq<string>) { exists i :: 0 <= i < |pieces| && pieces[i] == ".." }

  /** A relative request path without "..", as names. Exactly absolute and climbing paths are refused. */
  method NormalizeRelativePath(path: string) returns (r: Result<Path, PathError>)
    ensures var raw := Trim(path);
            var pieces := Split(raw);
            if "/" <= raw then r == Err(NotRelative)
            else if HasParent(pieces) then r == Err(Traversal)
            else r == Ok(Names(pieces))
    ensures r.Ok? ==> forall i :: 0 <= i < |r.value| ==> r.value[i] !in {"", ".", ".."} && '/' !in r.value[i]
  {
    var raw := Trim(path);
    var pieces := Split(raw);
    if raw == "" || raw == "." {
      DotIsNothing(raw);
      return Ok([]);
    }
    if "/" <= raw { return Err(NotRelative); }
    var normalized: Path := [];
    var i := 0;
    while i < |pieces|
      invariant 0 <= i <= |pieces|
      invariant forall k :: 0 <= k < i ==> pieces[k] != ".."
      invariant normalized == Names(pieces[..i])
    {
      var piece := pieces[i];
      if piece == ".." { return Err(Traversal); }
      NamesSnoc(pieces[..i], piece);
      assert pieces[..i + 1] == pieces[..i] + [piece];
      if piece != "" && piece != "." {
        normalized := normalized + [piece];
      }
      i := i + 1;
    }
    assert pieces[..i] == pieces;
    r := Ok(normalized);
  }

  lemma {:induction false} DotIsNothing(s: string)
    requires s == "" || s == "."
    ensures Split(s) == [s]
  {
    if s == "." {
      assert s[1..] == "";
      assert Split("") == [""] && [""][1..] == [];
      assert ['.'] + "" == ".";
    }
  }

  lemma {:induction false} NamesSnoc(pieces: seq<string>, piece: string)
    requires forall i :: 0 <= i < |pieces| ==> '/' !in pieces[i] && pieces[i] != ".."
    requires '/' !in piece && piece != ".."
    ensures Names(pieces + [piece]) == Names(pieces) + (if piece == "" || piece == "." then [] else [piece])
  {
    if pieces == [] {
      assert pieces + [piece] == [piece] && [piece][1..] == [];
    } else {
      assert (pieces + [piece])[1..] == pieces[1..] + [piece];
      NamesSnoc(pieces[1..], piece);
    }
  }

  //// Resolving below the root

  predicate WithinRoot(root: Path, p: Path) { root <= p }

  function EnsureWithinRoot(root: Path, p: Path): Option<PathError> {
    if WithinRoot(root, p) then None else Some(Escapes)
  }

  /** Follow every link, the last one included. */
  method ResolveFollow(root: Path, links: Links, relative: Path) returns (r: Result<Path, PathError>)
    ensures r.Ok? ==> root <= r.value && links.canonicalize(root + relative) == Some(r.value)
    ensures r.Err? ==> Refused(root, links, relative, r.error)
  {
    var canonical := links.canonicalize(root + relative);
    if canonical.None? { return Err(Io); }
    var escape := EnsureWithinRoot(root, canonical.value);
    if escape.Some? { return Err(escape.value); }
    r := Ok(canonical.value);
  }

  /** Why a path cannot be followed: it has no link-free form, or that one lies outside the root. */
  ghost predicate Refused(root: Path, links: Links, relative: Path, error: PathError) {
    var canonical := links.canonicalize(root + relative);
    if canonical.None? then error == Io else !(root <= canonical.value) && error == Escapes
  }

  /**
   * Where the first `n` names lead: each prefix that exists is replaced by its link-free form, which
   * must lie inside the root; a prefix that does not exist yet is kept as written.
   */
  function Walk(root: Path, links: Links, relative: Path, n: nat): (r: Option<Path>)
    requires n <= |relative|
    ensures r.Some? ==> WithinRoot(root, r.value)
  {
    if n == 0 then Some(root)
    else match Walk(root, links, relative, n - 1)
      case None => None
      case Some(before) => WalkStep(root, links, before + [relative[n - 1]])
  }

  function WalkStep(root: Path, links: Links, next: Path): (r: Option<Path>)
    requires WithinRoot(root, next)
    ensures r.Some? ==> WithinRoot(root, r.value)
  {
    if !links.exists_(next) then Some(next)
    else match links.canonicalize(next)
      case None => None
      case Some(c) => if WithinRoot(root, c) then Some(c) else None
  }

  /** A walk that has failed stays failed. */
  lemma {:induction false} WalkFails(root: Path, links: Links, relative: Path, n: nat, m: nat)
    requires n <= m <= |relative| && Walk(root, links, relative, n).None?
    ensures Walk(root, links, relative, m).None?
    decreases m
  {
    if n < m { WalkFails(root, links, relative, n, m - 1); }
  }

  /** Resolve a path that may not exist yet. */
  method ResolveForCreate(root: Path, links: Links, relative: Path) returns (r: Result<Path, PathError>)
    ensures relative == [] ==> r == Err(RefersToRoot)
    ensures relative != [] ==>
              match Walk(root, links, relative, |relative|)
              case None => r == Err(Io) || r == Err(Escapes)
              case Some(p) => r == Ok(p) && root <= p
  {
    if relative == [] { return Err(RefersToRoot); }
    var current := root;
    var i := 0;
    while i < |relative|
      invariant 0 <= i <= |relative|
      invariant WithinRoot(root, current) && Walk(root, links, relative, i) == Some(current)
    {
      current := current + [relative[i]];
      if links.exists_(current) {
        var canonical := links.canonicalize(current);
        if canonical.None? {
          WalkFails(root, links, relative, i + 1, |relative|);
          return Err(Io);
        }
        var escape := EnsureWithinRoot(root, canonical.value);
        if escape.Some? {
          WalkFails(root, links, relative, i + 1, |relative|);
          return Err(escape.value);
        }
        current := canonical.value;
      }
      i := i + 1;
    }
    r := Ok(current);
  }

  /** Resolve the directory but not the entry itself; the root counts only where that is allowed. */
  method ResolvePreservingLeaf(root: Path, links: Links, relative: Path, allowRoot: bool)
    returns (r: Result<Path, PathError>)
    ensures relative == [] ==> r == if allowRoot then Ok(root) else Err(RefersToRoot)
    ensures relative != [] && r.Ok? ==>
              exists dir :: LeafDirectory(root, links, relative, dir) && r.value == dir + [relative[|relative| - 1]]
    ensures relative != [] && r.Err? ==> |relative| > 1 && Refused(root, links, relative[..|relative| - 1], r.error)
    ensures r.Ok? ==> root <= r.value
  {
    if relative == [] {
      return if allowRoot then Ok(root) else Err(RefersToRoot);
    }
    var parent := relative[..|relative| - 1];
    var dir := root;
    if parent != [] {
      var resolved := ResolveFollow(root, links, parent);
      if resolved.Err? { return Err(resolved.error); }
      dir := resolved.value;
    }
    assert LeafDirectory(root, links, relative, dir);
    r := Ok(dir + [relative[|relative| - 1]]);
  }

  /** The directory of an entry: the root for a single name, otherwise the link-free form, inside the root. */
  ghost predicate LeafDirectory(root: Path, links: Links, relative: Path, dir: Path)
    requires relative != []
  {
    && WithinRoot(root, dir)
    && if |relative| == 1 then dir == root else links.canonicalize(root + relative[..|relative| - 1]) == Some(dir)
  }

  //// Every resolver, every link layout

  datatype Mode = Follow | ForCreate | KeepLeaf(allowRoot: bool)

  /** From the raw request path to a host path: whatever the links are, it is the root or below it. */
  method Resolve(root: Path, links: Links, path: string, mode: Mode) returns (r: Result<Path, PathError>)
    ensures r.Ok? ==> root <= r.value
    ensures r.Ok? ==> !("/" <= Trim(path)) && !HasParent(Split(Trim(path)))
    ensures r.Ok? && RequestNames(path) == [] ==>
              !mode.ForCreate? && (mode.KeepLeaf? ==> mode.allowRoot && r.value == root)
  {
    var relative := NormalizeRelativePath(path);
    if relative.Err? { return Err(relative.error); }
    match mode {
      case Follow => r := ResolveFollow(root, links, relative.value);
      case ForCreate => r := ResolveForCreate(root, links, relative.value);
      case KeepLeaf(allowRoot) => r := ResolvePreservingLeaf(root, links, relative.value, allowRoot);
    }
  }

  /** The names of an accepted request path. */
  ghost function RequestNames(path: string): Path {
    if HasParent(Split(Trim(path))) then [] else Names(Split(Trim(path)))
  }
}
