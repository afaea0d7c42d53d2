/** The path logic of Sources/Directory.swift: the sandbox guard every
    change to the file system goes through, and how a listing turns what the
    operating system finds into paths relative to the listed directory.
    The operating system's answers are parameters: the `sandbox` flag, the
    current directory, the path with its symbolic links resolved, what a
    glob pattern matches (already typed as file or directory paths) and the
    recursive contents of a directory. */
module Directories {
  import opened General
  import opened Strings
  import opened Normaliser
  import opened Paths
  import opened PathLaws
  import opened Errors

  // ----- the sandbox -----

  /** `verifyIsInSandbox`: `current` is `DirectoryPath.current` and
      `resolved` is `p.resolvingSymlinks()`. */
  function VerifyIsInSandbox(p: Path, sandbox: bool, current: Path, resolved: Path): (r: Outcome<FileSystemError>)
    requires current.kind == Directory
    ensures !sandbox ==> r.Pass?
    ensures r.Fail? ==> r.error == OutsideSandbox(p)
  {
    if !sandbox then Pass
    else if IsAParentOf(current, p) then Pass
    else if IsAParentOf(current, resolved) then Pass
    else Fail(OutsideSandbox(p))
  }

  /** With the sandbox on, a path passes exactly when it, or what it
      resolves to, lies strictly below the current directory. */
  lemma SandboxPassesUnderCurrent(p: Path, current: Path, resolved: Path)
    requires current.kind == Directory
    ensures VerifyIsInSandbox(p, true, current, resolved).Pass?
      <==> Components(current) < Components(p) || Components(current) < Components(resolved)
  {
    IsAParentOfIsProperPrefix(current, p);
    IsAParentOfIsProperPrefix(current, resolved);
  }

  /** A path below the current directory passes whatever its symbolic links
      resolve to. */
  lemma UnderCurrentIgnoresLinks(p: Path, current: Path, resolved1: Path, resolved2: Path)
    requires current.kind == Directory && Components(current) < Components(p)
    ensures VerifyIsInSandbox(p, true, current, resolved1) == Pass
    ensures VerifyIsInSandbox(p, true, current, resolved2) == Pass
  {
    IsAParentOfIsProperPrefix(current, p);
  }

  /** The current directory itself is not in the sandbox. */
  lemma CurrentDirectoryRefused(p: Path, current: Path, resolved: Path)
    requires current.kind == Directory
    requires Components(p) == Components(current) && Components(resolved) == Components(current)
    ensures VerifyIsInSandbox(p, true, current, resolved) == Fail(OutsideSandbox(p))
  {
    IsAParentOfIsProperPrefix(current, p);
    IsAParentOfIsProperPrefix(current, resolved);
  }

  /** Creating "/tmp/<unique>" with a fresh temporary directory
      "/tmp/<name>" as the current directory is refused. */
  lemma TrespassingRefused(name: string, unique: string)
    requires name != unique
    ensures var trespassing := Absolute(Directory, ["tmp", unique]);
      VerifyIsInSandbox(trespassing, true, Absolute(Directory, ["tmp", name]), trespassing)
        == Fail(OutsideSandbox(trespassing))
  {
    var trespassing := Absolute(Directory, ["tmp", unique]);
    var current := Absolute(Directory, ["tmp", name]);
    IsAParentOfIsProperPrefix(current, trespassing);
  }

  /** With "/home/u/project" as the current directory: a file below it
      passes, a sibling directory and the directory itself are refused, and
      a path outside whose links resolve below it passes. */
  lemma SandboxScenarios(link: Path)
    requires Components(link) == ["home", "u", "link"]
    ensures var current := Absolute(Directory, ["home", "u", "project"]);
      && VerifyIsInSandbox(Absolute(File, ["home", "u", "project", "sub", "file"]), true, current,
           Absolute(File, ["home", "u", "project", "sub", "file"])) == Pass
      && VerifyIsInSandbox(Absolute(Directory, ["home", "u", "other"]), true, current,
           Absolute(Directory, ["home", "u", "other"])) == Fail(OutsideSandbox(Absolute(Directory, ["home", "u", "other"])))
      && VerifyIsInSandbox(current, true, current, current) == Fail(OutsideSandbox(current))
      && VerifyIsInSandbox(link, true, current, Absolute(Directory, ["home", "u", "project", "sub"])) == Pass
  {
    var current := Absolute(Directory, ["home", "u", "project"]);
    var inside := Absolute(File, ["home", "u", "project", "sub", "file"]);
    var other := Absolute(Directory, ["home", "u", "other"]);
    var target := Absolute(Directory, ["home", "u", "project", "sub"]);
    SandboxPassesUnderCurrent(inside, current, inside);
    assert Components(current) < Components(inside);
    SandboxPassesUnderCurrent(other, current, other);
    assert Components(other)[2] != Components(current)[2];
    CurrentDirectoryRefused(current, current, current);
    SandboxPassesUnderCurrent(link, current, target);
    assert Components(current) < Components(target);
  }

  /** `create(directory:)` of a plain name in the current directory appends
      the name to it, and the result passes the sandbox. */
  lemma NewDirectoryAllowed(current: Path, name: string, resolved: Path, homedir: string)
    requires current.kind == Directory && WellFormed(current)
    requires |name| > 0 && Separator !in name && name != "." && name != DotDot && name != "~"
    ensures Components(AppendDirectory(current, name, false, homedir)) == Components(current) + [name]
    ensures VerifyIsInSandbox(AppendDirectory(current, name, false, homedir), true, current, resolved) == Pass
  {
    assert Join([name]) == name;
    ParseRelativeParts([name], homedir);
    assert FilterSegments([name]) == [name];
    CollapseWithoutDotDots([name]);
    AppendNames(current, [name], Directory);
    var q := AppendDirectory(current, name, false, homedir);
    IsAParentOfIsProperPrefix(current, q);
    assert Components(current) < Components(current) + [name];
  }

  // ----- listings -----

  /** The re-basing in `filter`: the match with the directory's components
      as base and the match's components past as many as the directory has
      as relative part (none, if the match has fewer). */
  function Rebase(found: Path, dir: Path): (r: Path)
    ensures r.kind == found.kind
    ensures BaseComponents(r) == Some(Components(dir))
    ensures StartsWith(Components(found), Components(dir))
      ==> Components(dir) + RelativeComponents(r).value == Components(found)
  {
    var c := Components(found);
    var n := |Components(dir)|;
    Based(found.kind, Components(dir), if n <= |c| then c[n..] else [])
  }

  /** `filter(pattern:relativeTo:)` on the paths the pattern matched: the
      matches of the requested kind, in order, re-based on `dir`. */
  function Filter(found: seq<Path>, dir: Path, kind: Kind): (r: seq<Path>)
    ensures |r| <= |found|
    ensures forall i :: 0 <= i < |r| ==> r[i].kind == kind && BaseComponents(r[i]) == Some(Components(dir))
  {
    if |found| == 0 then []
    else (if found[0].kind == kind then [Rebase(found[0], dir)] else []) + Filter(found[1..], dir, kind)
  }

  /** The glob pattern `filter` is given for a directory: its absolute
      string, a separator and the pattern. */
  function GlobIn(dir: Path, pattern: string): (r: string)
    ensures HasPrefix(r, AbsoluteString(dir))
    ensures HasSuffix(r, [Separator] + pattern)
  {
    assert (AbsoluteString(dir) + [Separator] + pattern)[..|AbsoluteString(dir)|] == AbsoluteString(dir);
    assert (AbsoluteString(dir) + [Separator] + pattern)[|AbsoluteString(dir)|..] == [Separator] + pattern;
    AbsoluteString(dir) + [Separator] + pattern
  }

  /** The recursive part of `filesOrDirectories`: for every directory among
      the contents, in order, the matches of the pattern in it, re-based on
      the listed directory `dir`. */
  function FromSubdirectories(contents: seq<Path>, dir: Path, pattern: string, kind: Kind, glob: string -> seq<Path>): (r: seq<Path>)
    ensures forall i :: 0 <= i < |r| ==> r[i].kind == kind && BaseComponents(r[i]) == Some(Components(dir))
  {
    if |contents| == 0 then []
    else
      (if contents[0].kind == Directory then Filter(glob(GlobIn(contents[0], pattern)), dir, kind) else [])
        + FromSubdirectories(contents[1..], dir, pattern, kind, glob)
  }

  /** `filesOrDirectories(_:recursive:)`: `glob` is what a pattern matches
      and `contents` what the recursive listing of `dir` holds. */
  function FilesOrDirectories(dir: Path, pattern: string, kind: Kind, recursive: bool,
                              glob: string -> seq<Path>, contents: seq<Path>): (r: seq<Path>)
    ensures var top := Filter(glob(GlobIn(dir, pattern)), dir, kind);
      |top| <= |r| && r[..|top|] == top && (!recursive ==> r == top)
    ensures forall i :: 0 <= i < |r| ==> r[i].kind == kind && BaseComponents(r[i]) == Some(Components(dir))
  {
    var top := Filter(glob(GlobIn(dir, pattern)), dir, kind);
    var r := top + (if !recursive then [] else FromSubdirectories(contents, dir, pattern, kind, glob));
    assert r[..|top|] == top;
    r
  }

  // ----- laws of the listing -----

  /** The matches come from `path(detectTypeOf:)`, which only makes
      directory and file paths; asking for `AnyPath` then finds nothing,
      since neither casts to it. */
  lemma {:induction false} FilterTypedForAnyKind(found: seq<Path>, dir: Path)
    requires forall i :: 0 <= i < |found| ==> found[i].kind != AnyKind
    ensures Filter(found, dir, AnyKind) == []
  {
    if |found| > 0 {
      FilterTypedForAnyKind(found[1..], dir);
    }
  }

  /** Filtering two lists of matches one after the other gives the two
      results one after the other: the order of the matches is kept. */
  lemma {:induction false} FilterAppend(a: seq<Path>, b: seq<Path>, dir: Path, kind: Kind)
    ensures Filter(a + b, dir, kind) == Filter(a, dir, kind) + Filter(b, dir, kind)
  {
    if |a| > 0 {
      var head := if a[0].kind == kind then [Rebase(a[0], dir)] else [];
      assert (a + b)[0] == a[0] && (a + b)[1..] == a[1..] + b;
      assert Filter(a + b, dir, kind) == head + Filter(a[1..] + b, dir, kind);
      FilterAppend(a[1..], b, dir, kind);
      assert Filter(a, dir, kind) == head + Filter(a[1..], dir, kind);
    } else {
      assert a + b == b;
    }
  }

  /** A match is listed, re-based, exactly when it is of the requested kind;
      nothing else is listed. */
  lemma {:induction false} FilterKeepsMatchesOfKind(found: seq<Path>, dir: Path, kind: Kind, q: Path)
    ensures q in Filter(found, dir, kind) <==> exists p :: p in found && p.kind == kind && q == Rebase(p, dir)
  {
    if |found| > 0 {
      FilterKeepsMatchesOfKind(found[1..], dir, kind, q);
      assert found == [found[0]] + found[1..];
      if exists p :: p in found && p.kind == kind && q == Rebase(p, dir) {
        var p :| p in found && p.kind == kind && q == Rebase(p, dir);
        if p != found[0] {
          assert p in found[1..];
        }
      }
    }
  }

  /** For a match below the directory with normal components, the re-based
      path points to the same item. */
  lemma RebaseSameItem(found: Path, dir: Path)
    requires StartsWith(Components(found), Components(dir)) && Normal(Components(found))
    ensures Components(Rebase(found, dir)) == Components(found)
  {
    var c := Components(found);
    var r := Rebase(found, dir);
    assert r.stored == Components(dir) + c[|Components(dir)|..] == c;
    CollapseFixesLeading(c);
  }

  /** The string of a match re-based on the directory holding it is its
      path below that directory. */
  lemma RebasedString(found: Path, dir: Path, names: seq<string>)
    requires Components(found) == Components(dir) + names && |Join(names)| > 0
    ensures PathString(Rebase(found, dir)) == Join(names)
  {
    var c := Components(found);
    assert c[|Components(dir)|..] == names;
    assert RelativeComponents(Rebase(found, dir)) == Some(names);
  }

  /** A directory's `files()` lists the files in it by their names, in the
      order they were found, and leaves out its subdirectories. */
  lemma FilesExample(d: seq<string>)
    ensures var dir := Absolute(Directory, d);
      var found := [Absolute(File, d + ["file.txt"]), Absolute(Directory, d + ["dir"]), Absolute(File, d + ["file2.txt"])];
      var r := Filter(found, dir, File);
      |r| == 2 && PathString(r[0]) == "file.txt" && PathString(r[1]) == "file2.txt"
  {
    var dir := Absolute(Directory, d);
    var f1, sub, f2 := Absolute(File, d + ["file.txt"]), Absolute(Directory, d + ["dir"]), Absolute(File, d + ["file2.txt"]);
    var found := [f1, sub, f2];
    assert found[1..] == [sub, f2] && found[1..][1..] == [f2] && found[1..][1..][1..] == [];
    assert Filter([f2], dir, File) == [Rebase(f2, dir)];
    assert Filter([sub, f2], dir, File) == [Rebase(f2, dir)];
    assert Filter(found, dir, File) == [Rebase(f1, dir), Rebase(f2, dir)];
    assert Join(["file.txt"]) == "file.txt" && Join(["file2.txt"]) == "file2.txt";
    RebasedString(f1, dir, ["file.txt"]);
    RebasedString(f2, dir, ["file2.txt"]);
  }
}
