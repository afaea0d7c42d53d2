/** The legacy revision of the path model (Sources/Paths.swift).  Its path
    type, accessors, string forms, names, `parent`, `absolute`, the
    internal `appendComponents` and `dir + path` are the same code as in
    the current revision and are shared with module Paths; this module
    holds what the legacy revision does differently: the home directory in
    `parseComponents`, the string initialisers built on it, `append`
    without a `relative` flag, a reflexive `isAParentOf` and an `==` that
    compares only the relative parts of two based paths. */
module LegacyPaths {
  import opened General
  import opened Strings
  import opened Normaliser
  import Paths

  type Path = Paths.Path
  type Kind = Paths.Kind

  /** `parseComponents`: as in the current revision, except that a first
      part "~" is replaced by ALL parts of the home directory's string,
      unfiltered, in front of the prepared rest. */
  function ParseComponents(s: string, homedir: string): (r: (seq<string>, bool))
    ensures r.1 <==> (|s| == 0 || s[0] != Separator) && Split(s)[0] != "~"
    ensures Split(s)[0] != "~" ==> r == Paths.ParseComponents(s, homedir)
    ensures Split(s)[0] != "~" ==> Normal(r.0)
  {
    var stringpath := if |s| == 0 then "." else s;
    var parts := Split(stringpath);
    assert |s| > 0 ==> parts == Split(s);
    assert |s| == 0 ==> parts == ["."] by { SplitNoSeparator("."); }
    if parts[0] == "" then (Paths.PrepareComponents(parts), false)
    else if parts[0] == "~" then (Split(homedir) + Paths.PrepareComponents(parts[1..]), false)
    else (Paths.PrepareComponents(parts), true)
  }

  /** `init(_ stringpath:)`, on the legacy parser. */
  function FromString(kind: Kind, s: string, cwd: string, homedir: string): (p: Path)
    requires !(kind == Paths.File && EndsWithSeparator(s))
    ensures p.kind == kind
    ensures Paths.RelativeComponents(p).Some? <==> ParseComponents(s, homedir).1
    ensures Split(s)[0] != "~" ==> p == Paths.FromString(kind, s, cwd, homedir)
  {
    var (components, isrelative) := ParseComponents(s, homedir);
    if isrelative then Paths.Based(kind, Paths.CurrentComponents(cwd), components)
    else Paths.Absolute(kind, components)
  }

  /** `init(base: String, relative: String)`, on the legacy parser. */
  function FromBaseAndRelative(kind: Kind, base: string, relative: string, cwd: string, homedir: string): (p: Path)
    requires !(kind == Paths.File && EndsWithSeparator([Separator] + relative))
    ensures p.kind == kind
    ensures Paths.BaseComponents(p) == Some(Paths.Components(FromString(Paths.Directory, base, cwd, homedir)))
    ensures Split(base)[0] != "~" ==> p == Paths.FromBaseAndRelative(kind, base, relative, cwd, homedir)
  {
    SplitPrefix("", relative);
    assert "" + [Separator] + relative == [Separator] + relative;
    var rel := FromString(kind, [Separator] + relative, cwd, homedir);
    var b := FromString(Paths.Directory, base, cwd, homedir);
    Paths.Based(kind, Paths.Components(b), Paths.Components(rel))
  }

  /** `root`: the path parsed from "/". */
  function Root(cwd: string, homedir: string): (r: Path)
    ensures r == Paths.Root()
  {
    assert Split("/") == ["", ""];
    assert Paths.FilterSegments(["", ""]) == [];
    FromString(Paths.Directory, [Separator], cwd, homedir)
  }

  /** `append(file:)` (and `dir + "string"` for a file): the parsed
      components appended to the directory; there is no `relative` flag. */
  function AppendFile(dir: Path, stringpath: string, homedir: string): (r: Path)
    requires dir.kind == Paths.Directory
    ensures r.kind == Paths.File
    ensures Paths.BaseComponents(r) == Paths.BaseComponents(dir)
    ensures Split(stringpath)[0] != "~" ==> r == Paths.AppendFile(dir, stringpath, false, homedir)
  {
    Paths.Append(dir, ParseComponents(stringpath, homedir).0, Paths.File)
  }

  /** `append(directory:)` (and `dir + "string"` for a directory). */
  function AppendDirectory(dir: Path, stringpath: string, homedir: string): (r: Path)
    requires dir.kind == Paths.Directory
    ensures r.kind == Paths.Directory
    ensures Paths.BaseComponents(r) == Paths.BaseComponents(dir)
    ensures Split(stringpath)[0] != "~" ==> r == Paths.AppendDirectory(dir, stringpath, false, homedir)
  {
    Paths.Append(dir, ParseComponents(stringpath, homedir).0, Paths.Directory)
  }

  /** `isAParentOf`: the absolute components of `p` start with those of the
      directory; a directory counts as a parent of itself. */
  predicate IsAParentOf(dir: Path, p: Path)
    requires dir.kind == Paths.Directory
    ensures IsAParentOf(dir, p) ==> |Paths.Components(dir)| <= |Paths.Components(p)|
  {
    Paths.StartsWith(Paths.Components(Paths.AbsolutePath(p)), Paths.Components(Paths.AbsolutePath(dir)))
  }

  /** `==`: two based paths are equal when their relative parts are, whatever
      their bases; otherwise the components decide. */
  predicate Equal(left: Path, right: Path)
    requires left.kind == right.kind
    ensures Equal(left, right) ==>
      (Paths.RelativeComponents(left).Some? && Paths.RelativeComponents(right).Some?)
      || Paths.Components(left) == Paths.Components(right)
  {
    if Paths.RelativeComponents(left).Some? && Paths.RelativeComponents(right).Some? then
      Paths.RelativeComponents(left).value == Paths.RelativeComponents(right).value
    else Paths.Components(left) == Paths.Components(right)
  }

  // ----- laws -----

  /** The legacy `isAParentOf` is a prefix test on the components. */
  lemma IsAParentOfIsPrefix(dir: Path, p: Path)
    requires dir.kind == Paths.Directory
    ensures IsAParentOf(dir, p) <==> Paths.Components(dir) <= Paths.Components(p)
  {
  }

  /** It holds exactly when the current revision's holds or the two paths
      have the same components. */
  lemma IsAParentOfAgainstCurrent(dir: Path, p: Path)
    requires dir.kind == Paths.Directory
    ensures IsAParentOf(dir, p) <==> Paths.IsAParentOf(dir, p) || Paths.Components(dir) == Paths.Components(p)
  {
    var c, d := Paths.Components(p), Paths.Components(dir);
    if d <= c && |c| == |d| {
      assert c == c[..|d|];
    }
  }

  lemma IsAParentOfReflexive(dir: Path)
    requires dir.kind == Paths.Directory
    ensures IsAParentOf(dir, dir)
    ensures !Paths.IsAParentOf(dir, dir)
  {
  }

  /** Legacy `==` is reflexive and symmetric. */
  lemma EqualReflexiveSymmetric(a: Path, b: Path)
    requires a.kind == b.kind
    ensures Equal(a, a)
    ensures Equal(a, b) <==> Equal(b, a)
  {
  }

  /** Two based paths with the same relative part are equal, whatever their
      bases. */
  lemma EqualIgnoresBase(kind: Kind, base1: seq<string>, base2: seq<string>, rel: seq<string>)
    ensures Equal(Paths.Based(kind, base1, rel), Paths.Based(kind, base2, rel))
  {
  }

  // ----- what the legacy revision gets wrong -----

  /** With a home directory starting with "/", a string starting with "~"
      gets an empty first component, so its components are not normal and
      its absolute string starts with "//". */
  lemma TildeKeepsEmptyComponent(kind: Kind, rest: string, cwd: string, homedir: string)
    requires |homedir| > 0 && homedir[0] == Separator
    requires !(kind == Paths.File && EndsWithSeparator("~" + [Separator] + rest))
    ensures var c := Paths.Components(FromString(kind, "~" + [Separator] + rest, cwd, homedir));
      |c| >= 2 && c[0] == "" && !Normal(c)
    ensures var a := Paths.AbsoluteString(FromString(kind, "~" + [Separator] + rest, cwd, homedir));
      |a| >= 2 && a[..2] == [Separator, Separator]
  {
    SplitPrefix("~", rest);
    var h := Split(homedir);
    assert h[0] == "";
    assert |h| >= 2 by {
      assert homedir == "" + [Separator] + homedir[1..];
      SplitPrefix("", homedir[1..]);
    }
    var c := Paths.Components(FromString(kind, "~" + [Separator] + rest, cwd, homedir));
    assert c == h + Paths.PrepareComponents(Split(rest));
    assert c[0] == "" && |c| >= 2;
    assert Join(c) == c[0] + [Separator] + Join(c[1..]);
  }

  /** Equal paths whose strings differ: `hashValue` hashes the string, so
      equal values need not hash alike. */
  lemma EqualButDifferentStrings()
    ensures Equal(Paths.Based(Paths.File, ["tmp"], ["f"]), Paths.Absolute(Paths.File, ["tmp", "f"]))
    ensures Paths.PathString(Paths.Based(Paths.File, ["tmp"], ["f"])) == "f"
    ensures Paths.PathString(Paths.Absolute(Paths.File, ["tmp", "f"])) == "/tmp/f"
  {
    assert ["tmp"] + ["f"] == ["tmp", "f"];
  }

  /** Legacy `==` is not transitive: a based path equals the absolute path
      it denotes and any based path with the same relative part, but those
      two differ. */
  lemma EqualNotTransitive()
    ensures Equal(Paths.Absolute(Paths.File, ["a", "f"]), Paths.Based(Paths.File, ["a"], ["f"]))
    ensures Equal(Paths.Based(Paths.File, ["a"], ["f"]), Paths.Based(Paths.File, ["b"], ["f"]))
    ensures !Equal(Paths.Absolute(Paths.File, ["a", "f"]), Paths.Based(Paths.File, ["b"], ["f"]))
  {
    assert ["a"] + ["f"] == ["a", "f"];
    assert ["b"] + ["f"] == ["b", "f"];
  }
}
