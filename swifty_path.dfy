/** The oldest revision of the path model (Sources/SwiftyPath.swift).  A
    path stores its components and, when relative, the index where the
    relative part starts.  Strings are split on "/" and kept verbatim: no
    empty, "." or ".." part is removed or resolved.  The components of the
    home and current directories, which the code asks the operating system
    for, are parameters. */
module SwiftyPath {
  import opened General
  import opened Strings

  datatype Kind = Directory | File

  datatype RawPath = RawPath(kind: Kind, components: seq<string>, relativeStart: Option<nat>)

  /** The relative part starts inside the components. */
  type Path = p: RawPath | p.relativeStart.Some? ==> p.relativeStart.value <= |p.components|
    witness RawPath(Directory, [], None)

  /** `init(base:relative:)`. */
  function Based(kind: Kind, base: seq<string>, relative: seq<string>): (p: Path)
    ensures p.relativeStart == Some(|base|)
    ensures p.components[..|base|] == base && p.components[|base|..] == relative
  {
    RawPath(kind, base + relative, Some(|base|))
  }

  // ----- initialisers -----

  /** `initPath` of a collection: a first part "~" is replaced by the home
      directory's components, a first part "/" is dropped, and anything else
      (also no part at all) is put after the current directory's components
      as the relative part.  The parts are kept as they are. */
  function InitPathCollection(c: seq<string>, home: seq<string>, current: seq<string>): (r: (seq<string>, Option<nat>))
    ensures r.1.Some? <==> |c| == 0 || (c[0] != "~" && c[0] != "/")
    ensures r.1.Some? ==> r.1.value == |current| <= |r.0| && r.0[..r.1.value] == current && r.0[r.1.value..] == c
    ensures r.1.None? ==> |c| > 0 && |c| - 1 <= |r.0| && r.0[|r.0| - (|c| - 1)..] == c[1..]
  {
    if |c| > 0 && c[0] == "~" then (home + c[1..], None)
    else if |c| == 0 || c[0] != "/" then (current + c, Some(|current|))
    else (c[1..], None)
  }

  /** The parts without one empty last part. */
  function DropTrailingEmpty(parts: seq<string>): (r: seq<string>)
    ensures r <= parts
    ensures |parts| > 0 && parts[|parts| - 1] == "" ==> |r| == |parts| - 1
    ensures !(|parts| > 0 && parts[|parts| - 1] == "") ==> r == parts
  {
    if |parts| > 0 && parts[|parts| - 1] == "" then parts[..|parts| - 1] else parts
  }

  /** What `initPath` makes of a string: a string starting with "/" (or the
      empty string) is absolute, one whose first part is "~" is under the
      home directory, any other is relative to the current directory; one
      empty last part (a trailing "/") is dropped. */
  function ParseString(s: string, home: seq<string>, current: seq<string>): (r: (seq<string>, Option<nat>))
    ensures r.1.Some? <==> |s| > 0 && s[0] != Separator && Split(s)[0] != "~"
    ensures r.1.Some? ==> r.1.value == |current| <= |r.0|
  {
    var parts := Split(s);
    if |s| == 0 || s[0] == Separator then (DropTrailingEmpty(parts[1..]), None)
    else if parts[0] == "~" then (home + DropTrailingEmpty(parts[1..]), None)
    else (current + DropTrailingEmpty(parts), Some(|current|))
  }

  /** `initPath` of a string: splits it, marks an empty first part as "/",
      removes an empty last part, and hands the parts to the collection
      form. */
  method InitPathString(s: string, home: seq<string>, current: seq<string>) returns (components: seq<string>, relativeStart: Option<nat>)
    ensures (components, relativeStart) == ParseString(s, home, current)
  {
    components := Split(s);
    ghost var parts := components;
    if components[0] == "" {
      components := components[0 := "/"];
    }
    if components[|components| - 1] == "" {
      components := components[..|components| - 1];
    }
    assert |parts| > 1 ==> components[1..] == DropTrailingEmpty(parts[1..]);
    assert parts[0] != "" ==> components == DropTrailingEmpty(parts);
    components, relativeStart := InitPathCollection(components, home, current).0, InitPathCollection(components, home, current).1;
  }

  /** `DirectoryPath(_ string:)` and `FilePath(_ string:)`; a FilePath
      cannot be made from a string ending in "/". */
  function FromString(kind: Kind, s: string, home: seq<string>, current: seq<string>): (p: Path)
    requires kind == File ==> !EndsWithSeparator(s)
    ensures p.kind == kind
    ensures (p.components, p.relativeStart) == ParseString(s, home, current)
  {
    var (components, relativeStart) := ParseString(s, home, current);
    RawPath(kind, components, relativeStart)
  }

  /** `DirectoryPath(_ collection:)` and `FilePath(_ collection:)`; a
      FilePath needs at least one part and must not end in "/". */
  function FromCollection(kind: Kind, c: seq<string>, home: seq<string>, current: seq<string>): (p: Path)
    requires kind == File ==> |c| > 0
    requires kind == File ==> var r := InitPathCollection(c, home, current).0; |r| == 0 || r[|r| - 1] != "/"
    ensures p.kind == kind
    ensures (p.components, p.relativeStart) == InitPathCollection(c, home, current)
  {
    var (components, relativeStart) := InitPathCollection(c, home, current);
    RawPath(kind, components, relativeStart)
  }

  /** `root`: the path parsed from "/". */
  function Root(home: seq<string>, current: seq<string>): (r: Path)
    ensures r.kind == Directory && r.components == [] && r.relativeStart.None?
  {
    SplitPrefix("", "");
    assert "" + [Separator] + "" == [Separator];
    FromString(Directory, [Separator], home, current)
  }

  // ----- accessors -----

  function RelativeComponents(p: Path): (r: Option<seq<string>>)
    ensures r.Some? <==> p.relativeStart.Some?
    ensures r.Some? ==> BaseComponents(p).value + r.value == p.components
  {
    match p.relativeStart
    case None => None
    case Some(i) => Some(p.components[i..])
  }

  function BaseComponents(p: Path): (r: Option<seq<string>>)
    ensures r.Some? <==> p.relativeStart.Some?
    ensures r.Some? ==> r.value <= p.components
  {
    match p.relativeStart
    case None => None
    case Some(i) => Some(p.components[..i])
  }

  /** `relativeString`: the relative part joined by "/"; an empty relative
      part gives the empty string. */
  function RelativeString(p: Path): (r: Option<string>)
    ensures r.None? <==> p.relativeStart.None?
  {
    match RelativeComponents(p)
    case None => None
    case Some(rel) => Some(Join(rel))
  }

  /** `string`: the relative string, or "/" and all components joined. */
  function PathString(p: Path): (r: string)
    ensures p.relativeStart.None? ==> |r| > 0 && r[0] == Separator
  {
    RelativeString(p).GetOr([Separator] + Join(p.components))
  }

  /** `base`: the components before the relative part, as an absolute
      directory. */
  function Base(p: Path): (r: Option<Path>)
    ensures r.None? <==> p.relativeStart.None?
    ensures r.Some? ==>
      r.value.kind == Directory && r.value.relativeStart.None? && r.value.components + RelativeComponents(p).value == p.components
  {
    match BaseComponents(p)
    case None => None
    case Some(b) => Some(RawPath(Directory, b, None))
  }

  /** `absolute`: the same components, without a base. */
  function AbsolutePath(p: Path): (r: Path)
    ensures r.kind == p.kind && r.components == p.components && r.relativeStart.None?
    ensures PathString(r) == [Separator] + Join(p.components)
  {
    RawPath(p.kind, p.components, None)
  }

  /** `name`: the last component; the code traps when there is none (the
      root). */
  function Name(p: Path): string
    requires |p.components| > 0
  {
    p.components[|p.components| - 1]
  }

  /** `extension`: the name split on "."; none when there is one piece, or
      two with an empty first one (".name"); otherwise the last piece. */
  function Extension(p: Path): (r: Option<string>)
    requires |p.components| > 0
    ensures r.Some? ==> '.' !in r.value && '.' in Name(p)
  {
    SplitOnSingle(Name(p), '.');
    var nameparts := SplitOn(Name(p), '.');
    if |nameparts| == 1 || (|nameparts| == 2 && nameparts[0] == "") then None
    else Some(nameparts[|nameparts| - 1])
  }

  /** `dir + path` (for both a FilePath and a DirectoryPath on the right):
      the directory's components become the base and the right path's
      relative part (or its components) the relative part. */
  function Plus(dir: Path, right: Path): (r: Path)
    requires dir.kind == Directory
    ensures r.kind == right.kind
    ensures BaseComponents(r) == Some(dir.components)
    ensures RelativeComponents(r) == Some(RelativeComponents(right).GetOr(right.components))
  {
    Based(right.kind, dir.components, RelativeComponents(right).GetOr(right.components))
  }

  // ----- laws -----

  /** "/" followed by parts (without an empty last part) gives exactly those
      parts: nothing is filtered or resolved. */
  lemma AbsoluteKeepsParts(parts: seq<string>, home: seq<string>, current: seq<string>)
    requires SeparatorFree(parts) && (|parts| == 0 || parts[|parts| - 1] != "")
    ensures ParseString([Separator] + Join(parts), home, current) == (parts, None)
  {
    var s := [Separator] + Join(parts);
    SplitPrefix("", Join(parts));
    assert "" + [Separator] + Join(parts) == s;
    assert Split(s)[1..] == Split(Join(parts));
    if |parts| > 0 {
      SplitJoin(parts);
      assert DropTrailingEmpty(Split(s)[1..]) == parts;
    } else {
      assert Split(Join(parts)) == [""];
    }
  }

  /** Parts whose first is neither empty nor "~" are put after the current
      directory unchanged. */
  lemma RelativeKeepsParts(parts: seq<string>, home: seq<string>, current: seq<string>)
    requires SeparatorFree(parts) && |parts| > 0 && parts[0] != "" && parts[0] != "~" && parts[|parts| - 1] != ""
    ensures ParseString(Join(parts), home, current) == (current + parts, Some(|current|))
  {
    SplitJoin(parts);
    assert |Join(parts)| > 0 && Join(parts)[0] == parts[0][0] by {
      if |parts| > 1 {
        assert Join(parts) == parts[0] + [Separator] + Join(parts[1..]);
      }
    }
  }

  /** "~/" followed by parts gives the home directory's components and then
      those parts. */
  lemma TildeKeepsParts(parts: seq<string>, home: seq<string>, current: seq<string>)
    requires SeparatorFree(parts) && |parts| > 0 && parts[|parts| - 1] != ""
    ensures ParseString("~" + [Separator] + Join(parts), home, current) == (home + parts, None)
  {
    SplitPrefix("~", Join(parts));
    SplitJoin(parts);
    assert ("~" + [Separator] + Join(parts))[0] == '~';
    assert (["~"] + parts)[1..] == parts;
  }

  /** One trailing "/" makes no difference. */
  lemma TrailingSeparatorDropped(s: string, home: seq<string>, current: seq<string>)
    requires |s| > 0 && !EndsWithSeparator(s)
    ensures ParseString(s + [Separator], home, current) == ParseString(s, home, current)
  {
    SplitTrailing(s);
    DropTrailingEmptySnoc(Split(s));
  }

  /** A trailing "/" adds one empty last part to a string that has none. */
  lemma SplitTrailing(s: string)
    requires |s| > 0 && !EndsWithSeparator(s)
    ensures Split(s + [Separator]) == Split(s) + [""]
    ensures Split(s)[|Split(s)| - 1] != ""
    ensures |s + [Separator]| > 0 && (s + [Separator])[0] == s[0]
  {
    SplitAppend(s, "");
    assert s + [Separator] + "" == s + [Separator];
    SplitOnEndsEmpty(s, Separator);
  }

  lemma DropTrailingEmptySnoc(ps: seq<string>)
    requires |ps| > 0 && ps[|ps| - 1] != ""
    ensures (ps + [""])[0] == ps[0]
    ensures DropTrailingEmpty(ps + [""]) == ps == DropTrailingEmpty(ps)
    ensures DropTrailingEmpty((ps + [""])[1..]) == DropTrailingEmpty(ps[1..])
  {
    assert (ps + [""])[1..] == ps[1..] + [""];
    assert (ps + [""])[..|ps|] == ps;
  }

  /** `dir + path` always renders as the right path's relative part (or
      components): the directory shows up only in the base and in the
      absolute form. */
  lemma PlusRendersRightSide(dir: Path, right: Path)
    requires dir.kind == Directory
    ensures PathString(Plus(dir, right)) == Join(RelativeComponents(right).GetOr(right.components))
    ensures PathString(Base(Plus(dir, right)).value) == [Separator] + Join(dir.components)
    ensures PathString(AbsolutePath(Plus(dir, right))) == [Separator] + Join(dir.components + RelativeComponents(right).GetOr(right.components))
  {
  }

  /** An empty relative part renders as the empty string; for instance a
      directory plus the root. */
  lemma PlusRootRendersEmpty(dir: Path, home: seq<string>, current: seq<string>)
    requires dir.kind == Directory
    ensures PathString(Plus(dir, Root(home, current))) == ""
  {
    PlusRendersRightSide(dir, Root(home, current));
  }

  /** The name is what follows the last "/" of the absolute string. */
  lemma NameIsLastPiece(p: Path)
    requires |p.components| > 0 && SeparatorFree(p.components)
    ensures var a := Split(PathString(AbsolutePath(p))); Name(p) == a[|a| - 1]
  {
    SplitAfterSeparator(Join(p.components));
    SplitJoin(p.components);
  }

  /** No extension exactly when the name has no "." or its only "." is the
      first character. */
  lemma NoExtension(p: Path)
    requires |p.components| > 0
    ensures Extension(p).None? <==> '.' !in Name(p) || (Name(p)[0] == '.' && '.' !in Name(p)[1..])
  {
    var name := Name(p);
    SplitOnSingle(name, '.');
    if |name| > 0 {
      SplitOnSingle(name[1..], '.');
      assert '.' in name <==> name[0] == '.' || '.' in name[1..];
    }
  }

  /** An extension is the text after the last "." of the name. */
  lemma ExtensionAfterLastDot(p: Path)
    requires |p.components| > 0 && Extension(p).Some?
    ensures '.' in Name(p) && Extension(p).value == Name(p)[LastIndex(Name(p), '.').value + 1..]
  {
    SplitOnSingle(Name(p), '.');
    SplitOnLastPiece(Name(p), '.');
  }

  /** A name ending in "." (and not starting with one) has the empty
      extension. */
  lemma TrailingDotGivesEmptyExtension(p: Path)
    requires |p.components| > 0
    requires var name := Name(p); |name| >= 2 && name[|name| - 1] == '.' && name[0] != '.'
    ensures Extension(p) == Some("")
  {
    var name := Name(p);
    NoExtension(p);
    LastIndexIsUnique(name, '.', |name| - 1);
    ExtensionAfterLastDot(p);
  }

  // ----- the example of Tests/SwiftyPathTests/SwiftyPathTests.swift -----

  lemma ParseTmp(home: seq<string>, current: seq<string>)
    ensures FromString(Directory, "/tmp", home, current) == RawPath(Directory, ["tmp"], None)
  {
    SplitPrefix("", "tmp");
    assert "" + [Separator] + "tmp" == "/tmp";
    SplitNoSeparator("tmp");
  }

  lemma ParseFile(home: seq<string>, current: seq<string>)
    ensures FromString(Directory, "file", home, current) == RawPath(Directory, current + ["file"], Some(|current|))
  {
    SplitNoSeparator("file");
  }

  /** `DirectoryPath("/tmp") + "file"` (the string literal is read as a
      DirectoryPath) renders as "file", not "/tmp/file"; only its absolute
      form is "/tmp/file". */
  lemma PlusTestDisagreement(home: seq<string>, current: seq<string>)
    ensures PathString(Plus(FromString(Directory, "/tmp", home, current), FromString(Directory, "file", home, current))) == "file"
    ensures PathString(AbsolutePath(Plus(FromString(Directory, "/tmp", home, current), FromString(Directory, "file", home, current)))) == "/tmp/file"
  {
    ParseTmp(home, current);
    ParseFile(home, current);
    var d, f := RawPath(Directory, ["tmp"], None), RawPath(Directory, current + ["file"], Some(|current|));
    assert RelativeComponents(f) == Some(["file"]);
    PlusRendersRightSide(d, f);
    TmpFileString();
  }

  lemma TmpFileString()
    ensures Join(["file"]) == "file"
    ensures [Separator] + Join(["tmp"] + ["file"]) == "/tmp/file"
  {
    JoinSnoc(["tmp"], "file");
  }
}
