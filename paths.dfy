/** The path value model of the current revision (Sources/FileSmith/Paths.swift):
    one stored component list with an optional split index, a kind tag in
    place of the three wrapper structs, the string parser, the accessors and
    the path arithmetic.  The operating system's answers (the current
    directory, the home directory) are parameters. */
module Paths {
  import opened General
  import opened Strings
  import opened Normaliser

  /** Which of `AnyPath`, `DirectoryPath` and `FilePath` a value is. */
  datatype Kind = AnyKind | Directory | File

  /** `_components` and `_relativestart`. */
  datatype RawPath = RawPath(kind: Kind, stored: seq<string>, relativeStart: Option<nat>)

  /** The split index never passes the end of the stored list: it is always
      set to the end index of a base that was concatenated in front. */
  type Path = p: RawPath | p.relativeStart.Some? ==> p.relativeStart.value <= |p.stored|
    witness RawPath(AnyKind, [], None)

  // ----- construction from component lists -----

  /** `init(absolute:)`. */
  function Absolute(kind: Kind, components: seq<string>): (p: Path)
    ensures p.kind == kind
    ensures BaseComponents(p).None? && RelativeComponents(p).None?
    ensures Components(p) == components
  {
    RawPath(kind, components, None)
  }

  /** `init(base:relative:)`: stores `base + relative` and remembers where the
      relative part starts; nothing is normalised. */
  function Based(kind: Kind, base: seq<string>, relative: seq<string>): (p: Path)
    ensures p.kind == kind
    ensures BaseComponents(p) == Some(base) && RelativeComponents(p) == Some(relative)
  {
    RawPath(kind, base + relative, Some(|base|))
  }

  // ----- accessors -----

  /** `relativeComponents`: the stored parts from the split index on, when
      there is one. */
  function RelativeComponents(p: Path): (r: Option<seq<string>>)
    ensures r.None? <==> BaseComponents(p).None?
    ensures r.Some? ==> BaseComponents(p).value + r.value == p.stored
  {
    match p.relativeStart
    case None => None
    case Some(k) => Some(p.stored[k..])
  }

  /** `baseComponents`: the stored parts before the split index. */
  function BaseComponents(p: Path): (r: Option<seq<string>>)
    ensures r.Some? <==> p.relativeStart.Some?
    ensures r.Some? ==> r.value <= p.stored
  {
    match p.relativeStart
    case None => None
    case Some(k) => Some(p.stored[..k])
  }

  /** `components`: the stored list, collapsed again only when the relative
      part is not empty and starts with "..", the one case where a ".." can
      meet a name of the base. */
  function Components(p: Path): seq<string>
  {
    if p.relativeStart.Some? && p.relativeStart.value != |p.stored| && p.stored[p.relativeStart.value] == DotDot
    then Collapse(p.stored)
    else p.stored
  }

  /** What every path built by the library satisfies: base and relative part
      (or the whole list, when there is no base) are normal. */
  predicate WellFormed(p: Path)
  {
    match p.relativeStart
    case None => Normal(p.stored)
    case Some(k) => Normal(p.stored[..k]) && Normal(p.stored[k..])
  }

  /** The shortcut in `components` is sound: for a well-formed path it is the
      full collapse of base and relative part, and so it is normal as its
      documentation promises. */
  lemma ComponentsNormal(p: Path)
    requires WellFormed(p)
    ensures Components(p) == Collapse(p.stored)
    ensures Normal(Components(p))
  {
    match p.relativeStart
    case None =>
      CollapseFixesLeading(p.stored);
    case Some(k) =>
      var base, rel := p.stored[..k], p.stored[k..];
      assert p.stored == base + rel;
      if k != |p.stored| && p.stored[k] == DotDot {
        assert NoEmptyOrDot(p.stored);
        CollapseNormal(p.stored);
      } else {
        assert DotDot !in rel;
        NormalConcat(base, rel);
        CollapseFixesLeading(p.stored);
      }
  }

  /** Names without ".." after a normal list keep it normal. */
  lemma NormalConcat(a: seq<string>, b: seq<string>)
    requires Normal(a) && Normal(b) && DotDot !in b
    ensures Normal(a + b)
  {
    var s := a + b;
    assert forall i :: |a| <= i < |s| ==> s[i] == b[i - |a|];
  }

  // ----- parsing strings -----

  /** The filter in `prepareComponents`: drops the empty and "." parts and
      keeps the rest in order. */
  function FilterSegments(s: seq<string>): (r: seq<string>)
    ensures NoEmptyOrDot(r)
    ensures forall x :: x in r <==> x in s && x != "" && x != "."
    ensures NoEmptyOrDot(s) ==> r == s
  {
    if |s| == 0 then []
    else
      var rest := FilterSegments(s[1..]);
      assert s == [s[0]] + s[1..];
      if s[0] == "" || s[0] == "." then rest else [s[0]] + rest
  }

  /** `prepareComponents`: filter, then `fixDotDots`. */
  function PrepareComponents(s: seq<string>): (r: seq<string>)
    ensures Normal(r)
  {
    var f := FilterSegments(s);
    CollapseNormal(f);
    Collapse(f)
  }

  /** `parseComponents`: the normal parts of the string and whether it is
      relative.  The empty string stands for "."; a leading "/" or a first
      part "~" (replaced by the parts of the home directory) make it
      absolute. */
  function ParseComponents(s: string, homedir: string): (r: (seq<string>, bool))
    ensures Normal(r.0)
    ensures r.1 <==> (|s| == 0 || s[0] != Separator) && Split(s)[0] != "~"
  {
    var stringpath := if |s| == 0 then "." else s;
    var parts := Split(stringpath);
    assert |s| > 0 ==> parts == Split(s);
    assert |s| == 0 ==> parts == ["."] by { SplitNoSeparator("."); }
    if parts[0] == "" then (PrepareComponents(parts), false)
    else if parts[0] == "~" then (PrepareComponents(Split(homedir) + parts[1..]), false)
    else (PrepareComponents(parts), true)
  }

  /** The components of the current directory, as `DirectoryPath(cwd)`
      gives them: normal for every string the operating system may report,
      the root "/" included. */
  function CurrentComponents(cwd: string): (r: seq<string>)
    ensures Normal(r)
  {
    PrepareComponents(Split(cwd))
  }

  /** `init(_ stringpath:)`: a relative string is based on the current
      directory `cwd`.  A FilePath cannot be made from a string ending in
      "/".  The base is the current directory's components; the code takes
      the pieces of `cwd` after the first instead, which differs only at the
      root (see FromStringAsWritten). */
  function FromString(kind: Kind, s: string, cwd: string, homedir: string): (p: Path)
    requires !(kind == File && EndsWithSeparator(s))
    ensures p.kind == kind
    ensures RelativeComponents(p).Some? <==> ParseComponents(s, homedir).1
    ensures RelativeComponents(p).Some? ==> BaseComponents(p).value == CurrentComponents(cwd)
    ensures Normal(RelativeComponents(p).GetOr(Components(p)))
  {
    var (components, isrelative) := ParseComponents(s, homedir);
    if isrelative then Based(kind, CurrentComponents(cwd), components)
    else Absolute(kind, components)
  }

  /** `init(_ stringpath:)` as the code writes it: the base is the pieces of
      `cwd` after the first one. */
  function FromStringAsWritten(kind: Kind, s: string, cwd: string, homedir: string): (p: Path)
    requires !(kind == File && EndsWithSeparator(s))
    ensures p.kind == kind
    ensures RelativeComponents(p).Some? <==> ParseComponents(s, homedir).1
    ensures RelativeComponents(p).Some? ==> BaseComponents(p).value == Split(cwd)[1..]
  {
    var (components, isrelative) := ParseComponents(s, homedir);
    if isrelative then Based(kind, Split(cwd)[1..], components)
    else Absolute(kind, components)
  }

  /** The form in which the operating system reports the current directory:
      "/" alone, or "/" followed by names separated by "/", none of them
      empty, "." or "..". */
  predicate DirectoryString(cwd: string)
  {
    cwd == [Separator]
    || (|cwd| > 0 && cwd[0] == Separator && NoEmptyOrDot(Split(cwd)[1..]) && DotDot !in Split(cwd)[1..])
  }

  /** The components of a directory string are its pieces after the first,
      except at the root, which has none; its absolute string is the string
      itself. */
  lemma DirectoryStringComponents(cwd: string)
    requires DirectoryString(cwd)
    ensures CurrentComponents(cwd) == if cwd == [Separator] then [] else Split(cwd)[1..]
    ensures [Separator] + Join(CurrentComponents(cwd)) == cwd
  {
    if cwd == [Separator] {
      RootPieces();
    } else {
      PiecesAfterFirst(cwd);
      var b := Split(cwd)[1..];
      FilterSkipsEmpty(b);
      CollapseWithoutDotDots(b);
    }
  }

  /** A string starting with "/" is "/" and its pieces after the first. */
  lemma PiecesAfterFirst(cwd: string)
    requires |cwd| > 0 && cwd[0] == Separator
    ensures Split(cwd) == [""] + Split(cwd)[1..]
    ensures [Separator] + Join(Split(cwd)[1..]) == cwd
  {
    SplitPrefix("", cwd[1..]);
    assert "" + [Separator] + cwd[1..] == cwd;
    JoinSplit(cwd[1..]);
  }

  /** The filter drops a leading empty part. */
  lemma FilterSkipsEmpty(s: seq<string>)
    ensures FilterSegments([""] + s) == FilterSegments(s)
  {
    assert ([""] + s)[1..] == s;
  }

  /** The relative string of `init(base:relative:)` may begin with a "/" or
      not: the result is the same, as its documentation says. */
  lemma LeadingSeparatorIgnored(kind: Kind, base: string, relative: string, cwd: string, homedir: string)
    requires !(kind == File && EndsWithSeparator([Separator] + relative))
    ensures FromBaseAndRelative(kind, base, [Separator] + relative, cwd, homedir)
      == FromBaseAndRelative(kind, base, relative, cwd, homedir)
  {
    var t := [Separator] + relative;
    SplitAfterSeparator(relative);
    SplitAfterSeparator(t);
    FilterSkipsEmpty(Split(t));
    assert ParseComponents([Separator] + t, homedir) == ParseComponents(t, homedir);
  }

  lemma RootPieces()
    ensures Split([Separator]) == ["", ""]
    ensures PrepareComponents(["", ""]) == []
  {
    SplitPrefix("", "");
    assert "" + [Separator] + "" == [Separator];
    assert FilterSegments(["", ""]) == [];
  }

  /** Below the root the code's base is the current directory's components. */
  lemma AsWrittenAgreesBelowRoot(kind: Kind, s: string, cwd: string, homedir: string)
    requires !(kind == File && EndsWithSeparator(s))
    requires DirectoryString(cwd) && cwd != [Separator]
    ensures FromStringAsWritten(kind, s, cwd, homedir) == FromString(kind, s, cwd, homedir)
  {
    DirectoryStringComponents(cwd);
  }

  /** At the root the code's base is [""]: "." then has the single empty
      component and the name "", is not well formed, and so differs from
      the current directory `DirectoryPath("/")`, whose name is "/". */
  lemma RootCurrentDirectoryAsWritten(homedir: string)
    ensures var p := FromStringAsWritten(Directory, ".", [Separator], homedir);
      Components(p) == [""] && Name(p) == "" && !WellFormed(p)
    ensures var p := FromString(Directory, ".", [Separator], homedir);
      Components(p) == [] && Name(p) == [Separator] && WellFormed(p)
  {
    RootPieces();
    DotParses(homedir);
    var p := FromStringAsWritten(Directory, ".", [Separator], homedir);
    assert p == Based(Directory, [""], []);
    assert p.stored[..1] == [""];
  }

  lemma DotParses(homedir: string)
    ensures ParseComponents(".", homedir) == ([], true)
  {
    SplitNoSeparator(".");
    assert FilterSegments(["."]) == [];
  }

  /** `init(base: String, relative: String)`: both strings are parsed, the
      relative one as if it started with "/"; the result keeps the two parts
      apart, each collapsed on its own. */
  function FromBaseAndRelative(kind: Kind, base: string, relative: string, cwd: string, homedir: string): (p: Path)
    requires !(kind == File && EndsWithSeparator([Separator] + relative))
    ensures p.kind == kind
    ensures BaseComponents(p) == Some(Components(FromString(Directory, base, cwd, homedir)))
    ensures RelativeComponents(p) == Some(ParseComponents([Separator] + relative, homedir).0)
  {
    var rel := FromString(kind, [Separator] + relative, cwd, homedir);
    var b := FromString(Directory, base, cwd, homedir);
    Based(kind, Components(b), Components(rel))
  }

  /** Every path parsed from a string is well formed, whatever the current
      directory. */
  lemma FromStringWellFormed(kind: Kind, s: string, cwd: string, homedir: string)
    requires !(kind == File && EndsWithSeparator(s))
    ensures WellFormed(FromString(kind, s, cwd, homedir))
  {
    var p := FromString(kind, s, cwd, homedir);
    assert p.relativeStart.Some? ==> p.stored[p.relativeStart.value..] == RelativeComponents(p).value;
  }

  /** `init(_ inpath: Path)`: the same location as another kind of path. */
  function Convert(kind: Kind, p: Path): (r: Path)
    ensures r == RawPath(kind, p.stored, p.relativeStart)
  {
    match (BaseComponents(p), RelativeComponents(p))
    case (Some(base), Some(rel)) => Based(kind, base, rel)
    case _ => Absolute(kind, Components(p))
  }

  // ----- string forms and names -----

  /** `relativeString`: the relative parts joined by "/", with "." for an
      empty result. */
  function RelativeString(p: Path): (r: Option<string>)
    ensures r.None? <==> RelativeComponents(p).None?
    ensures r.Some? ==> |r.value| > 0
  {
    match RelativeComponents(p)
    case None => None
    case Some(rel) =>
      var joined := Join(rel);
      if |joined| == 0 then Some(".") else Some(joined)
  }

  /** `absoluteString`: "/" and the components joined by "/". */
  function AbsoluteString(p: Path): (r: string)
    ensures |r| > 0 && r[0] == Separator
  {
    [Separator] + Join(Components(p))
  }

  /** `string` (and `description`): the relative form when there is one. */
  function PathString(p: Path): (r: string)
    ensures |r| > 0
  {
    RelativeString(p).GetOr(AbsoluteString(p))
  }

  /** `base`: the base as an absolute directory path. */
  function Base(p: Path): (r: Option<Path>)
    ensures r.None? <==> BaseComponents(p).None?
    ensures r.Some? ==> r.value.kind == Directory && Components(r.value) == BaseComponents(p).value
  {
    match BaseComponents(p)
    case None => None
    case Some(b) => Some(Absolute(Directory, b))
  }

  /** `name`: the last component, "/" for the root. */
  function Name(p: Path): string
  {
    var c := Components(p);
    if |c| == 0 then [Separator] else c[|c| - 1]
  }

  /** `extension`: the text after the last "." of the name, unless that "."
      is the first or the last character. */
  function Extension(p: Path): (r: Option<string>)
    ensures r.Some? ==> var name := Name(p);
      0 < |r.value| < |name| - 1 && '.' !in r.value
      && name[|name| - |r.value| - 1] == '.' && name[|name| - |r.value|..] == r.value
  {
    var name := Name(p);
    match LastIndex(name, '.')
    case None => None
    case Some(lastdot) =>
      if lastdot == 0 || lastdot == |name| - 1 then None
      else Some(name[lastdot + 1..])
  }

  /** `nameWithoutExtension`: the name up to its last ".", unless that "." is
      the first character. */
  function NameWithoutExtension(p: Path): (r: string)
    ensures r <= Name(p)
    ensures |r| < |Name(p)| ==> Name(p)[|r|] == '.' && '.' !in Name(p)[|r| + 1..]
  {
    var name := Name(p);
    match LastIndex(name, '.')
    case Some(lastdot) => if lastdot != 0 then name[..lastdot] else name
    case None => name
  }

  /** `absolute`: the same kind of path, without a base. */
  function AbsolutePath(p: Path): (r: Path)
    ensures r.kind == p.kind && BaseComponents(r).None?
    ensures Components(r) == Components(p)
  {
    Absolute(p.kind, Components(p))
  }

  // ----- path arithmetic -----

  /** `dropLast(k)`: all but the last k elements, nothing when there are
      fewer. */
  function DropLast(s: seq<string>, k: nat): (r: seq<string>)
    ensures |r| == if k >= |s| then 0 else |s| - k
    ensures r <= s
  {
    if k >= |s| then [] else s[..|s| - k]
  }

  /** `parent(nr:)`: stays on the same base while dropping parts of the
      relative part leaves at least one part and does not cut into its ".."
      run; otherwise goes up from the absolute components. */
  function Parent(p: Path, levels: nat): (r: Path)
    requires levels > 0
    ensures r.kind == Directory
    ensures BaseComponents(r).Some? ==> BaseComponents(r) == BaseComponents(p)
  {
    var relative := RelativeComponents(p);
    if relative.Some? && levels < |relative.value| && relative.value[|relative.value| - levels] != DotDot
    then Based(Directory, BaseComponents(p).value, DropLast(relative.value, levels))
    else Absolute(Directory, DropLast(Components(p), levels))
  }

  /** `indexOfFirstDifference`, which is not part of this model: None when
      the lists are equal, else the length of their common prefix. */
  function IndexOfFirstDifference(a: seq<string>, b: seq<string>): (r: Option<nat>)
    ensures r.None? <==> a == b
    ensures r.Some? ==> r.value <= |a| && r.value <= |b| && a[..r.value] == b[..r.value]
    ensures r.Some? ==> r.value == |a| || r.value == |b| || a[r.value] != b[r.value]
  {
    if a == b then None
    else if |a| == 0 || |b| == 0 || a[0] != b[0] then Some(0)
    else
      assert a == [a[0]] + a[1..] && b == [b[0]] + b[1..];
      var k := IndexOfFirstDifference(a[1..], b[1..]).value;
      assert a[..k + 1] == [a[0]] + a[1..][..k] && b[..k + 1] == [b[0]] + b[1..][..k];
      Some(k + 1)
  }

  /** `relativeTo`: based on the given directory, climbing with ".." from the
      base to the common prefix and then down to this path. */
  function RelativeTo(p: Path, base: Path): (r: Path)
    requires base.kind == Directory
    ensures r.kind == p.kind
    ensures BaseComponents(r) == Some(Components(base))
  {
    var c, b := Components(p), Components(base);
    var i := IndexOfFirstDifference(c, b);
    var k := i.GetOr(|c|);
    var nrofdotdots := |b| - k;
    Based(p.kind, b, DotDots(nrofdotdots) + c[k..])
  }

  /** The internal `append` of a component list: keeps the base (or the
      absoluteness) of the directory and collapses what it appends. */
  function Append(dir: Path, newcomponents: seq<string>, kind: Kind): (r: Path)
    requires dir.kind == Directory
    ensures r.kind == kind
    ensures BaseComponents(r) == BaseComponents(dir)
  {
    match RelativeComponents(dir)
    case Some(rel) => Based(kind, BaseComponents(dir).value, Collapse(rel + newcomponents))
    case None => Absolute(kind, Collapse(Components(dir) + newcomponents))
  }

  /** The internal `append` of a string: the string is parsed (its own
      leading "/" or relativeness is ignored); with `relative` the directory's
      components become the base of the result. */
  function AppendString(dir: Path, appendix: string, relative: bool, kind: Kind, homedir: string): (r: Path)
    requires dir.kind == Directory
    ensures r.kind == kind
    ensures relative ==> BaseComponents(r) == Some(Components(dir))
    ensures !relative ==> BaseComponents(r) == BaseComponents(dir)
  {
    var (newcomponents, _) := ParseComponents(appendix, homedir);
    if relative then Based(kind, Components(dir), newcomponents) else Append(dir, newcomponents, kind)
  }

  /** `append(file:relative:)`. */
  function AppendFile(dir: Path, stringpath: string, relative: bool, homedir: string): (r: Path)
    requires dir.kind == Directory
    ensures r.kind == File
  {
    AppendString(dir, stringpath, relative, File, homedir)
  }

  /** `append(directory:relative:)`. */
  function AppendDirectory(dir: Path, stringpath: string, relative: bool, homedir: string): (r: Path)
    requires dir.kind == Directory
    ensures r.kind == Directory
  {
    AppendString(dir, stringpath, relative, Directory, homedir)
  }

  /** `leftdir + rightpath`: the right path's relative part (or its
      components) appended to the directory; the right path's base is
      dropped. */
  function Plus(leftdir: Path, rightpath: Path): (r: Path)
    requires leftdir.kind == Directory
    ensures r.kind == rightpath.kind
    ensures BaseComponents(r) == BaseComponents(leftdir)
  {
    var rightcomponents := RelativeComponents(rightpath).GetOr(Components(rightpath));
    Append(leftdir, rightcomponents, rightpath.kind)
  }

  /** `starts(with:)`. */
  predicate StartsWith(s: seq<string>, prefix: seq<string>)
  {
    |prefix| <= |s| && s[..|prefix|] == prefix
  }

  /** `isAParentOf`: the absolute components of `p` start with those of the
      directory and are not as many. */
  predicate IsAParentOf(dir: Path, p: Path)
    requires dir.kind == Directory
    ensures IsAParentOf(dir, p) ==> |Components(dir)| < |Components(p)|
  {
    StartsWith(Components(AbsolutePath(p)), Components(AbsolutePath(dir)))
      && |Components(p)| != |Components(dir)|
  }

  /** `==` of `AnyPath` (and, through `init(_ Path)`, of the other two kinds):
      based paths compare relative part and base, absolute ones their
      components; a based path never equals an absolute one. */
  predicate Equal(left: Path, right: Path)
    requires left.kind == right.kind
    ensures Equal(left, right) ==> Components(left) == Components(right)
  {
    if RelativeComponents(left).None? != RelativeComponents(right).None? then false
    else if RelativeComponents(left).Some? then
      RelativeComponents(left).value == RelativeComponents(right).value
        && BaseComponents(left).value == BaseComponents(right).value
    else Components(left) == Components(right)
  }

  /** `DirectoryPath.root`. */
  function Root(): (r: Path)
    ensures r.kind == Directory && Components(r) == [] && BaseComponents(r).None?
  {
    Absolute(Directory, [])
  }
}
