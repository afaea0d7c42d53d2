/** What the current revision's path values promise (Sources/FileSmith/Paths.swift),
    stated over the model in module Paths. */
module PathLaws {
  import opened General
  import opened Strings
  import opened Normaliser
  import opened Paths

  // ----- storage -----

  /** `==` is structural: two paths of one kind are equal exactly when they
      store the same parts with the same split, so the synthesised hash,
      which hashes exactly those stored properties, agrees with it. */
  lemma EqualIsStructural(a: Path, b: Path)
    requires a.kind == b.kind
    ensures Equal(a, b) <==> a == b
  {
  }

  /** A based path never equals an absolute one, even for the same location. */
  lemma BasedNeverEqualsAbsolute(a: Path, b: Path)
    requires a.kind == b.kind && BaseComponents(a).Some? && BaseComponents(b).None?
    ensures !Equal(a, b)
  {
  }

  // ----- parents -----

  /** `isAParentOf` holds exactly when the directory's components are a
      proper prefix of the path's. */
  lemma IsAParentOfIsProperPrefix(dir: Path, p: Path)
    requires dir.kind == Directory
    ensures IsAParentOf(dir, p) <==> Components(dir) < Components(p)
  {
  }

  /** No directory is its own parent. */
  lemma IsAParentOfIrreflexive(dir: Path)
    requires dir.kind == Directory
    ensures !IsAParentOf(dir, dir)
  {
  }

  lemma IsAParentOfTransitive(a: Path, b: Path, c: Path)
    requires a.kind == Directory && b.kind == Directory
    requires IsAParentOf(a, b) && IsAParentOf(b, c)
    ensures IsAParentOf(a, c)
  {
    IsAParentOfIsProperPrefix(a, b);
    IsAParentOfIsProperPrefix(b, c);
    IsAParentOfIsProperPrefix(a, c);
  }

  /** `parent(nr: k)` of a well-formed path is its components without the
      last k, and is well formed again. */
  lemma ParentComponents(p: Path, levels: nat)
    requires levels > 0 && WellFormed(p)
    ensures Components(Parent(p, levels)) == DropLast(Components(p), levels)
    ensures WellFormed(Parent(p, levels))
  {
    ComponentsNormal(p);
    var relative := RelativeComponents(p);
    if relative.Some? && levels < |relative.value| && relative.value[|relative.value| - levels] != DotDot {
      WellFormedParts(p);
      ParentOnSameBase(p, levels);
    } else {
      var r := Parent(p, levels);
      assert r == Absolute(Directory, DropLast(Components(p), levels));
      DropLastNormal(Components(p), levels);
      AbsoluteNormal(Directory, DropLast(Components(p), levels));
    }
  }

  /** A path made from a normal list without a base is well formed. */
  lemma AbsoluteNormal(kind: Kind, s: seq<string>)
    requires Normal(s)
    ensures WellFormed(Absolute(kind, s))
  {
  }

  /** The branch of `parent(nr:)` that keeps the base. */
  lemma ParentOnSameBase(p: Path, levels: nat)
    requires levels > 0 && RelativeComponents(p).Some?
    requires Normal(BaseComponents(p).value) && Normal(RelativeComponents(p).value)
    requires var rel := RelativeComponents(p).value; levels < |rel| && rel[|rel| - levels] != DotDot
    ensures Components(Parent(p, levels)) == DropLast(Collapse(p.stored), levels)
    ensures WellFormed(Parent(p, levels))
  {
    var base, rel := BaseComponents(p).value, RelativeComponents(p).value;
    var kept := DropLast(rel, levels);
    ParentKeepsBase(p, levels);
    DropRelativeTail(base, rel, levels);
    BasedNormal(Directory, base, kept);
  }

  lemma ParentKeepsBase(p: Path, levels: nat)
    requires levels > 0 && RelativeComponents(p).Some?
    requires var rel := RelativeComponents(p).value; levels < |rel| && rel[|rel| - levels] != DotDot
    ensures Parent(p, levels) == Based(Directory, BaseComponents(p).value, DropLast(RelativeComponents(p).value, levels))
  {
  }

  /** The base and the relative part of a well-formed path are normal. */
  lemma WellFormedParts(p: Path)
    requires WellFormed(p) && p.relativeStart.Some?
    ensures Normal(BaseComponents(p).value) && Normal(RelativeComponents(p).value)
  {
  }

  /** A path built from a normal base and a normal relative part is well
      formed, and its components are the collapse of the two. */
  lemma BasedNormal(kind: Kind, base: seq<string>, rel: seq<string>)
    requires Normal(base) && Normal(rel)
    ensures WellFormed(Based(kind, base, rel))
    ensures Components(Based(kind, base, rel)) == Collapse(base + rel)
  {
    var r := Based(kind, base, rel);
    assert r.stored[..|base|] == base && r.stored[|base|..] == rel;
    ComponentsNormal(r);
  }

  /** Dropping the last parts of a relative part that are not ".." drops
      them from the collapsed whole. */
  lemma DropRelativeTail(base: seq<string>, rel: seq<string>, levels: nat)
    requires Normal(base) && Normal(rel)
    requires 0 < levels < |rel| && rel[|rel| - levels] != DotDot
    ensures Normal(DropLast(rel, levels))
    ensures Collapse(base + DropLast(rel, levels)) == DropLast(Collapse(base + rel), levels)
  {
    var kept, dropped := rel[..|rel| - levels], rel[|rel| - levels..];
    assert rel == kept + dropped;
    assert DotDot !in dropped;
    assert base + rel == (base + kept) + dropped;
    CollapseAppendNames(base + kept, dropped);
  }

  /** Dropping parts from the end keeps a list normal. */
  lemma DropLastNormal(s: seq<string>, k: nat)
    requires Normal(s)
    ensures Normal(DropLast(s, k))
  {
  }

  /** The parent of the root is the root, however far one goes up. */
  lemma ParentOfRoot(levels: nat)
    requires levels > 0
    ensures Parent(Root(), levels) == Root()
  {
  }

  /** A well-formed path below the root has its parent as a parent. */
  lemma ParentIsAParent(p: Path)
    requires WellFormed(p) && |Components(p)| > 0
    ensures IsAParentOf(Parent(p, 1), p)
  {
    ParentComponents(p, 1);
    IsAParentOfIsProperPrefix(Parent(p, 1), p);
  }

  // ----- appending -----

  /** The internal `append` of a well-formed directory: its components are
      the collapse of the directory's components followed by the new
      parts, and the result is well formed when the new parts are free of
      empty and "." parts. */
  lemma AppendComponents(dir: Path, newcomponents: seq<string>, kind: Kind)
    requires dir.kind == Directory && WellFormed(dir) && NoEmptyOrDot(newcomponents)
    ensures Components(Append(dir, newcomponents, kind)) == Collapse(Components(dir) + newcomponents)
    ensures WellFormed(Append(dir, newcomponents, kind))
  {
    ComponentsNormal(dir);
    var r := Append(dir, newcomponents, kind);
    if dir.relativeStart.Some? {
      var base, rel := BaseComponents(dir).value, RelativeComponents(dir).value;
      CollapseRelativeThen(base, rel, newcomponents);
      assert r.stored[|base|..] == Collapse(rel + newcomponents);
      ComponentsNormal(r);
    } else {
      assert NoEmptyOrDot(Components(dir) + newcomponents);
      CollapseNormal(Components(dir) + newcomponents);
    }
  }

  /** Collapsing the relative part with the new parts, then the whole, is
      collapsing the whole with the new parts. */
  lemma CollapseRelativeThen(base: seq<string>, rel: seq<string>, newcomponents: seq<string>)
    requires Normal(rel) && NoEmptyOrDot(newcomponents)
    ensures Normal(Collapse(rel + newcomponents))
    ensures Collapse(base + Collapse(rel + newcomponents)) == Collapse(Collapse(base + rel) + newcomponents)
  {
    NoEmptyOrDotConcat(rel, newcomponents);
    CollapseNormal(rel + newcomponents);
    CollapseAbsorbs(base, rel + newcomponents);
    AppendAssociative(base, rel, newcomponents);
    CollapseAppend(base + rel, newcomponents);
  }

  /** Appending names that hold no ".." adds exactly those names. */
  lemma AppendNames(dir: Path, names: seq<string>, kind: Kind)
    requires dir.kind == Directory && WellFormed(dir) && NoEmptyOrDot(names) && DotDot !in names
    ensures Components(Append(dir, names, kind)) == Components(dir) + names
  {
    AppendComponents(dir, names, kind);
    ComponentsNormal(dir);
    CollapseAppendNames(Components(dir), names);
    CollapseFixesLeading(Components(dir));
  }

  /** `dir + p` puts the right operand's relative part (or components) under
      the directory, whose base it keeps. */
  lemma PlusComponents(dir: Path, p: Path)
    requires dir.kind == Directory && WellFormed(dir) && WellFormed(p)
    ensures Components(Plus(dir, p)) == Collapse(Components(dir) + RelativeComponents(p).GetOr(Components(p)))
    ensures BaseComponents(Plus(dir, p)) == BaseComponents(dir)
    ensures WellFormed(Plus(dir, p))
  {
    ComponentsNormal(p);
    AppendComponents(dir, RelativeComponents(p).GetOr(Components(p)), p.kind);
  }

  /** A directory is a parent of itself plus a path whose relative part (or
      components) is non-empty and climbs no "..". */
  lemma PlusIsUnder(dir: Path, p: Path)
    requires dir.kind == Directory && WellFormed(dir) && WellFormed(p)
    requires |RelativeComponents(p).GetOr(Components(p))| > 0
    requires DotDot !in RelativeComponents(p).GetOr(Components(p))
    ensures IsAParentOf(dir, Plus(dir, p))
  {
    var q := RelativeComponents(p).GetOr(Components(p));
    ComponentsNormal(p);
    AppendNames(dir, q, p.kind);
    IsAParentOfIsProperPrefix(dir, Plus(dir, p));
    assert Components(dir) < Components(dir) + q;
  }

  // ----- relativeTo -----

  /** Any number of ".." in front of a normal list keeps it normal. */
  lemma DotDotsThenNormal(m: nat, t: seq<string>)
    requires Normal(t)
    ensures Normal(DotDots(m) + t)
  {
    var s := DotDots(m) + t;
    forall i, j | 0 <= i < j < |s| && s[j] == DotDot ensures s[i] == DotDot {
      if i >= m {
        assert s[i] == t[i - m] && s[j] == t[j - m];
      }
    }
  }

  /** A suffix of a normal list is normal. */
  lemma SuffixNormal(s: seq<string>, k: nat)
    requires Normal(s) && k <= |s|
    ensures Normal(s[k..])
  {
    var t := s[k..];
    forall i, j | 0 <= i < j < |t| && t[j] == DotDot ensures t[i] == DotDot {
      assert t[i] == s[k + i] && t[j] == s[k + j];
    }
  }

  /** `relativeTo(base)` points to the same item, as its documentation
      promises, when the base climbs no "..". */
  lemma RelativeToSameItem(p: Path, base: Path)
    requires base.kind == Directory && WellFormed(p) && WellFormed(base)
    requires DotDot !in Components(base)
    ensures Components(RelativeTo(p, base)) == Components(p)
    ensures WellFormed(RelativeTo(p, base))
  {
    ComponentsNormal(p);
    ComponentsNormal(base);
    var c, b := Components(p), Components(base);
    var k := IndexOfFirstDifference(c, b).GetOr(|c|);
    var r := RelativeTo(p, base);
    ClimbThenDescend(c, b, k);
    assert r.stored == b + (DotDots(|b| - k) + c[k..]);
    assert r.stored[|b|..] == DotDots(|b| - k) + c[k..];
    ComponentsNormal(r);
  }

  /** `relativeTo` as written, on a base that climbs a "..": the file "/a"
      taken relative to "/../base1" is based on [.., base1] with the relative
      part [.., .., a], whose components are [.., .., a] and not [a]. The
      promise of the same item fails; RelativeToSameItem keeps it for every
      base without "..". */
  lemma RelativeToClimbingBase()
    ensures Components(Absolute(File, ["a"])) == ["a"]
    ensures Components(RelativeTo(Absolute(File, ["a"]), Absolute(Directory, [DotDot, "base1"]))) == [DotDot, DotDot, "a"]
  {
    var r := RelativeTo(Absolute(File, ["a"]), Absolute(Directory, [DotDot, "base1"]));
    assert IndexOfFirstDifference(["a"], [DotDot, "base1"]) == Some(0);
    assert DotDots(2) == [DotDot, DotDot];
    assert r.stored == [DotDot, "base1", DotDot, DotDot, "a"] && r.relativeStart == Some(2);
    CollapseIsFold(r.stored);
    var s := r.stored;
    assert Push([], DotDot) == [DotDot] && s[1..] == ["base1", DotDot, DotDot, "a"];
    assert Push([DotDot], "base1") == [DotDot, "base1"] && s[2..] == [DotDot, DotDot, "a"];
    assert Push([DotDot, "base1"], DotDot) == [DotDot] && s[3..] == [DotDot, "a"];
    assert Push([DotDot], DotDot) == [DotDot, DotDot] && s[4..] == ["a"];
    assert Finish([DotDot, DotDot], ["a"]) == [DotDot, DotDot, "a"];
    assert Finish([DotDot], s[3..]) == [DotDot, DotDot, "a"];
    assert Finish([DotDot, "base1"], s[2..]) == [DotDot, DotDot, "a"];
    assert Finish([DotDot], s[1..]) == [DotDot, DotDot, "a"];
    assert Finish([], s) == [DotDot, DotDot, "a"];
  }

  /** Climbing from b to its first k parts and descending along c again
      gives c, when c and b share those k parts and b has no "..". */
  lemma ClimbThenDescend(c: seq<string>, b: seq<string>, k: nat)
    requires Normal(c) && Normal(b) && DotDot !in b
    requires k <= |c| && k <= |b| && c[..k] == b[..k]
    ensures Normal(DotDots(|b| - k) + c[k..])
    ensures Collapse(b + (DotDots(|b| - k) + c[k..])) == c
  {
    SuffixNormal(c, k);
    DotDotsThenNormal(|b| - k, c[k..]);
    CollapseFixesLeading(c);
    DescendFromCommonPrefix(c, b, k);
  }

  lemma DescendFromCommonPrefix(c: seq<string>, b: seq<string>, k: nat)
    requires Collapse(c) == c && DotDot !in b
    requires k <= |c| && k <= |b| && c[..k] == b[..k]
    ensures Collapse(b + (DotDots(|b| - k) + c[k..])) == c
  {
    ClimbToCommonPrefix(c, b, k);
    assert c[..k] + c[k..] == c;
    CollapseThrough(b, DotDots(|b| - k), c[k..], c[..k], c);
  }

  /** If x + y collapses to u and u + z is already collapsed, then so is
      what x + (y + z) collapses to. */
  lemma CollapseThrough(x: seq<string>, y: seq<string>, z: seq<string>, u: seq<string>, w: seq<string>)
    requires Collapse(x + y) == u && u + z == w && Collapse(w) == w
    ensures Collapse(x + (y + z)) == w
  {
    AppendAssociative(x, y, z);
    CollapseAppend(x + y, z);
  }


  lemma ClimbToCommonPrefix(c: seq<string>, b: seq<string>, k: nat)
    requires DotDot !in b
    requires k <= |c| && k <= |b| && c[..k] == b[..k]
    ensures Collapse(b + DotDots(|b| - k)) == c[..k]
  {
    CollapseClimbs(b, |b| - k);
  }

  // ----- string forms -----

  /** A relative string never starts with "/", an absolute one always does. */
  lemma PathStringShowsBase(p: Path)
    requires WellFormed(p) && SeparatorFree(p.stored)
    ensures PathString(p)[0] == Separator <==> BaseComponents(p).None?
  {
    if BaseComponents(p).Some? {
      var rel := RelativeComponents(p).value;
      assert rel == p.stored[p.relativeStart.value..];
      if |rel| > 0 {
        assert rel[0] == p.stored[p.relativeStart.value];
        JoinStartsWithFirst(rel);
      }
    }
  }

  /** The base of a path parsed from a relative string renders as the
      current directory it was based on. */
  lemma BaseStringIsCwd(kind: Kind, s: string, cwd: string, homedir: string)
    requires !(kind == File && EndsWithSeparator(s))
    requires DirectoryString(cwd) && ParseComponents(s, homedir).1
    ensures PathString(Base(FromString(kind, s, cwd, homedir)).value) == cwd
  {
    DirectoryStringComponents(cwd);
  }

  /** The joined parts start with the first part, when that is not empty. */
  lemma JoinStartsWithFirst(parts: seq<string>)
    requires |parts| > 0 && |parts[0]| > 0
    ensures |Join(parts)| > 0 && Join(parts)[0] == parts[0][0]
  {
  }

  /** Parsing "/" followed by separator-free parts. */
  lemma ParseAbsoluteParts(parts: seq<string>, homedir: string)
    requires SeparatorFree(parts)
    ensures ParseComponents([Separator] + Join(parts), homedir) == (Collapse(FilterSegments(parts)), false)
  {
    var s := [Separator] + Join(parts);
    SplitPrefix("", Join(parts));
    assert "" + [Separator] + Join(parts) == s;
    if |parts| == 0 {
      assert Split(s) == ["", ""];
      assert FilterSegments(["", ""]) == [];
    } else {
      SplitJoin(parts);
      assert Split(s) == [""] + parts;
      assert ([""] + parts)[1..] == parts;
    }
  }

  /** Parsing separator-free parts that do not start with an empty part or
      "~". */
  lemma ParseRelativeParts(parts: seq<string>, homedir: string)
    requires SeparatorFree(parts) && |parts| > 0 && parts[0] != "" && parts[0] != "~"
    ensures ParseComponents(Join(parts), homedir) == (Collapse(FilterSegments(parts)), true)
  {
    SplitJoin(parts);
    JoinStartsWithFirst(parts);
  }

  /** Dropping empty parts at the end changes nothing. */
  lemma {:induction false} FilterSegmentsSnocEmpty(s: seq<string>)
    ensures FilterSegments(s + [""]) == FilterSegments(s)
  {
    if |s| == 0 {
      assert FilterSegments([""]) == [];
    } else {
      assert (s + [""])[1..] == s[1..] + [""];
      FilterSegmentsSnocEmpty(s[1..]);
    }
  }

  /** A trailing "/" on a non-empty string makes no difference to the path
      (a FilePath refuses such a string). */
  lemma TrailingSeparatorIgnored(kind: Kind, s: string, cwd: string, homedir: string)
    requires kind != File && |s| > 0
    ensures FromString(kind, s + [Separator], cwd, homedir) == FromString(kind, s, cwd, homedir)
  {
    SplitAppend(s, "");
    assert s + [Separator] + "" == s + [Separator];
    var parts := Split(s);
    assert Split(s + [Separator]) == parts + [""];
    assert (parts + [""])[1..] == parts[1..] + [""];
    FilterSegmentsSnocEmpty(parts);
    FilterSegmentsSnocEmpty(parts[1..]);
    assert Split(homedir) + (parts[1..] + [""]) == (Split(homedir) + parts[1..]) + [""];
    FilterSegmentsSnocEmpty(Split(homedir) + parts[1..]);
  }

  /** A string starting with the part "~" is read as the home directory's
      string followed by the rest. */
  lemma TildeIsHome(kind: Kind, rest: string, cwd: string, homedir: string)
    requires |homedir| > 0 && homedir[0] == Separator
    requires !(kind == File && EndsWithSeparator("~" + [Separator] + rest))
    ensures !(kind == File && EndsWithSeparator(homedir + [Separator] + rest))
    ensures FromString(kind, "~" + [Separator] + rest, cwd, homedir) == FromString(kind, homedir + [Separator] + rest, cwd, homedir)
  {
    SplitPrefix("~", rest);
    SplitAppend(homedir, rest);
    var t := "~" + [Separator] + rest;
    var h := homedir + [Separator] + rest;
    assert t[0] == '~' && h[0] == Separator;
    assert (["~"] + Split(rest))[1..] == Split(rest);
    assert (Split(homedir) + Split(rest))[0] == "";
    if |rest| == 0 {
      assert t[|t| - 1] == Separator && h[|h| - 1] == Separator;
    } else {
      assert t[|t| - 1] == rest[|rest| - 1] && h[|h| - 1] == rest[|rest| - 1];
    }
  }

  /** "~" alone is the home directory. */
  lemma TildeAloneIsHome(kind: Kind, cwd: string, homedir: string)
    requires |homedir| > 0 && homedir[0] == Separator && !(kind == File && EndsWithSeparator(homedir))
    ensures FromString(kind, "~", cwd, homedir) == FromString(kind, homedir, cwd, homedir)
  {
    SplitNoSeparator("~");
    assert Split(homedir)[0] == "";
    assert Split(homedir) + ["~"][1..] == Split(homedir);
  }

  /** The absolute string of an absolute well-formed path parses back to
      the same path. */
  lemma AbsoluteStringRoundTrip(p: Path, cwd: string, homedir: string)
    requires WellFormed(p) && BaseComponents(p).None? && SeparatorFree(p.stored)
    requires !(p.kind == File && EndsWithSeparator(AbsoluteString(p)))
    ensures FromString(p.kind, AbsoluteString(p), cwd, homedir) == p
  {
    ParseAbsoluteParts(p.stored, homedir);
    CollapseFixesLeading(p.stored);
  }

  /** The string of a path based on the current directory parses back to
      the same path; an empty relative part goes through ".". */
  lemma RelativeStringRoundTrip(p: Path, cwd: string, homedir: string)
    requires WellFormed(p) && BaseComponents(p) == Some(CurrentComponents(cwd))
    requires SeparatorFree(RelativeComponents(p).value)
    requires |RelativeComponents(p).value| > 0 ==> RelativeComponents(p).value[0] != "~"
    requires !(p.kind == File && EndsWithSeparator(PathString(p)))
    ensures FromString(p.kind, PathString(p), cwd, homedir) == p
  {
    var rel := RelativeComponents(p).value;
    assert rel == p.stored[p.relativeStart.value..];
    if |rel| == 0 {
      assert Join(rel) == "";
      SplitNoSeparator(".");
      assert FilterSegments(["."]) == [];
    } else {
      JoinStartsWithFirst(rel);
      ParseRelativeParts(rel, homedir);
      CollapseFixesLeading(rel);
    }
  }

  // ----- name and extension -----

  /** The name is what follows the last "/" of the absolute string, and the
      whole absolute string "/" exactly for the root. */
  lemma NameIsLastPiece(p: Path)
    requires SeparatorFree(Components(p))
    ensures |Components(p)| == 0 <==> Name(p) == AbsoluteString(p)
    ensures |Components(p)| > 0 ==> var a := Split(AbsoluteString(p)); Name(p) == a[|a| - 1]
  {
    var c := Components(p);
    if |c| > 0 {
      LastPieceOfAbsolute(c);
      assert AbsoluteString(p)[0] in AbsoluteString(p);
    }
  }

  /** "/" and the joined parts split into "" and the parts. */
  lemma LastPieceOfAbsolute(c: seq<string>)
    requires |c| > 0 && SeparatorFree(c)
    ensures Split([Separator] + Join(c)) == [""] + c
  {
    SplitAfterSeparator(Join(c));
    SplitJoin(c);
  }

  /** When there is an extension, the name is the stem, a "." and the
      extension, and neither the stem nor the extension is empty; without
      one, the stem is the name or the name less a final ".". */
  lemma StemAndExtension(p: Path)
    ensures Extension(p).Some? ==>
      NameWithoutExtension(p) + "." + Extension(p).value == Name(p)
      && '.' !in Extension(p).value && |Extension(p).value| > 0 && |NameWithoutExtension(p)| > 0
    ensures Extension(p).None? ==>
      NameWithoutExtension(p) == Name(p) || NameWithoutExtension(p) + "." == Name(p)
  {
    var name := Name(p);
    match LastIndex(name, '.')
    case None =>
    case Some(d) =>
      assert name == name[..d] + "." + name[d + 1..];
      var tail := name[d + 1..];
      assert forall j :: 0 <= j < |tail| ==> tail[j] == name[d + 1 + j];
  }

  /** A name `stem.ext` with a non-empty stem and an extension without "."
      has exactly that extension and stem. */
  lemma NameWithExtension(p: Path, stem: string, ext: string)
    requires Name(p) == stem + "." + ext && |stem| > 0 && |ext| > 0 && '.' !in ext
    ensures Extension(p) == Some(ext) && NameWithoutExtension(p) == stem
  {
    var name := Name(p);
    forall k | |stem| < k < |name| ensures name[k] != '.' {
      assert name[k] == ext[k - |stem| - 1];
    }
    LastIndexIsUnique(name, '.', |stem|);
    assert name[..|stem|] == stem;
    assert name[|stem| + 1..] == ext;
  }

  /** A name without "." has no extension and is its own stem. */
  lemma NameWithoutDot(p: Path)
    requires '.' !in Name(p)
    ensures Extension(p) == None && NameWithoutExtension(p) == Name(p)
  {
  }

  /** A name whose only "." is the first character (a hidden file) has no
      extension and is its own stem. */
  lemma HiddenName(p: Path, rest: string)
    requires Name(p) == "." + rest && '.' !in rest
    ensures Extension(p) == None && NameWithoutExtension(p) == Name(p)
  {
    var name := Name(p);
    forall k | 0 < k < |name| ensures name[k] != '.' {
      assert name[k] == rest[k - 1];
    }
    LastIndexIsUnique(name, '.', 0);
  }

  /** A name ending in "." has no extension, but its stem loses that ".". */
  lemma NameEndingInDot(p: Path, stem: string)
    requires Name(p) == stem + "." && |stem| > 0
    ensures Extension(p) == None && NameWithoutExtension(p) == stem
  {
    var name := Name(p);
    LastIndexIsUnique(name, '.', |stem|);
    assert name[..|stem|] == stem;
  }
}
