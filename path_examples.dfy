/** The examples of Tests/FileSmithTests/PathTests.swift, proved of the
    model of the current revision for any current and home directory.
    Each string is first parsed by a lemma of its own. */
module PathExamples {
  import opened General
  import opened Strings
  import opened Normaliser
  import opened Paths
  import opened PathLaws

  /** `s` is "/" followed by the separator-free `parts`, and preparing
      those parts gives `prepared`. */
  predicate ReadsAbsolute(s: string, parts: seq<string>, prepared: seq<string>)
  {
    SeparatorFree(parts) && s == [Separator] + Join(parts) && Finish([], FilterSegments(parts)) == prepared
  }

  /** `s` is the separator-free `parts`, the first neither empty nor "~",
      and preparing those parts gives `prepared`. */
  predicate ReadsRelative(s: string, parts: seq<string>, prepared: seq<string>)
  {
    SeparatorFree(parts) && |parts| > 0 && parts[0] != "" && parts[0] != "~"
      && s == Join(parts) && Finish([], FilterSegments(parts)) == prepared
  }

  /** An absolute test string parses to its prepared parts. */
  lemma FromAbsoluteParts(kind: Kind, s: string, parts: seq<string>, prepared: seq<string>, cwd: string, homedir: string)
    requires ReadsAbsolute(s, parts, prepared) && !(kind == File && EndsWithSeparator(s))
    ensures FromString(kind, s, cwd, homedir) == Absolute(kind, prepared)
  {
    ParseAbsoluteParts(parts, homedir);
    CollapseIsFold(FilterSegments(parts));
  }

  /** A relative test string parses to its prepared parts on the current
      directory. */
  lemma FromRelativeParts(kind: Kind, s: string, parts: seq<string>, prepared: seq<string>, cwd: string, homedir: string)
    requires ReadsRelative(s, parts, prepared) && !(kind == File && EndsWithSeparator(s))
    ensures FromString(kind, s, cwd, homedir) == Based(kind, CurrentComponents(cwd), prepared)
  {
    ParseRelativeParts(parts, homedir);
    CollapseIsFold(FilterSegments(parts));
  }

  // ----- how the example strings read -----

  // Proof helpers: how each test string reads, for the test-vector lemmas.
  lemma ReadTmp() ensures ReadsAbsolute("/tmp", ["tmp"], ["tmp"]) {}
  lemma ReadFile() ensures ReadsRelative("file", ["file"], ["file"]) {}
  lemma ReadRelativeDir() ensures ReadsRelative("relativedir", ["relativedir"], ["relativedir"]) {}
  lemma ReadDot() ensures ReadsRelative(".", ["."], []) {}
  lemma ReadFolderFile() ensures ReadsRelative("folder1/file1.txt", ["folder1", "file1.txt"], ["folder1", "file1.txt"]) {}

  // ----- testAddPaths -----

  /** "/tmp" is the absolute directory [tmp]. */
  lemma ParseTmp(cwd: string, homedir: string)
    ensures FromString(Directory, "/tmp", cwd, homedir) == Absolute(Directory, ["tmp"])
  {
    ReadTmp();
    FromAbsoluteParts(Directory, "/tmp", ["tmp"], ["tmp"], cwd, homedir);
  }

  /** "file" is one part on the current directory. */
  lemma ParseFile(cwd: string, homedir: string)
    ensures FromString(File, "file", cwd, homedir) == Based(File, CurrentComponents(cwd), ["file"])
  {
    ReadFile();
    FromRelativeParts(File, "file", ["file"], ["file"], cwd, homedir);
  }

  /** "relativedir" is one part on the current directory. */
  lemma ParseRelativeDir(cwd: string, homedir: string)
    ensures FromString(Directory, "relativedir", cwd, homedir) == Based(Directory, CurrentComponents(cwd), ["relativedir"])
  {
    ReadRelativeDir();
    FromRelativeParts(Directory, "relativedir", ["relativedir"], ["relativedir"], cwd, homedir);
  }

  /** Proof helper: the joined test parts, for AddToAbsolute. */
  lemma JoinTmpFile() ensures Join(["tmp", "file"]) == "tmp/file" {}

  /** An absolute directory plus a based file: the file's relative part
      goes after the directory's components. */
  lemma PlusOfAbsolute(dirpart: seq<string>, base: seq<string>, filepart: seq<string>)
    ensures Plus(Absolute(Directory, dirpart), Based(File, base, filepart)) == Absolute(File, Collapse(dirpart + filepart))
  {
  }

  /** Proof helper: appending "file" to [tmp] collapses nothing. */
  lemma CollapseTmpFile() ensures Collapse(["tmp"] + ["file"]) == ["tmp", "file"]
  {
    assert ["tmp"] + ["file"] == ["tmp", "file"];
    CollapseWithoutDotDots(["tmp", "file"]);
  }

  /** An absolute directory plus a relative file is absolute. */
  lemma AddToAbsolute(cwd: string, homedir: string)
    ensures PathString(Plus(FromString(Directory, "/tmp", cwd, homedir), FromString(File, "file", cwd, homedir))) == "/tmp/file"
  {
    ParseTmp(cwd, homedir);
    ParseFile(cwd, homedir);
    PlusOfAbsolute(["tmp"], CurrentComponents(cwd), ["file"]);
    CollapseTmpFile();
    JoinTmpFile();
  }

  /** A based directory plus a based file: the file's relative part goes
      after the directory's, on the directory's base. */
  lemma PlusOfBased(base: seq<string>, dirpart: seq<string>, filepart: seq<string>)
    ensures Plus(Based(Directory, base, dirpart), Based(File, base, filepart)) == Based(File, base, Collapse(dirpart + filepart))
  {
    var d := Based(Directory, base, dirpart);
    assert BaseComponents(d) == Some(base);
  }

  /** Proof helper: the joined test parts, for AddToRelativeString. */
  lemma JoinRelativeDirFile() ensures Join(["relativedir", "file"]) == "relativedir/file" {}

  /** A relative directory plus a relative file stays relative to the
      directory's base. */
  lemma AddToRelative(cwd: string, homedir: string)
    ensures Plus(FromString(Directory, "relativedir", cwd, homedir), FromString(File, "file", cwd, homedir))
      == Based(File, CurrentComponents(cwd), ["relativedir", "file"])
  {
    ParseRelativeDir(cwd, homedir);
    ParseFile(cwd, homedir);
    PlusOfRelativeDirFile(CurrentComponents(cwd));
  }

  /** On any base, relativedir + file has the relative part [relativedir, file]. */
  lemma PlusOfRelativeDirFile(base: seq<string>)
    ensures Plus(Based(Directory, base, ["relativedir"]), Based(File, base, ["file"])) == Based(File, base, ["relativedir", "file"])
  {
    PlusOfBased(base, ["relativedir"], ["file"]);
    assert ["relativedir"] + ["file"] == ["relativedir", "file"];
    CollapseWithoutDotDots(["relativedir", "file"]);
  }

  /** ... and renders as "relativedir/file". */
  lemma AddToRelativeString(base: seq<string>)
    ensures PathString(Based(File, base, ["relativedir", "file"])) == "relativedir/file"
  {
    JoinRelativeDirFile();
  }

  // ----- testRelativeFilePath, testRelativeDirectoryPath -----

  /** "." is the current directory itself: an empty relative part, shown
      as ".". */
  lemma CurrentDirectory(cwd: string, homedir: string)
    ensures FromString(Directory, ".", cwd, homedir) == Based(Directory, CurrentComponents(cwd), [])
    ensures PathString(FromString(Directory, ".", cwd, homedir)) == "."
  {
    ReadDot();
    FromRelativeParts(Directory, ".", ["."], [], cwd, homedir);
  }

  /** A relative path's base renders as the current directory. */
  lemma RelativeFilePath(cwd: string, homedir: string)
    requires DirectoryString(cwd)
    ensures RelativeString(FromString(File, "folder1/file1.txt", cwd, homedir)) == Some("folder1/file1.txt")
    ensures PathString(FromString(File, "folder1/file1.txt", cwd, homedir)) == "folder1/file1.txt"
    ensures PathString(Base(FromString(File, "folder1/file1.txt", cwd, homedir)).value) == cwd
  {
    ReadFolderFile();
    FromRelativeParts(File, "folder1/file1.txt", ["folder1", "file1.txt"], ["folder1", "file1.txt"], cwd, homedir);
    BaseStringIsCwd(File, "folder1/file1.txt", cwd, homedir);
  }

  // ----- testDotDot: paths from a base and a relative string -----

  /** A base string and a relative string ("/" put in front) that read as
      absolute parts give the two prepared lists, side by side. */
  lemma FromBaseAndRelativeParts(kind: Kind, base: string, relative: string,
                                 bparts: seq<string>, bprep: seq<string>,
                                 rparts: seq<string>, rprep: seq<string>,
                                 cwd: string, homedir: string)
    requires ReadsAbsolute(base, bparts, bprep)
    requires ReadsAbsolute([Separator] + relative, rparts, rprep)
    requires !(kind == File && EndsWithSeparator([Separator] + relative))
    ensures FromBaseAndRelative(kind, base, relative, cwd, homedir) == Based(kind, bprep, rprep)
  {
    FromAbsoluteParts(Directory, base, bparts, bprep, cwd, homedir);
    FromAbsoluteParts(kind, [Separator] + relative, rparts, rprep, cwd, homedir);
  }

  // Proof helpers: how each base and relative string reads, for the
  // test-vector lemmas below.
  lemma ReadBase2() ensures ReadsAbsolute("/base1/../base2", ["base1", "..", "base2"], ["base2"]) {}
  lemma ReadRel1Up() ensures ReadsAbsolute([Separator] + "rel1/..", ["rel1", ".."], []) {}
  lemma ReadBase1Up() ensures ReadsAbsolute("/base1/../", ["base1", "..", ""], []) {}
  lemma ReadRel2() ensures ReadsAbsolute([Separator] + "/rel1/../rel2", ["", "rel1", "..", "rel2"], ["rel2"]) {}
  lemma ReadUpBase1() ensures ReadsAbsolute("/../base1", ["..", "base1"], ["..", "base1"]) {}
  lemma ReadUpRel1() ensures ReadsAbsolute([Separator] + "../rel1", ["..", "rel1"], ["..", "rel1"]) {}

  /** A relative part that cancels out is empty; the base is collapsed on
      its own. */
  lemma BaseAndRelativeCancel(cwd: string, homedir: string)
    ensures FromBaseAndRelative(File, "/base1/../base2", "rel1/..", cwd, homedir) == Based(File, ["base2"], [])
  {
    ReadBase2();
    ReadRel1Up();
    FromBaseAndRelativeParts(File, "/base1/../base2", "rel1/..", ["base1", "..", "base2"], ["base2"], ["rel1", ".."], [], cwd, homedir);
  }

  /** ... and renders as ".". */
  lemma BaseAndRelativeCancelStrings()
    ensures RelativeString(Based(File, ["base2"], [])) == Some(".")
    ensures PathString(Base(Based(File, ["base2"], [])).value) == "/base2"
    ensures PathString(AbsolutePath(Based(File, ["base2"], []))) == "/base2"
  {
  }

  /** The base may collapse to the root, and a leading "/" of the relative
      string does not matter. */
  lemma BaseIsRoot(cwd: string, homedir: string)
    ensures FromBaseAndRelative(Directory, "/base1/../", "/rel1/../rel2", cwd, homedir) == Based(Directory, [], ["rel2"])
  {
    ReadBase1Up();
    ReadRel2();
    FromBaseAndRelativeParts(Directory, "/base1/../", "/rel1/../rel2", ["base1", "..", ""], [], ["", "rel1", "..", "rel2"], ["rel2"], cwd, homedir);
  }

  /** ... and renders as "rel2" on the root, "/rel2" in full. */
  lemma BaseIsRootStrings()
    ensures RelativeString(Based(Directory, [], ["rel2"])) == Some("rel2")
    ensures PathString(Base(Based(Directory, [], ["rel2"])).value) == "/"
    ensures PathString(AbsolutePath(Based(Directory, [], ["rel2"]))) == "/rel2"
  {
  }

  /** A relative part starting with ".." is kept apart from the base. */
  lemma RelativeClimbsIntoBase(cwd: string, homedir: string)
    ensures FromBaseAndRelative(Directory, "/../base1", "../rel1", cwd, homedir) == Based(Directory, ["..", "base1"], ["..", "rel1"])
  {
    ReadUpBase1();
    ReadUpRel1();
    FromBaseAndRelativeParts(Directory, "/../base1", "../rel1", ["..", "base1"], ["..", "base1"], ["..", "rel1"], ["..", "rel1"], cwd, homedir);
  }

  /** The path's components climb into its base: "../rel1" under "/../base1"
      is "/../rel1". */
  lemma ClimbingComponents()
    ensures Components(Based(Directory, ["..", "base1"], ["..", "rel1"])) == ["..", "rel1"]
    ensures Components(Based(Directory, ["..", "base1"], [".."])) == [".."]
  {
    assert ["..", "base1"] + ["..", "rel1"] == ["..", "base1", "..", "rel1"];
    CollapseIsFold(["..", "base1", "..", "rel1"]);
    assert ["..", "base1"] + [".."] == ["..", "base1", ".."];
    CollapseIsFold(["..", "base1", ".."]);
  }

  // Proof helpers: the joined test parts, for RelativeClimbsIntoBaseStrings.
  lemma JoinUpRel1() ensures Join(["..", "rel1"]) == "../rel1" {}
  lemma JoinUpBase1() ensures Join(["..", "base1"]) == "../base1" {}

  /** The climbing path renders as the test expects: "../rel1" on
      "/../base1", "/../rel1" in full. */
  lemma RelativeClimbsIntoBaseStrings()
    ensures RelativeString(Based(Directory, ["..", "base1"], ["..", "rel1"])) == Some("../rel1")
    ensures PathString(Base(Based(Directory, ["..", "base1"], ["..", "rel1"])).value) == "/../base1"
    ensures PathString(AbsolutePath(Based(Directory, ["..", "base1"], ["..", "rel1"]))) == "/../rel1"
    ensures Name(Based(Directory, ["..", "base1"], ["..", "rel1"])) == "rel1"
  {
    ClimbingComponents();
    JoinUpRel1();
    JoinUpBase1();
  }

  /** Going up one level stays on the base while the relative part has more
      than one part; further up, the parent is absolute. */
  lemma ParentsOfClimbingPath()
    ensures Parent(Based(Directory, ["..", "base1"], ["..", "rel1"]), 1) == Based(Directory, ["..", "base1"], [".."])
    ensures Parent(Based(Directory, ["..", "base1"], ["..", "rel1"]), 2) == Absolute(Directory, [])
    ensures Parent(Based(Directory, ["..", "base1"], [".."]), 1) == Absolute(Directory, [])
    ensures Parent(AbsolutePath(Based(Directory, ["..", "base1"], ["..", "rel1"])), 1) == Absolute(Directory, [".."])
  {
    ClimbingComponents();
  }

  /** The parents render as "..", "/" and "/..", and ".." is a name. */
  lemma ParentsOfClimbingPathStrings()
    ensures PathString(Based(Directory, ["..", "base1"], [".."])) == ".."
    ensures Name(Based(Directory, ["..", "base1"], [".."])) == ".."
    ensures PathString(Absolute(Directory, [])) == "/"
    ensures PathString(Absolute(Directory, [".."])) == "/.."
  {
    ClimbingComponents();
  }

  // ----- testName -----

  /** A name the parser keeps as it is: not empty, no "/", and not one of
      ".", ".." and "~". */
  predicate PlainName(name: string)
  {
    |name| > 0 && Separator !in name && name != "." && name != DotDot && name != "~"
  }

  /** A single ordinary name is a path of one part relative to the current
      directory, and that part is its name. */
  lemma SingleName(kind: Kind, name: string, cwd: string, homedir: string)
    requires PlainName(name)
    ensures FromString(kind, name, cwd, homedir) == Based(kind, CurrentComponents(cwd), [name])
    ensures Name(FromString(kind, name, cwd, homedir)) == name
  {
    ParseRelativeParts([name], homedir);
    assert FilterSegments([name]) == [name];
    CollapseWithoutDotDots([name]);
  }

  // Proof helpers: how each test string reads, for the test-vector lemmas.
  lemma ReadFileTxt() ensures ReadsAbsolute("/file.txt", ["file.txt"], ["file.txt"]) {}
  lemma ReadDirFileTxt() ensures ReadsRelative("dir/file.txt", ["dir", "file.txt"], ["dir", "file.txt"]) {}
  lemma ReadDirDotFileTxt() ensures ReadsAbsolute("/dir/.file.txt", ["dir", ".file.txt"], ["dir", ".file.txt"]) {}
  lemma ReadRoot() ensures ReadsAbsolute("/", [], []) {}

  /** The name of a path whose relative part does not climb into its base
      is the last relative part. */
  lemma NameOfRelative(kind: Kind, base: seq<string>, rel: seq<string>)
    requires |rel| > 0 && rel[0] != DotDot
    ensures Name(Based(kind, base, rel)) == rel[|rel| - 1]
  {
    assert Components(Based(kind, base, rel)) == base + rel;
  }

  // Proof helpers: how the test names split at their dots, and that the
  // parser keeps them as they are.
  lemma FileDotTxt() ensures "file.txt" == "file" + "." + "txt" && '.' !in "txt" {}
  lemma HiddenFileDotTxt() ensures ".file.txt" == ".file" + "." + "txt" && '.' !in "txt" {}
  lemma DotFile() ensures ".file" == "." + "file" && '.' !in "file" {}
  lemma FileTxtDot() ensures "file.txt." == "file.txt" + "." {}
  lemma PlainFileTxt() ensures PlainName("file.txt") {}
  lemma PlainHiddenFileTxt() ensures PlainName(".file.txt") {}
  lemma PlainDotFile() ensures PlainName(".file") {}
  lemma PlainFileTxtDot() ensures PlainName("file.txt.") {}
  lemma PlainFile() ensures PlainName("file") && '.' !in "file" {}

  /** The name of "/file.txt" is "file.txt". */
  lemma NameOfAbsoluteFile(cwd: string, homedir: string)
    ensures Name(FromString(File, "/file.txt", cwd, homedir)) == "file.txt"
  {
    ReadFileTxt();
    FromAbsoluteParts(File, "/file.txt", ["file.txt"], ["file.txt"], cwd, homedir);
  }

  /** The extension of "file.txt" is "txt". */
  lemma ExtensionOfFile(cwd: string, homedir: string)
    ensures Extension(FromString(File, "file.txt", cwd, homedir)) == Some("txt")
  {
    PlainFileTxt();
    SingleName(File, "file.txt", cwd, homedir);
    FileDotTxt();
    NameWithExtension(FromString(File, "file.txt", cwd, homedir), "file", "txt");
  }

  /** "dir/file.txt" is two parts on the current directory. */
  lemma ParseDirFileTxt(cwd: string, homedir: string)
    ensures FromString(File, "dir/file.txt", cwd, homedir) == Based(File, CurrentComponents(cwd), ["dir", "file.txt"])
  {
    ReadDirFileTxt();
    FromRelativeParts(File, "dir/file.txt", ["dir", "file.txt"], ["dir", "file.txt"], cwd, homedir);
  }

  /** The stem of "dir/file.txt" is "file", on any base. */
  lemma StemOfNestedFile(base: seq<string>)
    ensures NameWithoutExtension(Based(File, base, ["dir", "file.txt"])) == "file"
  {
    NameOfRelative(File, base, ["dir", "file.txt"]);
    FileDotTxt();
    NameWithExtension(Based(File, base, ["dir", "file.txt"]), "file", "txt");
  }

  /** A leading "." is part of the stem, never the start of an extension. */
  lemma HiddenFileWithExtension(cwd: string, homedir: string)
    ensures Name(FromString(File, ".file.txt", cwd, homedir)) == ".file.txt"
    ensures NameWithoutExtension(FromString(File, ".file.txt", cwd, homedir)) == ".file"
  {
    PlainHiddenFileTxt();
    SingleName(File, ".file.txt", cwd, homedir);
    HiddenFileDotTxt();
    NameWithExtension(FromString(File, ".file.txt", cwd, homedir), ".file", "txt");
  }

  /** "/dir/.file.txt" is the absolute file [dir, .file.txt]. */
  lemma ParseDirDotFileTxt(cwd: string, homedir: string)
    ensures FromString(File, "/dir/.file.txt", cwd, homedir) == Absolute(File, ["dir", ".file.txt"])
  {
    ReadDirDotFileTxt();
    FromAbsoluteParts(File, "/dir/.file.txt", ["dir", ".file.txt"], ["dir", ".file.txt"], cwd, homedir);
  }

  /** The extension of "/dir/.file.txt" is "txt". */
  lemma ExtensionOfNestedHiddenFile()
    ensures Extension(Absolute(File, ["dir", ".file.txt"])) == Some("txt")
  {
    HiddenFileDotTxt();
    NameWithExtension(Absolute(File, ["dir", ".file.txt"]), ".file", "txt");
  }

  /** ".file" has no extension and is its own stem. */
  lemma HiddenFile(cwd: string, homedir: string)
    ensures Name(FromString(File, ".file", cwd, homedir)) == ".file"
    ensures Extension(FromString(File, ".file", cwd, homedir)) == None
    ensures NameWithoutExtension(FromString(File, ".file", cwd, homedir)) == ".file"
  {
    PlainDotFile();
    SingleName(File, ".file", cwd, homedir);
    DotFile();
    HiddenName(FromString(File, ".file", cwd, homedir), "file");
  }

  /** A final "." gives no extension, but is dropped from the stem. */
  lemma TrailingDot(cwd: string, homedir: string)
    ensures Name(FromString(File, "file.txt.", cwd, homedir)) == "file.txt."
    ensures Extension(FromString(File, "file.txt.", cwd, homedir)) == None
    ensures NameWithoutExtension(FromString(File, "file.txt.", cwd, homedir)) == "file.txt"
  {
    PlainFileTxtDot();
    SingleName(File, "file.txt.", cwd, homedir);
    FileTxtDot();
    NameEndingInDot(FromString(File, "file.txt.", cwd, homedir), "file.txt");
  }

  /** "file" has no extension and is its own stem. */
  lemma NoDot(cwd: string, homedir: string)
    ensures Name(FromString(File, "file", cwd, homedir)) == "file"
    ensures Extension(FromString(File, "file", cwd, homedir)) == None
    ensures NameWithoutExtension(FromString(File, "file", cwd, homedir)) == "file"
  {
    PlainFile();
    SingleName(File, "file", cwd, homedir);
    NameWithoutDot(FromString(File, "file", cwd, homedir));
  }
  /** "." has the name of the current directory, `DirectoryPath(cwd)`,
      for every current directory, the root included. */
  lemma CurrentDirectoryName(cwd: string, homedir: string)
    requires |cwd| > 0 && cwd[0] == Separator
    ensures Name(FromString(Directory, ".", cwd, homedir)) == Name(FromString(Directory, cwd, cwd, homedir))
  {
    CurrentDirectory(cwd, homedir);
    assert Split(cwd)[0] == "";
  }

  /** The root's name is "/". */
  lemma RootName(cwd: string, homedir: string)
    ensures Name(FromString(Directory, "/", cwd, homedir)) == "/"
  {
    ReadRoot();
    FromAbsoluteParts(Directory, "/", [], [], cwd, homedir);
  }
}
