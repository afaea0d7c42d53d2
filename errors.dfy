/** The errors the file system layer throws and their messages
    (Sources/Errors.swift).  The message of `outsideSandbox` names the
    current directory, which is asked of the operating system: here its
    string is the parameter `current`. */
module Errors {
  import opened General
  import opened Strings
  import opened Paths
  import opened PathLaws

  datatype FileSystemError =
    | AlreadyExists(path: Path)
    | NotFound(path: Path)
    | IsDirectory(path: Path)
    | NotDirectory(path: Path)
    | InvalidAccess(path: Path, writing: bool)
    | CouldNotCreate(path: Path)
    | OutsideSandbox(path: Path)

  predicate HasPrefix(s: string, prefix: string)
  {
    |prefix| <= |s| && s[..|prefix|] == prefix
  }

  predicate HasSuffix(s: string, suffix: string)
  {
    |suffix| <= |s| && s[|s| - |suffix|..] == suffix
  }

  /** `locationDescription`: the path's string, then " in " and the base's
      string when the path has a base. */
  function LocationDescription(p: Path): (r: string)
    ensures HasPrefix(r, PathString(p))
    ensures |r| == |PathString(p)| <==> BaseComponents(p).None?
    ensures BaseComponents(p).Some? ==> HasPrefix(r[|PathString(p)|..], " in /")
  {
    PathString(p) + match Base(p) { case None => "" case Some(b) => " in " + PathString(b) }
  }

  /** `typeDescription`: "Directory ", "File " or nothing, by kind. */
  function TypeDescription(p: Path): (r: string)
    ensures r == "" <==> p.kind == AnyKind
    ensures r != "" ==> r[|r| - 1] == ' '
  {
    match p.kind
    case Directory => "Directory "
    case File => "File "
    case AnyKind => ""
  }

  /** `description`; `current` is the current directory's string,
      `DirectoryPath.current.string`. */
  function Description(e: FileSystemError, current: string): (r: string)
    ensures |r| > 0 && r[|r| - 1] == '.'
  {
    match e
    case AlreadyExists(p) => LocationDescription(p) + " already exists."
    case NotFound(p) => TypeDescription(p) + LocationDescription(p) + " does not exist."
    case IsDirectory(p) => LocationDescription(p) + " is a directory. Expected a file."
    case NotDirectory(p) => LocationDescription(p) + " is not a directory."
    case InvalidAccess(p, writing) =>
      "Could not access " + LocationDescription(p) + (if writing then " for writing." else ".")
    case CouldNotCreate(p) => "Could not create " + TypeDescription(p) + "in " + LocationDescription(p) + "."
    case OutsideSandbox(p) =>
      LocationDescription(Absolute(File, Components(p))) + NotInCurrent + current + SandboxAdvice
  }

  /** The fixed parts of the `outsideSandbox` message. */
  const NotInCurrent := " is not in the current working directory "
  const SandboxAdvice :=
    ". Set Directory.sandbox to 'false' if you want to change the file system outside of the current working directory."

  // ----- laws -----

  /** Proof helper: a string starts with any of its front parts. */
  lemma PrefixOfAppend(a: string, b: string)
    ensures HasPrefix(a + b, a)
  {
    assert (a + b)[..|a|] == a;
  }

  /** The messages about a path that exists or not start with its location,
      after its type for `notFound`. */
  lemma MessageStartsWithLocation(p: Path, current: string)
    ensures HasPrefix(Description(AlreadyExists(p), current), LocationDescription(p))
    ensures HasPrefix(Description(NotFound(p), current), TypeDescription(p) + LocationDescription(p))
    ensures HasPrefix(Description(IsDirectory(p), current), LocationDescription(p))
    ensures HasPrefix(Description(NotDirectory(p), current), LocationDescription(p))
  {
    PrefixOfAppend(LocationDescription(p), " already exists.");
    PrefixOfAppend(TypeDescription(p) + LocationDescription(p), " does not exist.");
    PrefixOfAppend(LocationDescription(p), " is a directory. Expected a file.");
    PrefixOfAppend(LocationDescription(p), " is not a directory.");
  }

  /** Proof helper: a string ends with any of its back parts. */
  lemma SuffixOfAppend(a: string, b: string)
    ensures HasSuffix(a + b, b)
  {
    assert (a + b)[|a|..] == b;
  }

  /** The `couldNotCreate` message names the type after "Could not create "
      and ends with the location. */
  lemma CouldNotCreateEndsWithLocation(p: Path, current: string)
    ensures HasPrefix(Description(CouldNotCreate(p), current), "Could not create " + TypeDescription(p))
    ensures HasSuffix(Description(CouldNotCreate(p), current), LocationDescription(p) + ".")
  {
    FrontAndBack("Could not create ", TypeDescription(p), "in ", LocationDescription(p), ".");
  }

  /** Proof helper: a message of five parts starts with its first two and
      ends with its last two. */
  lemma FrontAndBack(a: string, t: string, b: string, l: string, c: string)
    ensures HasPrefix(a + t + b + l + c, a + t)
    ensures HasSuffix(a + t + b + l + c, l + c)
  {
    assert a + t + b + l + c == (a + t) + (b + l + c);
    PrefixOfAppend(a + t, b + l + c);
    assert a + t + b + l + c == (a + t + b) + (l + c);
    SuffixOfAppend(a + t + b, l + c);
  }

  /** The two `invalidAccess` messages share everything up to the final
      ".", which the writing one replaces by " for writing.". */
  lemma InvalidAccessEnding(p: Path, current: string)
    ensures var reading := Description(InvalidAccess(p, false), current);
      var writing := Description(InvalidAccess(p, true), current);
      |reading| > 0 && reading[|reading| - 1] == '.'
      && writing == reading[..|reading| - 1] + " for writing."
      && HasSuffix(writing, " for writing.") && writing != reading
  {
    var head := "Could not access " + LocationDescription(p);
    var reading := Description(InvalidAccess(p, false), current);
    assert reading == head + ".";
    assert reading[..|reading| - 1] == head;
  }

  /** `outsideSandbox` shows the path as an absolute file path: the message
      depends only on the components, starts with the absolute string, and
      so never names a base. */
  lemma OutsideSandboxIgnoresBase(p: Path, q: Path, current: string)
    requires Components(p) == Components(q)
    ensures Description(OutsideSandbox(p), current) == Description(OutsideSandbox(q), current)
    ensures HasPrefix(Description(OutsideSandbox(p), current), AbsoluteString(p) + " is not in the current working directory ")
  {
    var a := Absolute(File, Components(p));
    assert a == Absolute(File, Components(q));
    assert LocationDescription(a) == AbsoluteString(p);
    FrontOfFour(LocationDescription(a), NotInCurrent, current, SandboxAdvice);
  }

  /** Proof helper: a message of four parts starts with its first two. */
  lemma FrontOfFour(a: string, b: string, c: string, d: string)
    ensures HasPrefix(a + b + c + d, a + b)
  {
    assert a + b + c + d == (a + b) + (c + d);
    PrefixOfAppend(a + b, c + d);
  }

  /** The location of a based path names its base: for a path made from a
      relative string, the current directory. */
  lemma LocationNamesCurrentDirectory(kind: Kind, s: string, cwd: string, homedir: string)
    requires !(kind == File && EndsWithSeparator(s))
    requires DirectoryString(cwd) && ParseComponents(s, homedir).1
    ensures LocationDescription(FromString(kind, s, cwd, homedir))
      == PathString(FromString(kind, s, cwd, homedir)) + " in " + cwd
  {
    BaseStringIsCwd(kind, s, cwd, homedir);
  }
}
