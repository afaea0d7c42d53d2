# FileSmith path model in Dafny

FileSmith is a Swift library that gives file system locations types.
A `DirectoryPath` must name a directory; a `FilePath` must name something else.
`AnyPath` may name either.
A path is either absolute, or split into a *base* directory and a *relative* part under it.

This project models the value-level core of the library:

- **Normaliser** (`normaliser.dfy`): `fixDotDots`, which removes every `[name, ".."]` pair.
  - It is an imperative loop method, `FixDotDots`.
  - It is proved equal to a stack-based reference function, `Collapse`.
  - Both are proved idempotent and to leave ".." only as a leading run.
  - `Collapse` is proved to remove only adjacent pairs.
- **Current revision** (`paths.dfy`, `path_laws.dfy`, `path_examples.dfy`; `Sources/FileSmith/Paths.swift`):
  - The stored component list and its optional split index, with the accessors.
  - The string parser and the string initialisers.
  - `string`, `relativeString`, `absoluteString`, `name`, `extension` and `nameWithoutExtension`.
  - `parent`, `relativeTo`, `append` and `+`.
  - The irreflexive `isAParentOf` and the structural `==`.
  - The three structs become one datatype with a `Kind` tag.
  - Swift's type constraints become preconditions on the kind.
- **Legacy revision** (`legacy_paths.dfy`; `Sources/Paths.swift`): what it does differently from the current one.
  - The home-directory branch of the parser, and the string initialisers built on it.
  - `append` without a `relative` flag.
  - A reflexive `isAParentOf`.
  - An `==` that ignores bases.
  - Everything else in it is the same code as the current revision and is shared with module `Paths`.
- **Oldest revision** (`swifty_path.dfy`; `Sources/SwiftyPath.swift`): a path model with no normalisation at all.
  - `initPath` for strings is a method that mutates a local list.
  - Also `initPath` for collections, the string forms, `name`, `extension` and `+`.
- **Errors** (`errors.dfy`; `Sources/Errors.swift`): the error cases and their messages.
- **Directory** (`directory.dfy`; `Sources/Directory.swift`): the sandbox guard `verifyIsInSandbox`, the re-basing in `filter`, and the composition in `filesOrDirectories`.
- **General** (`general.dfy`, `strings.dfy`; `Sources/General.swift` and Foundation):
  - `lastIndex(of:)`: a backwards loop method proved against a recursive specification.
  - `components(separatedBy:)` and `joined(separator:)`, with their round trips.

The operating system's answers become parameters. This covers the current directory's string, the home directory's string (or components, in the oldest revision) and the global `sandbox` flag. It also covers the symlink-resolved path, what a glob pattern matches and the contents of a directory.

Notes on the code:

- `init(base:relative:)` with component lists stores both lists as given; it does not normalise them.
  - The parser and `append` are what normalise.
  - `Paths.WellFormed` states what every path built from strings satisfies.
- `extension` looks only at the LAST dot. If that dot is the first or last character there is no extension, even when an earlier dot would qualify ("file.txt." has none).
- `append(file:)` in the current revision does not refuse a string ending in "/"; only `init(_ String)` of a `FilePath` does.
- `init(_ stringpath:)` takes the current directory's pieces after the first. At the root "/" these are [""], an empty component; the model uses the current directory's prepared components instead (see Findings). Below the root the two agree.
- `indexOfFirstDifference`, used by `relativeTo`, is not part of this model's sources. It is modelled as: nothing when the lists are equal, otherwise the length of their common prefix. `relativeTo` keeps the code's fallback to the full component count.

## Model

| member | source | states |
|---|---|---|
| General.FirstIndex | Sources/FileSmith/Paths.swift:172 | the index found holds the element and none before it does; none iff the element is absent |
| General.LastIndex | Sources/General.swift:9-19 | the index found holds the element and no later index does; none iff the element is absent |
| General.LastIndexOf | Sources/General.swift:9-19 | the backwards loop on a non-empty collection returns what `LastIndex` specifies: an index of the element with none after it, or none iff absent |
| General.LastIndexIsUnique | Sources/General.swift:9-19 | any index holding the element with no later occurrence is the one `LastIndex` returns |
| Strings.SplitOn | Sources/SwiftyPath.swift:75 | at least one piece; no piece contains the separator; the first piece is empty iff the string is empty or starts with the separator |
| Strings.Split | Sources/FileSmith/Paths.swift:194 | the same for "/" |
| Strings.JoinSplit | Sources/FileSmith/Paths.swift:194 | joining the parts of a split gives back the string |
| Strings.SplitJoin | Sources/FileSmith/Paths.swift:320 | splitting the join of separator-free parts gives back the parts |
| Strings.SplitAppend | Sources/FileSmith/Paths.swift:194 | a separator splits a string into the parts before it followed by the parts after it |
| Strings.SplitPrefix | Sources/FileSmith/Paths.swift:194 | a separator-free prefix followed by "/" becomes the first part |
| Strings.SplitNoSeparator | Sources/FileSmith/Paths.swift:194 | a string without "/" is one part |
| Strings.JoinSnoc | Sources/FileSmith/Paths.swift:320 | joining one more part appends "/" and the part |
| Strings.SplitOnSingle | Sources/SwiftyPath.swift:76 | there is exactly one piece iff the separator does not occur |
| Strings.SplitOnNoSeparator | Sources/SwiftyPath.swift:75 | a string without the separator is one piece |
| Strings.SplitOnLastPiece | Sources/SwiftyPath.swift:76 | the last piece is the text after the last separator |
| Strings.SplitOnEndsEmpty | Sources/SwiftyPath.swift:104-106 | the last piece is empty iff the string is empty or ends with the separator |
| Normaliser.FixDotDots | Sources/FileSmith/Paths.swift:171-184 | the in-place loop (first "..", index moving both ways, pair removal) computes the stack reference `Collapse` |
| Normaliser.StartIndex | Sources/FileSmith/Paths.swift:172-174 | none only when collapsing changes nothing; otherwise a start index (the first "..", at least 1) before which the list is already collapsed |
| Normaliser.CollapseIsFold | Sources/FileSmith/Paths.swift:171-184 | the collapse is the left-to-right fold of the stack step |
| Normaliser.CollapseLeavesDotDotsLeading | Sources/FileSmith/Paths.swift:169-170 | in the result every ".." is in the leading run |
| Normaliser.CollapseFixesLeading | Sources/FileSmith/Paths.swift:172 | a list whose ".." are all leading (in particular one without "..") is unchanged |
| Normaliser.CollapseWithoutDotDots | Sources/FileSmith/Paths.swift:172 | a list without ".." is unchanged |
| Normaliser.CollapseIdempotent | Sources/FileSmith/Paths.swift:171-184 | collapsing twice equals collapsing once |
| Normaliser.CollapseNormal | Sources/FileSmith/Paths.swift:188-191 | collapsing a list without empty or "." parts gives a normal list |
| Normaliser.CollapseParts | Sources/FileSmith/Paths.swift:171-184 | every part of the result is a part of the input |
| Normaliser.CollapseAppend | Sources/FileSmith/Paths.swift:412-417 | a prefix may be collapsed first |
| Normaliser.CollapseAbsorbs | Sources/FileSmith/Paths.swift:412-417 | a suffix may be collapsed first |
| Normaliser.CollapseAppendNames | Sources/FileSmith/Paths.swift:412-417 | appending names without ".." after a collapse appends them unchanged |
| Normaliser.CollapseClimbs | Sources/FileSmith/Paths.swift:363-367 | k ".." after k names without ".." remove those names |
| Normaliser.CollapseRemovesOnlyPairs | Sources/FileSmith/Paths.swift:169-170 | the result is reached from the input by removing adjacent `[name, ".."]` pairs only, and contains no such pair |
| Normaliser.CollapseTrace | Sources/FileSmith/Paths.swift:176-178 | the recorded pair removals replay to the collapse |
| Normaliser.DotDotExamplesDropOne | Tests/FileSmithTests/PathTests.swift:97-98 | `/dir1/dir2/..` gives `/dir1`; `/../dir1/dir2/..` gives `/../dir1` |
| Normaliser.DotDotExamplesDropTwo | Tests/FileSmithTests/PathTests.swift:99-100 | `/dir/dir/../../dir2` gives `/dir2`; `/dir/../dir/../../dir2` gives `/../dir2` |
| Normaliser.DotDotExamplesClimbOut | Tests/FileSmithTests/PathTests.swift:101-103 | `/dir/dir/../../../dir2` gives `/../dir2`; `/../dir1/../dir2/..` gives `/..` |
| Paths.Absolute | Sources/FileSmith/Paths.swift:48-51 | no base and no relative part; the components are the given list |
| Paths.Based | Sources/FileSmith/Paths.swift:57-60 | the base and the relative part are the given lists |
| Paths.RelativeComponents | Sources/FileSmith/Paths.swift:65-67 | present iff the base is; base followed by relative part is the stored list |
| Paths.BaseComponents | Sources/FileSmith/Paths.swift:72-74 | present iff the path has a split; then a prefix of the stored list |
| Paths.ComponentsNormal | Sources/FileSmith/Paths.swift:76-83 | for a well-formed path, the shortcut in `components` (`Paths.Components`) equals the full collapse of the stored list, and is normal as documented |
| Paths.FilterSegments | Sources/FileSmith/Paths.swift:190 | keeps exactly the parts that are neither empty nor "."; leaves a list without such parts unchanged |
| Paths.PrepareComponents | Sources/FileSmith/Paths.swift:188-191 | the result is normal: no empty or "." parts, ".." only leading |
| Paths.ParseComponents | Sources/FileSmith/Paths.swift:187-201 | normal components; relative iff the string is empty or starts neither with "/" nor with a first part "~" |
| Paths.CurrentComponents | Sources/FileSmith/Paths.swift:221 | the current directory's components are normal, as every base must be (53-54) |
| Paths.FromString | Sources/FileSmith/Paths.swift:218-231 | relative iff the parser says so, and then based on the current directory's components; the relative part (or the components) is normal; a `FilePath` from a string ending in "/" is excluded |
| Paths.FromBaseAndRelative | Sources/FileSmith/Paths.swift:210-214 | base = components of the base string's directory; relative part = the parse of "/" + relative |
| Paths.LeadingSeparatorIgnored | Sources/FileSmith/Paths.swift:209-214 | a relative string with a leading "/" gives the same path as without it |
| Paths.FromStringWellFormed | Sources/FileSmith/Paths.swift:218-226 | every path parsed from a string is well formed, for every current directory, the root included |
| Paths.FromStringAsWritten | Sources/FileSmith/Paths.swift:218-226 | as the code is written: relative iff the parser says so, and then based on the current directory's pieces after the first |
| Paths.DirectoryStringComponents | Sources/FileSmith/Paths.swift:221 | for a current directory string as the operating system reports it, the components are the pieces after the first (none at the root) and render back to the string |
| Paths.AsWrittenAgreesBelowRoot | Sources/FileSmith/Paths.swift:218-226 | below the root, the code as written and the model give the same path for every string |
| Paths.RootCurrentDirectoryAsWritten | Sources/FileSmith/Paths.swift:221 | at the root, "." as written has the single component "", name "" and is not well formed; in the model it has no components and name "/" |
| Paths.Convert | Sources/FileSmith/Paths.swift:289-295 | the conversion keeps stored list and split and changes only the kind |
| Paths.RelativeString | Sources/FileSmith/Paths.swift:313-316 | present iff there is a relative part; never empty ("." for an empty part) |
| Paths.AbsoluteString | Sources/FileSmith/Paths.swift:319-321 | starts with "/" |
| Paths.PathString | Sources/FileSmith/Paths.swift:298-300 | never empty |
| Paths.Base | Sources/FileSmith/Paths.swift:308-310 | present iff there is a base; an absolute directory with the base's components |
| Paths.Extension | Sources/FileSmith/Paths.swift:329-335 | an extension is non-empty, has no ".", and follows the name's last ".", which is neither its first nor its last character |
| Paths.NameWithoutExtension | Sources/FileSmith/Paths.swift:338-343 | a prefix of the name; when shorter, it stops at the name's last "." |
| Paths.AbsolutePath | Sources/FileSmith/Paths.swift:346-348 | same kind and components, no base |
| Paths.DropLast | Sources/FileSmith/Paths.swift:357 | a prefix, k shorter (empty when k is at least the length) |
| Paths.Parent | Sources/FileSmith/Paths.swift:352-358 | a directory; when it keeps a base, it is the path's base |
| Paths.IndexOfFirstDifference | Sources/FileSmith/Paths.swift:364 | none iff the lists are equal; otherwise a common prefix length at which they differ or one ends |
| Paths.RelativeTo | Sources/FileSmith/Paths.swift:363-367 | same kind; the base is the given directory's components |
| Paths.Append | Sources/FileSmith/Paths.swift:412-417 | keeps the directory's base (or absoluteness) and takes the requested kind |
| Paths.AppendString | Sources/FileSmith/Paths.swift:419-422 | with `relative` the directory's components become the base; otherwise the directory's base is kept |
| Paths.AppendFile | Sources/FileSmith/Paths.swift:431-433 | gives a file path |
| Paths.AppendDirectory | Sources/FileSmith/Paths.swift:442-444 | gives a directory path |
| Paths.Plus | Sources/FileSmith/Paths.swift:446-449 | the right operand's kind, the left operand's base |
| Paths.Root | Sources/FileSmith/Paths.swift:408-410 | an absolute directory with no components |
| Paths.IsAParentOf | Sources/FileSmith/Paths.swift:452-454 | a parent has fewer components than the path |
| Paths.Equal | Sources/FileSmith/Paths.swift:463-473 | equal paths have the same components |
| PathLaws.EqualIsStructural | Sources/FileSmith/Paths.swift:463-473 | `==` holds iff the two values are identical, so it is an equivalence and agrees with the synthesised hash |
| PathLaws.BasedNeverEqualsAbsolute | Sources/FileSmith/Paths.swift:465-467 | a based path never equals an absolute one |
| PathLaws.IsAParentOfIsProperPrefix | Sources/FileSmith/Paths.swift:452-454 | `isAParentOf` holds iff the directory's components are a proper prefix of the path's |
| PathLaws.IsAParentOfIrreflexive | Sources/FileSmith/Paths.swift:452-454 | no directory is its own parent |
| PathLaws.IsAParentOfTransitive | Sources/FileSmith/Paths.swift:452-454 | `isAParentOf` is transitive |
| PathLaws.ParentComponents | Sources/FileSmith/Paths.swift:352-358 | the parent's components are the path's without the last k, on both branches; the parent is well formed |
| PathLaws.DropRelativeTail | Sources/FileSmith/Paths.swift:354-355 | dropping from the relative part equals dropping from the collapsed whole when no ".." is dropped |
| PathLaws.ParentOfRoot | Tests/FileSmithTests/PathTests.swift:122-123 | every parent of the root is the root |
| PathLaws.ParentIsAParent | Sources/FileSmith/Paths.swift:352-358 | the parent of a path with components is a parent of it |
| PathLaws.AppendComponents | Sources/FileSmith/Paths.swift:412-417 | the appended path's components are the collapse of the directory's followed by the new parts, on both branches; the result is well formed |
| PathLaws.AppendNames | Sources/FileSmith/Paths.swift:412-417 | appending names without ".." adds exactly those names |
| PathLaws.PlusComponents | Sources/FileSmith/Paths.swift:446-449 | `dir + p` has the collapse of the directory's components and p's relative part (or components); it keeps dir's base and is well formed |
| PathLaws.PlusIsUnder | Sources/FileSmith/Paths.swift:446-449 | the directory is a parent of `dir + p` when p's relative part is non-empty and has no ".." |
| PathLaws.RelativeToSameItem | Sources/FileSmith/Paths.swift:360-367 | `relativeTo` points to the same item (same components) and is well formed, for every base without ".." |
| PathLaws.RelativeToClimbingBase | Sources/FileSmith/Paths.swift:360-367 | as written, "/a" relative to the base "/../base1" has components [.., .., a], not [a]: the same-item promise fails for a base with ".." |
| PathLaws.ClimbThenDescend | Sources/FileSmith/Paths.swift:366 | climbing from the base to the common prefix and descending gives back the components |
| PathLaws.ClimbToCommonPrefix | Sources/FileSmith/Paths.swift:366 | climbing from a base without ".." by as many ".." as it has parts beyond the common prefix leaves exactly that prefix |
| PathLaws.PathStringShowsBase | Sources/FileSmith/Paths.swift:298-300 | `string` starts with "/" iff the path has no base |
| PathLaws.BaseStringIsCwd | Tests/FileSmithTests/PathTests.swift:19 | a path parsed from a relative string has the current directory's string as its base's string, for every current directory string as the operating system reports it, "/" included |
| PathLaws.ParseAbsoluteParts | Sources/FileSmith/Paths.swift:195-196 | "/" followed by separator-free parts parses to the collapse of the filtered parts, absolute |
| PathLaws.ParseRelativeParts | Sources/FileSmith/Paths.swift:200 | separator-free parts not starting with "" or "~" parse to the collapse of the filtered parts, relative |
| PathLaws.FilterSegmentsSnocEmpty | Sources/FileSmith/Paths.swift:190 | an empty last part is filtered away |
| PathLaws.TrailingSeparatorIgnored | Tests/FileSmithTests/PathTests.swift:51-56 | a trailing "/" does not change a directory (or untyped) path |
| PathLaws.TildeIsHome | Sources/FileSmith/Paths.swift:197-198 | "~/rest" is the same path as the home directory's string followed by "/rest" |
| PathLaws.TildeAloneIsHome | Sources/FileSmith/Paths.swift:197-198 | "~" is the home directory |
| PathLaws.AbsoluteStringRoundTrip | Sources/FileSmith/Paths.swift:319-321 | parsing the absolute string of an absolute well-formed path gives the path back |
| PathLaws.RelativeStringRoundTrip | Sources/FileSmith/Paths.swift:313-316 | parsing the string of a path based on the current directory gives the path back |
| PathLaws.NameIsLastPiece | Sources/FileSmith/Paths.swift:324-326 | the name is the last "/"-piece of the absolute string; it is the whole absolute string "/" exactly when there are no components |
| PathLaws.StemAndExtension | Sources/FileSmith/Paths.swift:329-343 | with an extension the name is stem + "." + extension, the extension has no ".", the stem is not empty; without one the stem is the name or the name less a final "." |
| PathLaws.NameWithExtension | Sources/FileSmith/Paths.swift:329-343 | the name `stem.ext` (stem non-empty, ext non-empty without ".") has exactly that extension and stem |
| PathLaws.NameWithoutDot | Sources/FileSmith/Paths.swift:329-343 | a name without "." has no extension and is its own stem |
| PathLaws.HiddenName | Sources/FileSmith/Paths.swift:329-343 | a name whose only "." is the first character has no extension and is its own stem |
| PathLaws.NameEndingInDot | Sources/FileSmith/Paths.swift:329-343 | a name ending in "." has no extension but loses that "." from its stem |
| PathExamples.FromAbsoluteParts | Sources/FileSmith/Paths.swift:218-226 | a string that reads as "/" and parts gives the absolute path of the prepared parts |
| PathExamples.FromRelativeParts | Sources/FileSmith/Paths.swift:218-226 | a string that reads as relative parts gives the prepared parts on the current directory |
| PathExamples.ParseTmp | Tests/FileSmithTests/PathTests.swift:8 | "/tmp" is the absolute directory `[tmp]` |
| PathExamples.ParseFile | Tests/FileSmithTests/PathTests.swift:10 | "file" is `[file]` on the current directory |
| PathExamples.ParseRelativeDir | Tests/FileSmithTests/PathTests.swift:9 | "relativedir" is `[relativedir]` on the current directory |
| PathExamples.PlusOfAbsolute | Sources/FileSmith/Paths.swift:446-449 | absolute directory + based file is absolute, with the file's relative part appended |
| PathExamples.PlusOfBased | Sources/FileSmith/Paths.swift:446-449 | based directory + based file keeps the directory's base |
| PathExamples.AddToAbsolute | Tests/FileSmithTests/PathTests.swift:12 | `/tmp` + `file` renders "/tmp/file" |
| PathExamples.AddToRelative | Tests/FileSmithTests/PathTests.swift:13 | `relativedir` + `file` is `[relativedir, file]` on the current directory |
| PathExamples.PlusOfRelativeDirFile | Tests/FileSmithTests/PathTests.swift:13 | on any base, `relativedir` + `file` keeps the base and has relative part `[relativedir, file]` |
| PathExamples.AddToRelativeString | Tests/FileSmithTests/PathTests.swift:13 | and renders "relativedir/file" |
| PathExamples.CurrentDirectory | Tests/FileSmithTests/PathTests.swift:35-37 | "." has an empty relative part and renders "." |
| PathExamples.RelativeFilePath | Tests/FileSmithTests/PathTests.swift:17-23 | "folder1/file1.txt" renders as given and its base renders as the current directory, for every current directory string as reported |
| PathExamples.FromBaseAndRelativeParts | Sources/FileSmith/Paths.swift:210-214 | a base and a relative string that read as parts give those prepared parts as base and relative part |
| PathExamples.BaseAndRelativeCancel | Tests/FileSmithTests/PathTests.swift:105 | base "/base1/../base2", relative "rel1/.." give base `[base2]` and an empty relative part |
| PathExamples.BaseAndRelativeCancelStrings | Tests/FileSmithTests/PathTests.swift:106-108 | relative string ".", base "/base2", absolute "/base2" |
| PathExamples.BaseIsRoot | Tests/FileSmithTests/PathTests.swift:110 | base "/base1/../" and relative "/rel1/../rel2" give base `[]` and relative `[rel2]` |
| PathExamples.BaseIsRootStrings | Tests/FileSmithTests/PathTests.swift:111-113 | relative string "rel2", base "/", absolute "/rel2" |
| PathExamples.RelativeClimbsIntoBase | Tests/FileSmithTests/PathTests.swift:115 | base "/../base1" and relative "../rel1" are kept apart |
| PathExamples.ClimbingComponents | Tests/FileSmithTests/PathTests.swift:118 | that path's components are `[.., rel1]` |
| PathExamples.RelativeClimbsIntoBaseStrings | Tests/FileSmithTests/PathTests.swift:116-125 | relative string "../rel1", base "/../base1", absolute "/../rel1", name "rel1" |
| PathExamples.ParentsOfClimbingPath | Tests/FileSmithTests/PathTests.swift:120-123 | its parent stays on the base as `[..]`; two levels up, and the parent of that parent, is the root; the absolute form's parent is `/..` |
| PathExamples.ParentsOfClimbingPathStrings | Tests/FileSmithTests/PathTests.swift:120-126 | those render "..", "/" and "/..", and the first has name ".." |
| PathExamples.SingleName | Sources/FileSmith/Paths.swift:218-222 | a plain name is one relative part on the current directory and is the path's name |
| PathExamples.NameOfRelative | Sources/FileSmith/Paths.swift:324-326 | the name of a path whose relative part does not start with ".." is its last relative part |
| PathExamples.NameOfAbsoluteFile | Tests/FileSmithTests/PathTests.swift:60 | the name of "/file.txt" is "file.txt" |
| PathExamples.ExtensionOfFile | Tests/FileSmithTests/PathTests.swift:61 | the extension of "file.txt" is "txt" |
| PathExamples.ParseDirFileTxt | Tests/FileSmithTests/PathTests.swift:62 | "dir/file.txt" is `[dir, file.txt]` on the current directory |
| PathExamples.StemOfNestedFile | Tests/FileSmithTests/PathTests.swift:62 | its stem is "file" |
| PathExamples.HiddenFileWithExtension | Tests/FileSmithTests/PathTests.swift:63-65 | ".file.txt" has name ".file.txt" and stem ".file" |
| PathExamples.ParseDirDotFileTxt | Tests/FileSmithTests/PathTests.swift:64 | "/dir/.file.txt" is the absolute `[dir, .file.txt]` |
| PathExamples.ExtensionOfNestedHiddenFile | Tests/FileSmithTests/PathTests.swift:64 | its extension is "txt" |
| PathExamples.HiddenFile | Tests/FileSmithTests/PathTests.swift:66-68 | ".file" has name ".file", no extension, stem ".file" |
| PathExamples.TrailingDot | Tests/FileSmithTests/PathTests.swift:69-71 | "file.txt." has name "file.txt.", no extension, stem "file.txt" |
| PathExamples.NoDot | Tests/FileSmithTests/PathTests.swift:72-74 | "file" has name "file", no extension, stem "file" |
| PathExamples.CurrentDirectoryName | Tests/FileSmithTests/PathTests.swift:75 | "." has the name of the current directory, for every absolute current directory string, the root included |
| PathExamples.RootName | Tests/FileSmithTests/PathTests.swift:76 | the name of "/" is "/" |
| LegacyPaths.ParseComponents | Sources/Paths.swift:187-202 | relative iff not starting with "/" or a first part "~"; without "~" it is the current parser and normal |
| LegacyPaths.FromString | Sources/Paths.swift:220-233 | relative iff the legacy parser says so; without "~" it is the current revision's path |
| LegacyPaths.FromBaseAndRelative | Sources/Paths.swift:211-215 | base = components of the base string's directory; without "~" it is the current revision's path |
| LegacyPaths.Root | Sources/Paths.swift:390-392 | parsing "/" gives the current revision's root |
| LegacyPaths.AppendFile | Sources/Paths.swift:403-406 | a file path keeping the directory's base; without "~" it is the current `append(file:relative: false)`; the same for `dir + "string"` (419-421) |
| LegacyPaths.AppendDirectory | Sources/Paths.swift:409-412 | the same for directories (and 423-425) |
| LegacyPaths.IsAParentOf | Sources/Paths.swift:428-430 | a parent has no more components than the path |
| LegacyPaths.Equal | Sources/Paths.swift:439-467 | equal paths are both based, or have the same components |
| LegacyPaths.IsAParentOfIsPrefix | Sources/Paths.swift:428-430 | `isAParentOf` holds iff the directory's components are a prefix of the path's |
| LegacyPaths.IsAParentOfAgainstCurrent | Sources/Paths.swift:428-430 | it holds iff the current revision's holds or the components are equal |
| LegacyPaths.IsAParentOfReflexive | Sources/Paths.swift:428-430 | every directory is its own parent here, never in the current revision |
| LegacyPaths.EqualReflexiveSymmetric | Sources/Paths.swift:439-467 | legacy `==` is reflexive and symmetric |
| LegacyPaths.EqualIgnoresBase | Sources/Paths.swift:441-442 | two based paths with the same relative part are equal whatever their bases |
| LegacyPaths.TildeKeepsEmptyComponent | Sources/Paths.swift:197-198 | "~/rest" gets an empty first component: not normal, absolute string starts with "//" |
| LegacyPaths.EqualButDifferentStrings | Sources/Paths.swift:362-365 | a based path and the absolute path of the same item are equal but render different strings, so their hashes need not agree |
| LegacyPaths.EqualNotTransitive | Sources/Paths.swift:439-467 | `/a/f` equals `f` on base `/a`, which equals `f` on base `/b`, but `/a/f` does not equal the last |
| SwiftyPath.Based | Sources/SwiftyPath.swift:120-123 | the split is at the base's end; the parts before and after it are base and relative part |
| SwiftyPath.InitPathCollection | Sources/SwiftyPath.swift:80-97 | relative iff no first part "~" or "/"; relative: current directory then the parts, split at its end; otherwise the parts after the first end the list |
| SwiftyPath.DropTrailingEmpty | Sources/SwiftyPath.swift:104-106 | removes exactly one empty last part, if there is one |
| SwiftyPath.ParseString | Sources/SwiftyPath.swift:99-108 | relative iff the string is non-empty, does not start with "/" and has no first part "~"; then split at the current directory's end |
| SwiftyPath.InitPathString | Sources/SwiftyPath.swift:99-108 | the loop-free mutating method computes `ParseString` |
| SwiftyPath.FromString | Sources/SwiftyPath.swift:130-132 | the path holds what `ParseString` gives; a `FilePath` string must not end in "/" (162-165) |
| SwiftyPath.FromCollection | Sources/SwiftyPath.swift:155-160 | the path holds what `InitPathCollection` gives; a `FilePath` needs parts and must not end in "/" |
| SwiftyPath.Root | Sources/SwiftyPath.swift:24-26 | no components and no base |
| SwiftyPath.RelativeComponents | Sources/SwiftyPath.swift:54-60 | present iff split; base followed by relative part is the list |
| SwiftyPath.BaseComponents | Sources/SwiftyPath.swift:58-60 | present iff the path is split; then a prefix of the list |
| SwiftyPath.RelativeString | Sources/SwiftyPath.swift:44-48 | present iff split |
| SwiftyPath.PathString | Sources/SwiftyPath.swift:32-34 | an unsplit path renders starting with "/" |
| SwiftyPath.Base | Sources/SwiftyPath.swift:40-42 | present iff split; an absolute directory that, followed by the relative part, gives the list |
| SwiftyPath.AbsolutePath | Sources/SwiftyPath.swift:224-232 | same kind and list, unsplit, rendering "/" and the joined parts |
| SwiftyPath.NameIsLastPiece | Sources/SwiftyPath.swift:70-72 | the name is the last "/"-piece of the absolute string (a path without components is excluded, as the code traps) |
| SwiftyPath.Plus | Sources/SwiftyPath.swift:201-214 | base = the directory's whole list, relative = the right path's relative part or list |
| SwiftyPath.AbsoluteKeepsParts | Sources/SwiftyPath.swift:93-94 | "/" and separator-free parts give exactly those parts, unsplit: nothing filtered or collapsed |
| SwiftyPath.RelativeKeepsParts | Sources/SwiftyPath.swift:88-92 | relative parts come after the current directory unchanged |
| SwiftyPath.TildeKeepsParts | Sources/SwiftyPath.swift:85-87 | "~/parts" gives the home components then the parts, unsplit |
| SwiftyPath.TrailingSeparatorDropped | Sources/SwiftyPath.swift:104-106 | one trailing "/" is ignored |
| SwiftyPath.PlusRendersRightSide | Sources/SwiftyPath.swift:201-214 | `dir + p` renders only p's relative part; the directory shows only in base and absolute form |
| SwiftyPath.PlusRootRendersEmpty | Sources/SwiftyPath.swift:208-210 | a directory plus the root renders as the empty string |
| SwiftyPath.Extension | Sources/SwiftyPath.swift:74-77 | an extension has no "." and the name has one |
| SwiftyPath.NoExtension | Sources/SwiftyPath.swift:74-77 | no extension iff the name has no "." or its only "." is the first character |
| SwiftyPath.ExtensionAfterLastDot | Sources/SwiftyPath.swift:74-77 | an extension is the text after the last "." |
| SwiftyPath.TrailingDotGivesEmptyExtension | Sources/SwiftyPath.swift:74-77 | a name ending in "." (not hidden) has the empty extension, unlike the later revisions |
| SwiftyPath.ParseTmp | Tests/SwiftyPathTests/SwiftyPathTests.swift:7 | "/tmp" is the unsplit `[tmp]` |
| SwiftyPath.ParseFile | Tests/SwiftyPathTests/SwiftyPathTests.swift:9 | "file" is `[file]` after the current directory |
| SwiftyPath.PlusTestDisagreement | Tests/SwiftyPathTests/SwiftyPathTests.swift:9 | `/tmp` + `file` renders "file"; only its absolute form is "/tmp/file" |
| Errors.LocationDescription | Sources/Errors.swift:20-22 | starts with `string`; longer exactly when there is a base, then continues with " in /" |
| Errors.TypeDescription | Sources/Errors.swift:24-30 | empty iff the path is untyped; otherwise ends with a space |
| Errors.Description | Sources/Errors.swift:34-50 | every message ends with "." |
| Errors.MessageStartsWithLocation | Sources/Errors.swift:36-43 | the already-exists, is-directory and not-directory messages start with the location; the not-found one with type then location |
| Errors.InvalidAccessEnding | Sources/Errors.swift:44-45 | the reading message ends in "."; the writing message is it with that "." replaced by " for writing.", so they differ |
| Errors.CouldNotCreateEndsWithLocation | Sources/Errors.swift:46-47 | the could-not-create message starts with "Could not create " and the type, and ends with the location and "." |
| Errors.OutsideSandboxIgnoresBase | Sources/Errors.swift:48-49 | the message depends only on the components and starts with the absolute string, never a base |
| Errors.LocationNamesCurrentDirectory | Sources/Errors.swift:20-22 | a path parsed from a relative string is located "in" the current directory's string, "/" included |
| Directories.VerifyIsInSandbox | Sources/Directory.swift:20-25 | never fails with the sandbox off; a failure carries the original path |
| Directories.SandboxPassesUnderCurrent | Sources/Directory.swift:20-25 | with the sandbox on it passes iff the current directory's components are a proper prefix of the path's or of the resolved path's |
| Directories.UnderCurrentIgnoresLinks | Sources/Directory.swift:22 | a path below the current directory passes whatever it resolves to |
| Directories.CurrentDirectoryRefused | Sources/Directory.swift:22-24 | the current directory itself is refused |
| Directories.SandboxScenarios | Sources/Directory.swift:20-25 | below passes; sibling and the directory itself are refused; a link resolving below passes |
| Directories.TrespassingRefused | Tests/FileSmithTests/DirectoryTests.swift:26-35 | "/tmp/unique" is refused with a temporary directory as current directory |
| Directories.NewDirectoryAllowed | Tests/FileSmithTests/DirectoryTests.swift:37-42 | `create(directory:)` of a plain name appends it to the current directory and passes |
| Directories.Rebase | Sources/Directory.swift:110-111 | same kind; base = the directory's components; for a match below it, base followed by relative part is the match's components |
| Directories.Filter | Sources/Directory.swift:105-113 | no more results than matches; each of the requested kind and based on the directory |
| Directories.GlobIn | Sources/Directory.swift:116 | the pattern is the directory's absolute string, "/" and the pattern |
| Directories.FromSubdirectories | Sources/Directory.swift:117-120 | each result of the requested kind and based on the listed directory |
| Directories.FilesOrDirectories | Sources/Directory.swift:115-121 | starts with the top-level filter, is exactly it when not recursive; every result is of the kind and based on the directory |
| Directories.FilterTypedForAnyKind | Sources/Directory.swift:105-113 | typed matches, as `path(detectTypeOf:)` makes them (Sources/FileSmith/Paths.swift:275-284), give nothing when filtered for the untyped kind |
| Directories.FilterAppend | Sources/Directory.swift:105-113 | filtering a concatenation concatenates the results: order is kept |
| Directories.FilterKeepsMatchesOfKind | Sources/Directory.swift:108-109 | a path is listed iff it is the re-basing of a match of the requested kind |
| Directories.RebaseSameItem | Sources/Directory.swift:110-111 | a re-based match below the directory has the match's components |
| Directories.RebasedString | Sources/Directory.swift:110-111 | and renders as its path below the directory |
| Directories.FilesExample | Tests/FileSmithTests/DirectoryTests.swift:88 | `files()` lists "file.txt" and "file2.txt" in order and leaves the subdirectory out |

## Left out

- URL conversions and URL initialisers of all three revisions: they rest on Foundation's URL standardisation, which is not part of this model.
- `path(detectTypeOf:)` and `FileType` (`stat(2)`): the typed matches are given to the listing as its input.
- `filterFiles` (C `glob`) and the recursive directory enumeration: both are parameters of `FilesOrDirectories`.
- The current directory, the home directory and symbolic link resolution are asked of the operating system. Here they are parameters.
  - The current and home directories are strings, as read (components in the oldest revision).
  - The resolved path is a parameter of the sandbox guard.
  - Setting `DirectoryPath.current` is not modelled.
- The handle layer (opening, creating and deleting files and directories), `Stream.swift` and the symbolic link files: these sequence file system calls.
- `Sequence.array` (Sources/General.swift:22-25) is the identity on Dafny sequences; the model uses sequences directly.
- The `ExpressibleByStringLiteral` conformances only forward to the string initialisers.
- `description` of a path is `string`, modelled once as `PathString`.
- Swift's `precondition` failures (`parent(nr:)` below one level, a `FilePath` string ending in "/", an empty `FilePath` collection) are preconditions of the Dafny members, not error values.
- `hashValue` of the current revision is synthesised from the stored properties. It agrees with `==` because `==` is structural (`PathLaws.EqualIsStructural`).
- Long literal test strings are stated at component level: the dot-dot vectors in `Normaliser.DotDotExamples*` and the climbing-path vectors in `PathExamples`.
- PathLaws.RelativeToSameItem: holds only for a base directory without "..". The documentation promises the same item for any base, but the code breaks that promise for a base with "..": see Findings and `PathLaws.RelativeToClimbingBase`.
- PathLaws.PlusIsUnder: proved only when the appended relative part has no "..".
- Errors.InvalidAccessEnding: states how the two messages relate rather than "ends in ' for writing.' only if writing". That direction fails when the location itself ends in " for writing", for example for a file under a directory of that name.
- SwiftyPath.ParseString: the home and current directories are given as components, not as strings parsed by the same function.
- Paths.Equal, PathLaws.EqualIsStructural, Paths.IsAParentOf, Paths.Extension, Paths.NameWithoutExtension, SwiftyPath.Extension: strings are sequences of code points compared one by one. Swift's `String` compares by canonical equivalence and indexes by grapheme cluster, so names that differ only in Unicode normalisation are equal in Swift but not here.
- Directories.FilesOrDirectories: the glob result is taken as already typed paths. The `as? P` cast becomes a test on the kind.

## Findings

| source | as written | input that shows it | evidently intended | confidence | as-written member | corrected member |
|---|---|---|---|---|---|---|
| Sources/Paths.swift:197-198 | `homedircomponents` is put unfiltered in front of the prepared rest, so its leading "" stays | "~/a" with home directory "/home/u" gives components ["", "home", "u", "a"] and absolute string "//home/u/a" | components without empty parts (Sources/Paths.swift:18-19), as the current revision does by preparing the whole list | not executed | LegacyPaths.TildeKeepsEmptyComponent | PathLaws.TildeIsHome |
| Sources/Paths.swift:439-467 | two based paths are compared by relative part only, other pairs by components | "/a/f" equals "f" on base "/a", which equals "f" on base "/b", but "/a/f" differs from "f" on base "/b" | an equivalence relation, as `Equatable` requires | not executed | LegacyPaths.EqualNotTransitive | PathLaws.EqualIsStructural |
| Sources/Paths.swift:362-365 | `hashValue` hashes `string`, while `==` lets a based path equal an absolute one | "f" on base "/tmp" equals "/tmp/f", but their strings are "f" and "/tmp/f", so their hashes need not agree | equal values hash alike, as `Hashable` requires | not executed | LegacyPaths.EqualButDifferentStrings | PathLaws.EqualIsStructural |
| Sources/FileSmith/Paths.swift:221 | the base is the current directory's string split on "/" with its first piece dropped; at the root that is [""]; the same code is at Sources/Paths.swift:223 | current directory "/": `DirectoryPath(".")` has components [""] and name "", while `DirectoryPath.current` has name "/", so Tests/FileSmithTests/PathTests.swift:75 fails there | the current directory's components, with no empty part, as every base must be (Sources/FileSmith/Paths.swift:53-54) | not executed | Paths.RootCurrentDirectoryAsWritten | Paths.FromStringWellFormed |
| Sources/SwiftyPath.swift:208-210 | `dir + p` makes a based path whose string is only p's part | `DirectoryPath("/tmp") + "file"` renders "file"; its test expects "/tmp/file" | "/tmp/file" (Tests/SwiftyPathTests/SwiftyPathTests.swift:9), as the current revision gives; the FIXME at Sources/SwiftyPath.swift:209 asks instead for the based result the code builds | not executed | SwiftyPath.PlusTestDisagreement | PathExamples.AddToAbsolute |
| Sources/FileSmith/Paths.swift:360-367 | `relativeTo` climbs from the base with one ".." per base component after the common prefix, even when the base itself starts with ".." | "/a" relative to the base "/../base1" (the base form of Tests/FileSmithTests/PathTests.swift:115): stored [.., base1, .., .., a], components [.., .., a], not [a] | a path to the same item, as the doc comment at Sources/FileSmith/Paths.swift:360 promises; this holds for every base without ".." | not executed | PathLaws.RelativeToClimbingBase | PathLaws.RelativeToSameItem |
