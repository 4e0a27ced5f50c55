/** What the no-program layout promises, for every root and every file list. */
module NoProgramLayoutTheorems {
  import opened Text
  import opened NoProgramLayout
  import opened Placement
  import opened Sequences

  // -- A leading folder decides nothing about a file's kind ------------------

  lemma SameBaseName(a: string, b: string)
    requires a == "" || a[|a| - 1] == '/'
    ensures BaseName(a + b) == BaseName(b)
  {
    var i := LastIndexOf(b, '/');
    if i == -1 {
      if a != "" { LastIndexOfIs(a + b, '/', |a| - 1); } else { assert a + b == b; }
    } else {
      LastIndexOfIs(a + b, '/', |a| + i);
    }
  }

  lemma LowerConcat(a: string, b: string)
    ensures Lower(a + b) == Lower(a) + Lower(b)
  {}

  lemma StemBehindPrefix(a: string, b: string)
    requires '.' in b
    ensures Stem(a + b) == a + Stem(b) && Extension(a + b) == Extension(b)
  {
    var dot := LastIndexOf(b, '.');
    LastIndexOfIs(a + b, '.', |a| + dot);
  }

  lemma DotOfScript(path: string)
    requires IsScript(path)
    ensures '.' in path
  {
    assert path[|path| - 3] == '.' || path[|path| - 4] == '.';
  }

  lemma SameScript(a: string, b: string)
    requires a == "" || a[|a| - 1] == '/'
    ensures IsScript(a + b) == IsScript(b)
  {
    hide EndsWith;
    EndsWithBehindSlash(a, b, ".js");
    EndsWithBehindSlash(a, b, ".ts");
    EndsWithBehindSlash(a, b, ".jsx");
    EndsWithBehindSlash(a, b, ".tsx");
  }

  lemma SameData(a: string, b: string)
    requires a == "" || a[|a| - 1] == '/'
    ensures IsData(a + b) == IsData(b)
  {
    LowerConcat(a, b);
    assert a != "" ==> Lower(a)[|a| - 1] == '/';
    hide EndsWith, Lower;
    EndsWithBehindSlash(Lower(a), Lower(b), ".json");
  }

  lemma SameKinds(a: string, b: string)
    requires a == "" || a[|a| - 1] == '/'
    ensures IsScript(a + b) == IsScript(b)
    ensures IsTestFile(a + b) == IsTestFile(b)
    ensures IsData(a + b) == IsData(b)
  {
    hide IsScript, IsData, IsTestFile;
    SameScript(a, b);
    SameData(a, b);
    SameTest(a, b);
  }

  lemma SameTest(a: string, b: string)
    requires a == "" || a[|a| - 1] == '/'
    ensures IsTestFile(a + b) == IsTestFile(b)
  {
    hide IsScript, EndsWith, Stem;
    SameScript(a, b);
    if IsScript(b) {
      DotOfScript(b);
      StemBehindPrefix(a, b);
      EndsWithBehindSlash(a, Stem(b), ".test");
      EndsWithBehindSlash(a, Stem(b), ".spec");
    }
  }

  lemma SameDotSegments(folder: Folder, b: string)
    ensures HasDotSegment(FolderPrefix(folder) + b) == HasDotSegment(b)
  {
    var a := FolderPrefix(folder);
    var s := a + b;
    forall i: nat | i < |b| ensures DotSegmentAt(b, i) == DotSegmentAt(s, |a| + i) {}
    forall i: nat | i < |a| ensures !DotSegmentAt(s, i) {
      assert s[i] == a[i];
    }
    if HasDotSegment(s) {
      var i: nat :| i < |s| && DotSegmentAt(s, i);
      assert DotSegmentAt(b, i - |a|);
    }
  }

  lemma SameKeeping(folder: Folder, b: string)
    ensures IsNoProgramFile(FolderPrefix(folder) + b) == IsNoProgramFile(b)
  {
    SameKinds(FolderPrefix(folder), b);
    SameBaseName(FolderPrefix(folder), b);
    SameDotSegments(folder, b);
  }

  // -- A `-n` suffix decides nothing about a file's kind either --------------

  /** A suffix with one dot, at its front, is the whole extension or none of it. */
  lemma ExtensionDecides(path: string, suffix: string)
    requires '.' in path
    requires suffix != "" && suffix[0] == '.' && '.' !in suffix[1..]
    ensures EndsWith(path, suffix) <==> Extension(path) == suffix
  {}

  lemma DotOfCandidate(path: string, n: nat)
    requires '.' in path
    ensures '.' in Candidate(path, n)
    ensures Stem(Candidate(path, n)) == Stem(path) + ("-" + Decimal(n))
    ensures Extension(Candidate(path, n)) == Extension(path)
  {
    var candidate := Candidate(path, n);
    var dot := LastIndexOf(path, '.');
    var d := |Stem(path) + ("-" + Decimal(n))|;
    assert candidate[d] == '.';
    assert forall j | d < j < |candidate| :: candidate[j] == path[j - d + dot];
    LastIndexOfIs(candidate, '.', d);
  }

  lemma LowerExtension(path: string)
    requires '.' in path
    ensures '.' in Lower(path)
    ensures Extension(Lower(path)) == Lower(Extension(path))
  {
    hide LastIndexOf;
    var dot := LastIndexOf(path, '.');
    LastIndexOfIs(Lower(path), '.', dot);
    assert Lower(path)[dot..] == Lower(path[dot..]);
  }

  lemma KindsByExtension(path: string)
    requires '.' in path
    ensures IsScript(path) == (Extension(path) in {".js", ".ts", ".jsx", ".tsx"})
    ensures IsData(path) == (Lower(Extension(path)) == ".json")
  {
    hide EndsWith, Stem, Extension, Lower;
    ExtensionDecides(path, ".js");
    ExtensionDecides(path, ".ts");
    ExtensionDecides(path, ".jsx");
    ExtensionDecides(path, ".tsx");
    LowerExtension(path);
    ExtensionDecides(Lower(path), ".json");
  }

  lemma SameKindsOfCandidate(path: string, n: nat)
    requires '.' in path
    ensures IsScript(Candidate(path, n)) == IsScript(path)
    ensures IsData(Candidate(path, n)) == IsData(path)
  {
    hide *;
    DotOfCandidate(path, n);
    KindsByExtension(path);
    KindsByExtension(Candidate(path, n));
  }

  /** The character before a candidate's extension is a digit, so no test marker. */
  lemma CandidateIsNoTest(path: string, n: nat)
    requires '.' in path
    ensures !IsTestFile(Candidate(path, n))
  {
    DotOfCandidate(path, n);
    var stem, m := Stem(Candidate(path, n)), Decimal(n);
    assert stem[|stem| - 1] == m[|m| - 1];
    assert |stem| >= 5 ==> stem[|stem| - 5..][4] == stem[|stem| - 1];
  }

  lemma DotSegmentOfCandidate(path: string, n: nat)
    requires '.' in path && '/' !in Extension(path) && HasDotSegment(Candidate(path, n))
    ensures HasDotSegment(path)
  {
    var s, stem := Candidate(path, n), Stem(path);
    var tail := ("-" + Decimal(n)) + Extension(path);
    assert s == stem + tail && tail[0] == '-' && '/' !in tail;
    var i: nat :| i < |s| && DotSegmentAt(s, i);
    assert forall j | |stem| <= j < |s| :: s[j] == tail[j - |stem|];
    assert i < |stem|;
    assert DotSegmentAt(path, i);
  }

  lemma BaseNameAppend(stem: string, tail: string)
    requires '/' !in tail
    ensures BaseName(stem + tail) == BaseName(stem) + tail
  {
    var i, s := LastIndexOf(stem, '/'), stem + tail;
    if i != -1 { LastIndexOfIs(s, '/', i); }
    assert LastIndexOf(s, '/') == i;
  }

  lemma BaseNameOfNumbered(stem: string, n: nat, extension: string)
    requires '/' !in extension
    ensures BaseName(Numbered(stem, n, extension)) == Numbered(BaseName(stem), n, extension)
  {
    var tail := ("-" + Decimal(n)) + extension;
    assert '/' !in tail;
    assert Numbered(stem, n, extension) == stem + tail;
    BaseNameAppend(stem, tail);
    assert Numbered(BaseName(stem), n, extension) == BaseName(stem) + tail;
  }

  lemma PrefixBeforeDash(prefix: string, stem: string, tail: string)
    requires prefix <= stem + tail && '-' !in prefix && tail != "" && tail[0] == '-'
    ensures prefix <= stem
  {
    assert (stem + tail)[|stem|] == '-';
  }

  lemma NumberedIsNoLockfile(stem: string, n: nat)
    ensures Numbered(stem, n, ".json") != "package.json"
    ensures Numbered(stem, n, ".json") != "package-lock.json"
    ensures Numbered(stem, n, ".json") != "npm-shrinkwrap.json"
  {
    var name, m := Numbered(stem, n, ".json"), Decimal(n);
    assert name[|name| - 6] == m[|m| - 1];
  }

  lemma ToolPrefix(prefix: string, stem: string)
    requires prefix == "tsconfig" || prefix == "jsconfig"
    requires prefix <= stem
    ensures IsToolConfigName(stem + ".json")
  {}

  /** A suffix makes no file name a tool configuration's. */
  lemma ToolNameOfNumbered(stem: string, n: nat)
    requires IsToolConfigName(Numbered(stem, n, ".json"))
    ensures IsToolConfigName(stem + ".json")
  {
    hide EndsWith, Decimal;
    NumberedIsNoLockfile(stem, n);
    var tail := ("-" + Decimal(n)) + ".json";
    assert Numbered(stem, n, ".json") == stem + tail;
    var prefix := if "tsconfig" <= stem + tail then "tsconfig" else "jsconfig";
    PrefixBeforeDash(prefix, stem, tail);
    ToolPrefix(prefix, stem);
  }

  lemma LowerNumbered(stem: string, n: nat, extension: string)
    ensures Lower(Numbered(stem, n, extension)) == Numbered(Lower(stem), n, Lower(extension))
  {}

  lemma NoSlashInJson(extension: string)
    requires Lower(extension) == ".json"
    ensures '/' !in extension
  {}

  lemma DataExtension(path: string)
    requires IsData(path)
    ensures '.' in path && Lower(Extension(path)) == ".json"
  {
    var k := |path| - 5;
    assert Lower(path)[k..][0] == LowerChar(path[k]);
    assert path[k] == '.';
    LowerExtension(path);
    ExtensionDecides(Lower(path), ".json");
  }

  lemma ToolNameOfParts(stem: string, n: nat, extension: string)
    requires Lower(extension) == ".json"
    requires IsToolConfigName(Lower(BaseName(Numbered(stem, n, extension))))
    ensures IsToolConfigName(Lower(BaseName(stem + extension)))
  {
    NoSlashInJson(extension);
    BaseNameOfNumbered(stem, n, extension);
    LowerNumbered(BaseName(stem), n, extension);
    BaseNameAppend(stem, extension);
    LowerConcat(BaseName(stem), extension);
    ToolNameOfNumbered(Lower(BaseName(stem)), n);
  }

  lemma ToolNameOfCandidate(path: string, n: nat)
    requires IsData(path) && IsToolConfigName(Lower(BaseName(Candidate(path, n))))
    ensures IsToolConfigName(Lower(BaseName(path)))
  {
    DataExtension(path);
    assert path == Stem(path) + Extension(path);
    hide IsToolConfigName, Lower, BaseName, Numbered, IsData, Stem;
    ToolNameOfParts(Stem(path), n, Extension(path));
  }

  lemma ToolConfigOfCandidate(path: string, n: nat)
    ensures IsData(path) && IsToolConfig(Candidate(path, n)) ==> IsToolConfig(path)
  {
    if IsData(path) && IsToolConfig(Candidate(path, n)) {
      DataExtension(path);
      NoSlashInJson(Extension(path));
      if HasDotSegment(Candidate(path, n)) {
        DotSegmentOfCandidate(path, n);
      } else {
        ToolNameOfCandidate(path, n);
      }
    }
  }

  /** A kept file stays kept under a candidate name. */
  lemma CandidateIsKept(path: string, n: nat)
    requires IsNoProgramFile(path)
    ensures '.' in path && IsNoProgramFile(Candidate(path, n))
  {
    if IsScript(path) {
      DotOfScript(path);
    } else {
      DataExtension(path);
      if IsToolConfig(Candidate(path, n)) { ToolConfigOfCandidate(path, n); }
    }
    SameKindsOfCandidate(path, n);
  }

  // -- Where a file ends up --------------------------------------------------

  /** A path the layout leaves where it is */
  predicate Settled(path: string) {
    && IsNoProgramFile(path)
    && ("tests/" <= path || ("client/" <= path && !IsTestFile(path)))
  }

  lemma LeadingFolderOf(folder: Folder, rest: string)
    requires folder == Client || folder == Tests
    ensures LeadingFolder(FolderPrefix(folder) + rest) == folder
    ensures Normalise("", FolderPrefix(folder) + rest) == FolderPrefix(folder) + rest
  {
    var path := FolderPrefix(folder) + rest;
    assert path[0] == 'c' || path[0] == 't';
    assert TrimSlashes("") == "";
    assert folder == Tests ==> !("client/" <= path);
  }

  lemma SettledUnder(folder: Folder, rest: string, content: string)
    requires folder == Tests || (folder == Client && !IsTestFile(rest))
    ensures WantedAt(FolderPrefix(folder) + rest, content).Own() == FolderPrefix(folder) + rest
  {
    LeadingFolderOf(folder, rest);
    assert (FolderPrefix(folder) + rest)[|FolderPrefix(folder)|..] == rest;
  }

  /** The folder a settled path is in, and its path below */
  lemma SettledParts(path: string) returns (folder: Folder, rest: string)
    requires Settled(path)
    ensures path == FolderPrefix(folder) + rest
    ensures folder == Tests || (folder == Client && !IsTestFile(rest))
  {
    hide IsScript, IsTestFile, IsData, IsToolConfig;
    folder := if "tests/" <= path then Tests else Client;
    rest := path[|FolderPrefix(folder)|..];
    SameKinds(FolderPrefix(folder), rest);
  }

  lemma SettledIsOwn(path: string, content: string)
    requires Settled(path)
    ensures Normalise("", path) == path
    ensures WantedAt(path, content).Own() == path
  {
    var folder, rest := SettledParts(path);
    LeadingFolderOf(folder, rest);
    SettledUnder(folder, rest, content);
  }

  lemma TargetIsFolder(file: Wanted)
    requires file == WantedAt(file.path, file.content)
    ensures file.target + "/" == FolderPrefix(if file.target == TESTS then Tests else Client)
  {}

  lemma OwnIsSettled(file: Wanted)
    requires file == WantedAt(file.path, file.content) && IsNoProgramFile(file.path)
    ensures Settled(file.Own()) && IsScript(file.Own()) == IsScript(file.path)
  {
    hide IsScript, IsTestFile, IsData, IsToolConfig;
    var prefix, target := FolderPrefix(file.folder), if file.target == TESTS then Tests else Client;
    assert file.path == prefix + file.rest;
    SameKeeping(file.folder, file.rest);
    SameKinds(prefix, file.rest);
    TargetIsFolder(file);
    SameKeeping(target, file.rest);
    SameKinds(FolderPrefix(target), file.rest);
    assert file.Own() == FolderPrefix(target) + file.rest;
  }

  lemma WholeIsSettled(file: Wanted)
    requires file == WantedAt(file.path, file.content) && IsNoProgramFile(file.path)
    ensures Settled(file.Whole()) && IsScript(file.Whole()) == IsScript(file.path)
  {
    hide IsScript, IsTestFile, IsData, IsToolConfig;
    var prefix, target := FolderPrefix(file.folder), if file.target == TESTS then Tests else Client;
    assert file.path == prefix + file.rest;
    SameKinds(prefix, file.rest);
    TargetIsFolder(file);
    SameKeeping(target, file.path);
    SameKinds(FolderPrefix(target), file.path);
    assert file.Whole() == FolderPrefix(target) + file.path;
  }

  lemma CandidateUnder(prefix: string, path: string, n: nat)
    requires prefix <= path && '.' !in prefix && '.' in path
    ensures prefix <= Candidate(path, n)
  {}

  lemma CandidateIsSettled(path: string, n: nat)
    requires Settled(path)
    ensures Settled(Candidate(path, n)) && IsScript(Candidate(path, n)) == IsScript(path)
  {
    hide IsScript, IsTestFile, IsData, IsToolConfig;
    CandidateIsKept(path, n);
    CandidateIsNoTest(path, n);
    SameKindsOfCandidate(path, n);
    if "tests/" <= path {
      CandidateUnder("tests/", path, n);
    } else {
      CandidateUnder("client/", path, n);
    }
  }

  /** Whatever is taken, a kept file lands where the layout leaves it. */
  lemma PathForIsSettled(file: Wanted, taken: set<string>)
    requires file == WantedAt(file.path, file.content) && IsNoProgramFile(file.path)
    ensures Settled(PathFor(file, taken))
    ensures IsScript(PathFor(file, taken)) == IsScript(file.path)
  {
    OwnIsSettled(file);
    WholeIsSettled(file);
    if file.Own() in taken && file.Whole() in taken {
      CandidateIsSettled(file.Whole(), FirstFree(file.Whole(), taken, 2));
    }
  }

  // -- The theorems ----------------------------------------------------------

  /** The kept inputs, in input order */
  function Kept(root: string, files: seq<File>): seq<File> {
    if files == [] then []
    else (if IsNoProgramFile(Normalise(root, files[0].path)) then [files[0]] else []) + Kept(root, files[1..])
  }

  lemma {:induction false} WantedAreKept(root: string, files: seq<File>)
    ensures var wanted, kept := WantedFiles(root, files), Kept(root, files);
            && |wanted| == |kept|
            && forall i | 0 <= i < |kept| ::
                 && wanted[i] == WantedAt(Normalise(root, kept[i].path), kept[i].content)
                 && IsNoProgramFile(wanted[i].path)
  {
    hide IsNoProgramFile, Normalise, WantedAt;
    if files != [] {
      WantedAreKept(root, files[1..]);
      var kept, rest := Kept(root, files), Kept(root, files[1..]);
      var n := |kept| - |rest|;
      assert forall i | n <= i < |kept| :: kept[i] == rest[i - n];
    }
  }

  /** A file is laid out at the path it picked at its turn, with its content. */
  lemma LayoutAt(wanted: seq<Wanted>, i: nat)
    requires i < |wanted|
    ensures var paths := Places(Sorted(wanted), PathFor);
            && |LaidOut(wanted)| == |wanted|
            && LaidOut(wanted)[i] == File(paths[Turn(wanted, i)], wanted[i].content)
            && paths[Turn(wanted, i)] == PathFor(wanted[i], Elements(paths[..Turn(wanted, i)]))
  {
    hide PathFor, Sorted, Turn;
    PlaceAt(Sorted(wanted), PathFor, Turn(wanted, i));
  }

  lemma LayoutIsInjective(wanted: seq<Wanted>, i: nat, j: nat)
    requires i < j < |wanted|
    ensures |LaidOut(wanted)| == |wanted| && LaidOut(wanted)[i].path != LaidOut(wanted)[j].path
  {
    hide PathFor, Sorted, Turn;
    var a, b := Turn(wanted, i), Turn(wanted, j);
    if a < b {
      PlacesAreDistinct(Sorted(wanted), PathFor, a, b);
    } else {
      PlacesAreDistinct(Sorted(wanted), PathFor, b, a);
    }
  }

  /** A wanted file is what its path makes it, and is kept. */
  ghost predicate IsWanted(file: Wanted) {
    file == WantedAt(file.path, file.content) && IsNoProgramFile(file.path)
  }

  lemma LayoutIsSettled(wanted: seq<Wanted>, i: nat)
    requires i < |wanted| && IsWanted(wanted[i])
    ensures |LaidOut(wanted)| == |wanted| && Settled(LaidOut(wanted)[i].path)
    ensures LaidOut(wanted)[i].content == wanted[i].content
    ensures IsScript(LaidOut(wanted)[i].path) == IsScript(wanted[i].path)
  {
    hide IsNoProgramFile, WantedAt, PathFor, Sorted, Turn, Settled, IsScript, LaidOut;
    LayoutAt(wanted, i);
    PathForIsSettled(wanted[i], Elements(Places(Sorted(wanted), PathFor)[..Turn(wanted, i)]));
  }

  /**
   * Injective and conservative, for every input, duplicate paths included:
   * one output for each kept input, in input order and with its content,
   * no path twice, and every path one that the layout leaves where it is.
   */
  lemma LayoutConserves(root: string, files: seq<File>)
    ensures var kept, laidOut := Kept(root, files), Layout(root, files);
            && |laidOut| == |kept|
            && (forall i | 0 <= i < |kept| :: laidOut[i].content == kept[i].content)
            && (forall i, j | 0 <= i < j < |kept| :: laidOut[i].path != laidOut[j].path)
            && (forall i | 0 <= i < |kept| :: Settled(laidOut[i].path))
            && (forall i | 0 <= i < |kept| :: IsScript(laidOut[i].path) == IsScript(Normalise(root, kept[i].path)))
  {
    hide Kept, WantedFiles, LaidOut, Settled, IsScript, Normalise, WantedAt, IsNoProgramFile;
    var kept, wanted := Kept(root, files), WantedFiles(root, files);
    WantedAreKept(root, files);
    LayoutLength(root, files);
    forall i: nat | i < |kept|
      ensures Settled(LaidOut(wanted)[i].path) && LaidOut(wanted)[i].content == kept[i].content
      ensures IsScript(LaidOut(wanted)[i].path) == IsScript(Normalise(root, kept[i].path))
    {
      LayoutIsSettled(wanted, i);
    }
    forall i: nat, j: nat | i < j < |kept| ensures LaidOut(wanted)[i].path != LaidOut(wanted)[j].path {
      LayoutIsInjective(wanted, i, j);
    }
  }

  lemma LayoutLength(root: string, files: seq<File>)
    ensures |Layout(root, files)| == |WantedFiles(root, files)|
  {}

  lemma {:induction false} SettledAreWanted(files: seq<File>)
    requires forall i | 0 <= i < |files| :: Settled(files[i].path)
    ensures |WantedFiles("", files)| == |files|
    ensures forall i | 0 <= i < |files| :: WantedFiles("", files)[i] == WantedAt(files[i].path, files[i].content)
  {
    hide IsScript, IsData, IsToolConfig, IsTestFile, Normalise, WantedAt;
    if files != [] {
      SettledIsOwn(files[0].path, files[0].content);
      SettledAreWanted(files[1..]);
    }
  }

  ghost predicate IsPlaygroundLayout(files: seq<File>) {
    && (forall i | 0 <= i < |files| :: Settled(files[i].path))
    && forall i, j | 0 <= i < j < |files| :: files[i].path != files[j].path
  }

  /** Files of distinct own paths all get them. */
  lemma OwnPathsAreLaidOut(sorted: seq<Wanted>, k: nat)
    requires k < |sorted| && forall i, j | 0 <= i < j <= k :: sorted[i].Own() != sorted[j].Own()
    ensures Places(sorted, PathFor)[k] == sorted[k].Own()
  {
    FirstChoice(sorted, PathFor, (file: Wanted) => file.Own(), k);
  }

  lemma SettledLayout(files: seq<File>, n: nat)
    requires IsPlaygroundLayout(files) && n < |files|
    ensures n < |Layout("", files)| && Layout("", files)[n] == files[n]
  {
    hide Settled, WantedAt, Wanted.Own, PathFor, WantedFiles, PlacementOrder;
    SettledAreWanted(files);
    var wanted := WantedFiles("", files);
    forall i | 0 <= i < |files| ensures wanted[i].Own() == files[i].path {
      SettledIsOwn(files[i].path, files[i].content);
    }
    PlacementOrderIsStable(wanted);
    LayoutAt(wanted, n);
    OwnPathsAreLaidOut(Sorted(wanted), Turn(wanted, n));
  }

  /** With no root to drop, the layout changes nothing exactly when the files are laid out. */
  lemma LayoutFixedPoints(files: seq<File>)
    ensures Layout("", files) == files <==> IsPlaygroundLayout(files)
  {
    hide Settled, Layout, Kept;
    LayoutConserves("", files);
    if IsPlaygroundLayout(files) {
      LayoutLength("", files);
      SettledAreWanted(files);
      forall i: nat | i < |files| ensures Layout("", files)[i] == files[i] {
        SettledLayout(files, i);
      }
    }
  }

  /** Laying out a layout again changes nothing. */
  lemma LayoutIsIdempotent(root: string, files: seq<File>)
    ensures Layout("", Layout(root, files)) == Layout(root, files)
  {
    hide Layout, Settled;
    LayoutConserves(root, files);
    LayoutFixedPoints(Layout(root, files));
  }

  // -- Top-level files -------------------------------------------------------

  lemma OwnDeterminesPath(a: Wanted, b: Wanted)
    requires a == WantedAt(a.path, a.content) && b == WantedAt(b.path, b.content)
    requires a.folder == Top && b.folder == Top
    ensures a.Own() == b.Own() <==> a.path == b.path
  {
    hide IsTestFile;
    assert a.Own()[|a.target| + 1..] == a.path && b.Own()[|b.target| + 1..] == b.path;
    assert a.Own()[0] == a.target[0] && b.Own()[0] == b.target[0];
  }

  /** The files placed before a top-level one are top-level, and came before it. */
  lemma TopLevelFirst(wanted: seq<Wanted>, i: nat, k: nat)
    requires i < |wanted| && wanted[i].folder == Top && k <= Turn(wanted, i)
    ensures k < |Sorted(wanted)| && PlacementOrder(wanted)[k] < |wanted|
    ensures Sorted(wanted)[k] == wanted[PlacementOrder(wanted)[k]] && Sorted(wanted)[k].folder == Top
  {}

  lemma TopLevelGetsOwn(wanted: seq<Wanted>, i: nat)
    requires i < |wanted| && wanted[i].folder == Top && forall a | 0 <= a < |wanted| :: IsWanted(wanted[a])
    requires forall a, b | 0 <= a < b < |wanted| && wanted[a].folder == Top && wanted[b].folder == Top ::
               wanted[a].path != wanted[b].path
    ensures |LaidOut(wanted)| == |wanted| && LaidOut(wanted)[i].path == wanted[i].Own()
  {
    hide WantedAt, IsNoProgramFile, Wanted.Own, PlacementOrder, PathFor, Sorted, LaidOut;
    var order, sorted := PlacementOrder(wanted), Sorted(wanted);
    PlacementOrderIsStable(wanted);
    forall a: nat, b: nat | a < b <= Turn(wanted, i) ensures sorted[a].Own() != sorted[b].Own() {
      TopLevelFirst(wanted, i, a);
      TopLevelFirst(wanted, i, b);
      OwnDeterminesPath(sorted[a], sorted[b]);
      assert order[a] != order[b];
    }
    OwnPathsAreLaidOut(sorted, Turn(wanted, i));
    LayoutAt(wanted, i);
  }

  /**
   * Every top-level file keeps its whole path below `client/` or `tests/`,
   * whatever the order the files come in, exactly when no two of them are at
   * one path.
   */
  lemma TopLevelFilesKeepTheirPaths(root: string, files: seq<File>)
    ensures var wanted := WantedFiles(root, files);
            && |Layout(root, files)| == |wanted|
            && ((forall i | 0 <= i < |wanted| && wanted[i].folder == Top ::
                Layout(root, files)[i].path == wanted[i].Whole())
                <==> (forall i, j | 0 <= i < j < |wanted| && wanted[i].folder == Top && wanted[j].folder == Top ::
                        wanted[i].path != wanted[j].path))
  {
    hide WantedAt, WantedFiles, Wanted.Own, Wanted.Whole, LaidOut, IsNoProgramFile, Normalise;
    var wanted := WantedFiles(root, files);
    LayoutLength(root, files);
    WantedAreKept(root, files);
    forall i: nat | i < |wanted| && wanted[i].folder == Top ensures wanted[i].Whole() == wanted[i].Own() {
      TopLevelOwnIsWhole(wanted[i]);
    }
    if forall i, j | 0 <= i < j < |wanted| && wanted[i].folder == Top && wanted[j].folder == Top ::
        wanted[i].path != wanted[j].path {
      forall i: nat | i < |wanted| && wanted[i].folder == Top ensures Layout(root, files)[i].path == wanted[i].Whole() {
        TopLevelGetsOwn(wanted, i);
      }
    } else {
      var i, j :| 0 <= i < j < |wanted| && wanted[i].folder == Top && wanted[j].folder == Top
          && wanted[i].path == wanted[j].path;
      OwnDeterminesPath(wanted[i], wanted[j]);
      LayoutIsInjective(wanted, i, j);
    }
  }

  lemma TopLevelOwnIsWhole(file: Wanted)
    requires file == WantedAt(file.path, file.content) && file.folder == Top
    ensures file.Whole() == file.Own()
  {}

  // -- Scripts and refusals --------------------------------------------------

  lemma SlashesAreDropped(s: string) returns (slashes: string)
    ensures s == slashes + DropLeadingSlashes(s)
    ensures slashes == "" || slashes[|slashes| - 1] == '/'
    ensures "/" <= s ==> slashes != ""
  {
    slashes := s[..SlashesEnd(s, 0)];
  }

  lemma RelativeDropsSlashes(path: string) returns (dropped: string)
    ensures path == dropped + Relative(path)
    ensures dropped == "" || dropped[|dropped| - 1] == '/'
  {
    dropped := "";
    if "/" <= path {
      dropped := SlashesAreDropped(path);
    } else if "./" <= path {
      var slashes := SlashesAreDropped(path[1..]);
      assert path == "." + path[1..] && path[1..][0] == '/';
      dropped := "." + slashes;
    }
  }

  /** What normalising drops from the front of a path ends with a slash. */
  lemma NormaliseDropsFolders(root: string, path: string) returns (dropped: string)
    ensures path == dropped + Normalise(root, path)
    ensures dropped == "" || dropped[|dropped| - 1] == '/'
  {
    hide TrimSlashes, Relative;
    dropped := RelativeDropsSlashes(path);
    var prefix, relative := TrimSlashes(root), Relative(path);
    if prefix != "" && prefix + "/" <= relative {
      assert relative == (prefix + "/") + relative[|prefix| + 1..];
      dropped := dropped + (prefix + "/");
    }
  }

  lemma NormaliseKeepsScripts(root: string, path: string)
    ensures IsScript(Normalise(root, path)) == IsScript(path)
  {
    hide Normalise;
    var dropped := NormaliseDropsFolders(root, path);
    SameKinds(dropped, Normalise(root, path));
  }

  predicate HasScript(files: seq<File>) {
    exists i | 0 <= i < |files| :: IsScript(files[i].path)
  }

  lemma HasScriptCons(file: File, rest: seq<File>)
    ensures HasScript([file] + rest) <==> IsScript(file.path) || HasScript(rest)
  {
    hide IsScript;
    var all := [file] + rest;
    assert all[0] == file;
    if HasScript(rest) {
      var i :| 0 <= i < |rest| && IsScript(rest[i].path);
      assert IsScript(all[i + 1].path);
    }
  }

  lemma {:induction false} KeptHasScript(root: string, files: seq<File>)
    ensures HasScript(Kept(root, files)) <==> HasScript(files)
  {
    hide IsScript, Normalise, IsToolConfig, IsData, HasScript;
    if files == [] {
      assert Kept(root, files) == files;
    } else {
      var rest := Kept(root, files[1..]);
      KeptHasScript(root, files[1..]);
      NormaliseKeepsScripts(root, files[0].path);
      assert files == [files[0]] + files[1..];
      HasScriptCons(files[0], files[1..]);
      HasScriptCons(files[0], rest);
      assert Kept(root, files) == rest || Kept(root, files) == [files[0]] + rest;
    }
  }

  /** The layout holds a script exactly when the input does. */
  lemma LayoutHasScript(root: string, files: seq<File>)
    ensures HasScript(Layout(root, files)) <==> HasScript(files)
  {
    hide IsScript, Layout, Kept, Normalise, Settled;
    LayoutConserves(root, files);
    KeptHasScript(root, files);
    var kept, laidOut := Kept(root, files), Layout(root, files);
    forall i | 0 <= i < |kept| ensures IsScript(laidOut[i].path) == IsScript(kept[i].path) {
      NormaliseKeepsScripts(root, kept[i].path);
    }
  }

  predicate HasProgramSource(files: seq<File>) {
    exists i | 0 <= i < |files| :: IsProgramSource(files[i].path)
  }

  /** `PgFramework.hasProgram`: a Rust or Python file anywhere under `src/` */
  predicate HasProgram(files: seq<File>) {
    exists i | 0 <= i < |files| :: "src/" <= files[i].path && |files[i].path| > 7 && IsProgramSource(files[i].path)
  }

  /** `PgFramework.hasRunnableTypeScript` */
  predicate HasRunnableTypeScript(files: seq<File>) {
    exists i | 0 <= i < |files| ::
      ("client/" <= files[i].path || "tests/" <= files[i].path) && IsScript(files[i].path)
  }

  lemma LayoutIsRunnable(root: string, files: seq<File>)
    ensures HasRunnableTypeScript(Layout(root, files)) <==> HasScript(files)
    ensures !HasProgram(Layout(root, files))
  {
    hide IsScript, IsProgramSource, Layout, Kept, IsData, IsToolConfig, IsTestFile, Normalise;
    LayoutHasScript(root, files);
    LayoutConserves(root, files);
    var laidOut := Layout(root, files);
    forall i | 0 <= i < |laidOut| ensures !("src/" <= laidOut[i].path) {
      assert laidOut[i].path[0] == 'c' || laidOut[i].path[0] == 't';
    }
  }

  datatype Refusal = NotAProgram | NoProgramCode | CouldNotConvert
  datatype Conversion = Converted(files: seq<File>) | Refused(why: Refusal)
  datatype Framework = NoFramework | Recognised(convert: seq<File> -> seq<File>)

  /**
   * `PgFramework.convertToPlaygroundLayoutWith(root)`: with no framework it
   * refuses exactly the inputs that hold program source, then exactly those
   * with no script, and what it lays out can run.
   */
  method ConvertToPlaygroundLayout(root: string, framework: Framework, files: seq<File>) returns (r: Conversion)
    ensures framework.NoFramework? ==>
              && (r == Refused(NotAProgram) <==> HasProgramSource(files))
              && (r == Refused(NoProgramCode) <==> !HasProgramSource(files) && !HasScript(files))
              && (r.Converted? <==> !HasProgramSource(files) && HasScript(files))
              && (r.Converted? ==>
                    && r.files == Layout(root, files) && HasRunnableTypeScript(r.files) && !HasProgram(r.files))
    ensures framework.Recognised? ==>
              r == if framework.convert(files) == [] then Refused(CouldNotConvert)
                  else Converted(framework.convert(files))
  {
    hide IsScript, IsProgramSource, Layout;
    match framework {
      case NoFramework =>
        if HasProgramSource(files) { return Refused(NotAProgram); }
        var noProgramFiles := ToNoProgramLayout(root, files);
        LayoutHasScript(root, files);
        LayoutIsRunnable(root, files);
        if !HasScript(noProgramFiles) { return Refused(NoProgramCode); }
        return Converted(noProgramFiles);
      case Recognised(convert) =>
        var convertedFiles := convert(files);
        if |convertedFiles| == 0 { return Refused(CouldNotConvert); }
        return Converted(convertedFiles);
    }
  }
}
