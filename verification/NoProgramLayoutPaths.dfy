/**
 * Which path a file gets, told by its name (`client-v2/src/utils/framework.ts`):
 * what the imported folder and a path's front have to do with it, which names are
 * kept, and where they go.
 */
module NoProgramLayoutPaths {
  import opened NoProgramLayout
  import opened NoProgramLayoutOrder
  import opened NoProgramLayoutTheorems
  import opened Options
  import opened Text

  // -- The imported folder ---------------------------------------------------

  predicate AreSlashes(s: string) {
    forall i | 0 <= i < |s| :: s[i] == '/'
  }

  /** What may stand in front of a path: slashes, or a dot and slashes */
  predicate IsFront(s: string) {
    AreSlashes(s) || (|s| > 1 && s[0] == '.' && AreSlashes(s[1..]))
  }

  /** A path with no front of its own */
  predicate IsPlain(s: string) {
    !("/" <= s) && !("./" <= s)
  }

  /** A folder without slashes around it, or nothing */
  predicate IsFolder(p: string) {
    p == "" || (p[0] != '/' && p[|p| - 1] != '/')
  }

  lemma LeadingSlashesGo(slashes: string, s: string)
    requires AreSlashes(slashes) && !("/" <= s)
    ensures DropLeadingSlashes(slashes + s) == s
  {
    var all := slashes + s;
    var n := SlashesEnd(all, 0);
    assert forall j | 0 <= j < |slashes| :: all[j] == '/';
    if s != "" { assert all[|slashes|] == s[0]; }
    assert n == |slashes|;
  }

  lemma TrailingSlashesGo(s: string, slashes: string)
    requires AreSlashes(slashes) && (s == "" || s[|s| - 1] != '/')
    ensures DropTrailingSlashes(s + slashes) == s
  {
    var all := s + slashes;
    var n := SlashesStart(all, |all|);
    assert forall j | |s| <= j < |all| :: all[j] == slashes[j - |s|];
    if s != "" { assert all[|s| - 1] == s[|s| - 1]; }
    assert n == |s|;
  }

  lemma SlashesAroundGo(before: string, folder: string, after: string)
    requires AreSlashes(before) && AreSlashes(after) && IsFolder(folder)
    ensures TrimSlashes(before + folder + after) == folder
  {
    if folder == "" {
      assert before + folder + after == (before + after) + "";
      LeadingSlashesGo(before + after, "");
    } else {
      assert before + folder + after == before + (folder + after);
      assert (folder + after)[0] == folder[0];
      LeadingSlashesGo(before, folder + after);
      TrailingSlashesGo(folder, after);
    }
  }

  lemma FrontGoes(front: string, s: string)
    requires IsFront(front) && IsPlain(s)
    ensures Relative(front + s) == s
  {
    var path := front + s;
    if AreSlashes(front) {
      LeadingSlashesGo(front, s);
      if front == "" { assert path == s; }
    } else {
      assert path[1..] == front[1..] + s;
      assert "./" <= path;
      LeadingSlashesGo(front[1..], s);
    }
  }

  /** Whether the path, behind its front, is in the folder, where it is called `plain` */
  predicate IsInside(folder: string, front: string, path: string, plain: string) {
    folder != "" && IsPlain(folder + "/") && path == front + (folder + "/" + plain)
  }

  /** Whether the path, behind its front, is not in the folder, and so is called `plain` */
  predicate IsOutside(folder: string, front: string, path: string, plain: string) {
    IsPlain(plain) && path == front + plain && (folder == "" || !(folder + "/" <= plain))
  }

  /**
   * A path inside the imported folder is read as what follows the folder, any
   * other as it is; slashes around the folder's name and slashes, or a dot and
   * slashes, in front of the path make no difference.
   */
  lemma PathIsReadWithin(before: string, folder: string, after: string, front: string, path: string, plain: string)
    requires AreSlashes(before) && AreSlashes(after) && IsFolder(folder) && IsFront(front)
    requires IsInside(folder, front, path, plain) || IsOutside(folder, front, path, plain)
    ensures Normalise(before + folder + after, path) == plain
  {
    SlashesAroundGo(before, folder, after);
    hide TrimSlashes, Relative;
    if IsInside(folder, front, path, plain) {
      var inner := folder + "/" + plain;
      assert IsPlain(inner) by {
        assert inner[0] == (folder + "/")[0] && inner[1] == (folder + "/")[1];
      }
      FrontGoes(front, inner);
      assert folder + "/" <= inner && inner[|folder| + 1..] == plain;
    } else {
      FrontGoes(front, plain);
    }
  }

  lemma PlainIsRead(plain: string)
    requires IsPlain(plain)
    ensures Normalise("", plain) == plain
  {
    assert "" + "" + "" == "" && "" + plain == plain;
    PathIsReadWithin("", "", "", "", plain, plain);
  }

  lemma {:induction false} SameWanted(root: string, files: seq<File>, other: string, others: seq<File>)
    requires |files| == |others|
    requires forall i | 0 <= i < |files| :: Normalise(root, files[i].path) == Normalise(other, others[i].path)
    requires forall i | 0 <= i < |files| :: files[i].content == others[i].content
    ensures WantedFiles(root, files) == WantedFiles(other, others)
  {
    hide Normalise, IsNoProgramFile, WantedAt;
    if files != [] {
      assert Normalise(root, files[0].path) == Normalise(other, others[0].path);
      SameWanted(root, files[1..], other, others[1..]);
    }
  }

  /** The files, each called as it is within the imported folder */
  function Called(files: seq<File>, plains: seq<string>): (r: seq<File>)
    requires |plains| == |files|
    ensures |r| == |files| && forall i | 0 <= i < |files| :: r[i] == File(plains[i], files[i].content)
  {
    seq(|files|, i requires 0 <= i < |files| => File(plains[i], files[i].content))
  }

  /** Laying out files of an imported folder is laying them out as they are called within it. */
  lemma ImportedFolderIsDropped(before: string, folder: string, after: string, files: seq<File>, fronts: seq<string>,
                                plains: seq<string>)
    requires AreSlashes(before) && AreSlashes(after) && IsFolder(folder)
    requires |fronts| == |plains| == |files|
    requires forall i | 0 <= i < |files| :: IsFront(fronts[i]) && IsPlain(plains[i])
    requires forall i | 0 <= i < |files| ::
               || IsInside(folder, fronts[i], files[i].path, plains[i])
               || IsOutside(folder, fronts[i], files[i].path, plains[i])
    ensures Layout(before + folder + after, files) == Layout("", Called(files, plains))
  {
    hide Normalise, IsInside, IsOutside, IsFront, AreSlashes, IsFolder, IsPlain, WantedFiles, LaidOut;
    var root, called := before + folder + after, Called(files, plains);
    forall i | 0 <= i < |files| ensures Normalise(root, files[i].path) == Normalise("", called[i].path) {
      PathIsReadWithin(before, folder, after, fronts[i], files[i].path, plains[i]);
      PlainIsRead(plains[i]);
    }
    SameWanted(root, files, "", called);
  }

  // -- Which names are kept --------------------------------------------------

  predicate IsScriptEnding(ending: string) {
    ending == ".js" || ending == ".ts" || ending == ".jsx" || ending == ".tsx"
  }

  /** A script is a name with one of four endings. */
  lemma ScriptsAre(path: string)
    ensures IsScript(path) <==> exists stem: string, ending: string :: IsScriptEnding(ending) && path == stem + ending
  {
    EndsWithIs(path, ".js");
    EndsWithIs(path, ".ts");
    EndsWithIs(path, ".jsx");
    EndsWithIs(path, ".tsx");
    hide EndsWith;
    if IsScript(path) {
      var ending := if EndsWith(path, ".js") then ".js" else if EndsWith(path, ".ts") then ".ts"
        else if EndsWith(path, ".jsx") then ".jsx" else ".tsx";
      var stem :| path == stem + ending;
      assert IsScriptEnding(ending);
    }
  }

  lemma StemOf(stem: string, ending: string)
    requires IsScriptEnding(ending)
    ensures Stem(stem + ending) == stem
  {
    LastIndexOfIs(stem + ending, '.', |stem|);
  }

  /** A test is a name with `.test` or `.spec` before such an ending. */
  lemma TestsAre(path: string)
    ensures IsTestFile(path) <==>
            exists stem: string, kind: string, ending: string ::
              (kind == ".test" || kind == ".spec") && IsScriptEnding(ending) && path == stem + kind + ending
  {
    hide IsScript, EndsWith, IsTestFile, IsScriptEnding;
    if IsTestFile(path) {
      var stem, kind, ending := TestSplits(path);
    }
    if stem: string, kind: string, ending: string :|
      (kind == ".test" || kind == ".spec") && IsScriptEnding(ending) && path == stem + kind + ending
    {
      TestJoins(stem, kind, ending);
    }
  }

  lemma TestSplits(path: string) returns (stem: string, kind: string, ending: string)
    requires IsTestFile(path)
    ensures (kind == ".test" || kind == ".spec") && IsScriptEnding(ending) && path == stem + kind + ending
  {
    ScriptsAre(path);
    hide IsScript, EndsWith;
    var name: string;
    name, ending :| IsScriptEnding(ending) && path == name + ending;
    StemOf(name, ending);
    hide Stem, IsScriptEnding;
    EndsWithIs(name, ".test");
    EndsWithIs(name, ".spec");
    kind := if EndsWith(name, ".test") then ".test" else ".spec";
    stem :| name == stem + kind;
  }

  lemma TestJoins(stem: string, kind: string, ending: string)
    requires (kind == ".test" || kind == ".spec") && IsScriptEnding(ending)
    ensures IsTestFile(stem + kind + ending)
  {
    hide IsScript, EndsWith;
    ScriptsAre(stem + kind + ending);
    StemOf(stem + kind, ending);
    EndsWithIs(stem + kind, kind);
    hide Stem, IsScriptEnding;
  }

  lemma ProgramSourceIs(path: string)
    ensures IsProgramSource(path) <==> exists stem: string :: path == stem + ".rs" || path == stem + ".py"
  {
    EndsWithIs(path, ".rs");
    EndsWithIs(path, ".py");
    hide EndsWith;
    if EndsWith(path, ".rs") { var stem: string :| path == stem + ".rs"; }
    if EndsWith(path, ".py") { var stem: string :| path == stem + ".py"; }
  }

  /** The letters of a lower-case text, in either case */
  predicate SameLetters(s: string, low: string) {
    && |s| == |low|
    && forall i | 0 <= i < |s| :: s[i] == low[i] || ('a' <= low[i] <= 'z' && s[i] as int == low[i] as int - 32)
  }

  lemma LowerIs(s: string, low: string)
    requires forall i | 0 <= i < |low| :: !('A' <= low[i] <= 'Z')
    ensures Lower(s) == low <==> SameLetters(s, low)
  {
    if SameLetters(s, low) {
      forall i | 0 <= i < |s| ensures Lower(s)[i] == low[i] {}
    }
    if Lower(s) == low {
      forall i | 0 <= i < |s| ensures s[i] == low[i] || ('a' <= low[i] <= 'z' && s[i] as int == low[i] as int - 32) {
        assert LowerChar(s[i]) == low[i];
      }
    }
  }

  /** Data is a name that ends in `.json`, in any case. */
  lemma DataIs(path: string)
    ensures IsData(path) <==> |path| >= 5 && SameLetters(path[|path| - 5..], ".json")
  {
    if |path| >= 5 {
      LowerIs(path[|path| - 5..], ".json");
      assert Lower(path)[|path| - 5..] == Lower(path[|path| - 5..]);
    }
  }

  /** A folder with its slash, or none */
  predicate IsDirectory(dir: string) {
    dir == "" || dir[|dir| - 1] == '/'
  }

  lemma BaseNameOf(dir: string, name: string)
    requires IsDirectory(dir) && '/' !in name
    ensures BaseName(dir + name) == name
  {
    SameBaseName(dir, name);
    assert LastIndexOf(name, '/') == -1;
  }

  predicate IsConfigHead(head: string) {
    SameLetters(head, "tsconfig") || SameLetters(head, "jsconfig")
  }

  /** The names that belong to tools, in any case */
  ghost predicate IsToolName(name: string) {
    || SameLetters(name, "package.json") || SameLetters(name, "package-lock.json")
    || SameLetters(name, "npm-shrinkwrap.json")
    || exists head: string, middle: string, tail: string ::
         IsConfigHead(head) && SameLetters(tail, ".json") && name == head + middle + tail
  }

  lemma LowerOfParts(head: string, middle: string, tail: string)
    ensures Lower(head + middle + tail) == Lower(head) + Lower(middle) + Lower(tail)
  {}

  lemma LowerOfSlice(s: string, i: nat, j: nat)
    requires i <= j <= |s|
    ensures Lower(s[i..j]) == Lower(s)[i..j]
  {}

  predicate HasNoCapitals(low: string) {
    forall i | 0 <= i < |low| :: !('A' <= low[i] <= 'Z')
  }

  lemma LowerStarts(name: string, low: string)
    requires HasNoCapitals(low) && low <= Lower(name)
    ensures SameLetters(name[..|low|], low)
  {
    hide Lower, SameLetters;
    LowerOfSlice(name, 0, |low|);
    LowerIs(name[0..|low|], low);
    assert name[0..|low|] == name[..|low|] && Lower(name)[0..|low|] == low;
  }

  lemma LowerEnds(name: string, from: nat, low: string)
    requires HasNoCapitals(low) && from <= |name| && EndsWith(Lower(name)[from..], low)
    ensures from + |low| <= |name| && SameLetters(name[|name| - |low|..], low)
  {
    hide Lower, SameLetters;
    var all, n := Lower(name), |name|;
    assert all[from..][|all[from..]| - |low|..] == all[n - |low|..];
    LowerOfSlice(name, n - |low|, n);
    LowerIs(name[n - |low|..n], low);
    assert name[n - |low|..n] == name[n - |low|..] && all[n - |low|..n] == all[n - |low|..];
  }

  lemma ConfigNameSplits(name: string) returns (head: string, middle: string, tail: string)
    requires var low := Lower(name); ("tsconfig" <= low || "jsconfig" <= low) && EndsWith(low[8..], ".json")
    ensures IsConfigHead(head) && SameLetters(tail, ".json") && name == head + middle + tail
  {
    hide Lower, EndsWith, SameLetters;
    if "tsconfig" <= Lower(name) { LowerStarts(name, "tsconfig"); } else { LowerStarts(name, "jsconfig"); }
    LowerEnds(name, 8, ".json");
    var n := |name|;
    head, middle, tail := name[..8], name[8..n - 5], name[n - 5..];
    assert name == head + middle + tail;
  }

  lemma ConfigNameJoins(head: string, middle: string, tail: string)
    requires IsConfigHead(head) && SameLetters(tail, ".json")
    ensures var low := Lower(head + middle + tail);
            ("tsconfig" <= low || "jsconfig" <= low) && EndsWith(low[8..], ".json")
  {
    LowerOfParts(head, middle, tail);
    hide Lower, SameLetters;
    LowerIs(head, "tsconfig");
    LowerIs(head, "jsconfig");
    LowerIs(tail, ".json");
    assert |Lower(head)| == 8 && Lower(tail) == ".json";
    assert (Lower(head) + Lower(middle) + Lower(tail))[8..] == Lower(middle) + ".json";
  }

  lemma ConfigNameIs(name: string)
    ensures var low := Lower(name);
            ("tsconfig" <= low || "jsconfig" <= low) && EndsWith(low[8..], ".json") <==>
            exists head: string, middle: string, tail: string ::
              IsConfigHead(head) && SameLetters(tail, ".json") && name == head + middle + tail
  {
    hide Lower, EndsWith, SameLetters, IsConfigHead;
    var low := Lower(name);
    if ("tsconfig" <= low || "jsconfig" <= low) && EndsWith(low[8..], ".json") {
      var head, middle, tail := ConfigNameSplits(name);
    }
    if head: string, middle: string, tail: string :|
      IsConfigHead(head) && SameLetters(tail, ".json") && name == head + middle + tail
    {
      ConfigNameJoins(head, middle, tail);
    }
  }

  lemma ToolNameIs(name: string)
    ensures IsToolConfigName(Lower(name)) <==> IsToolName(name)
  {
    LowerIs(name, "package.json");
    LowerIs(name, "package-lock.json");
    LowerIs(name, "npm-shrinkwrap.json");
    ConfigNameIs(name);
  }

  lemma DotSegmentIs(path: string)
    ensures HasDotSegment(path) <==> exists dir: string, rest: string :: IsDirectory(dir) && path == dir + "." + rest
  {
    if HasDotSegment(path) {
      var i: nat :| i < |path| && DotSegmentAt(path, i);
      assert path == path[..i] + "." + path[i + 1..];
      assert IsDirectory(path[..i]);
    }
    if dir: string, rest: string :| IsDirectory(dir) && path == dir + "." + rest {
      assert path[|dir|] == '.' && DotSegmentAt(path, |dir|);
    }
  }

  /** Tool configuration is a tool's file in any folder, a dotfile, or anything in a dot folder. */
  lemma ToolConfigIs(dir: string, name: string)
    requires IsDirectory(dir) && '/' !in name
    ensures IsToolConfig(dir + name) <==>
            || IsToolName(name)
            || exists before: string, rest: string :: IsDirectory(before) && dir + name == before + "." + rest
  {
    hide IsToolConfigName, HasDotSegment, IsToolName;
    BaseNameOf(dir, name);
    ToolNameIs(name);
    DotSegmentIs(dir + name);
  }

  /** A kept name: a script, or data that is no tool configuration. */
  lemma KeptNamesAre(dir: string, name: string)
    requires IsDirectory(dir) && '/' !in name
    ensures var path := dir + name;
            IsNoProgramFile(path) <==>
            || (exists stem: string, ending: string :: IsScriptEnding(ending) && path == stem + ending)
            || (&& |path| >= 5 && SameLetters(path[|path| - 5..], ".json")
                && !IsToolName(name)
                && !exists before: string, rest: string :: IsDirectory(before) && path == before + "." + rest)
  {
    hide IsScript, IsData, IsToolConfig, IsToolName, SameLetters, IsScriptEnding;
    ScriptsAre(dir + name);
    DataIs(dir + name);
    ToolConfigIs(dir, name);
  }

  // -- Where they go ---------------------------------------------------------

  /** The folders a path may start with, and none */
  predicate IsPrefix(prefix: string) {
    prefix == "" || prefix == "client/" || prefix == "tests/" || prefix == "test/"
  }

  /** Whether the path `prefix + rest` is one of that folder; one of none is in no such folder and plain */
  predicate IsBelow(prefix: string, rest: string) {
    && IsPrefix(prefix)
    && (prefix == "" ==> IsPlain(rest) && !("client/" <= rest) && !("tests/" <= rest) && !("test/" <= rest))
  }

  /** Tests, and all of `tests/` and `test/`, belong in `tests/`, the rest in `client/`. */
  function Home(prefix: string, rest: string): string {
    if prefix == "tests/" || prefix == "test/" || IsTestFile(rest) then "tests/" else "client/"
  }

  /** The top level comes first, then `client/` and `tests/`, then `test/`. */
  function Turns(prefix: string): nat {
    if prefix == "" then 0 else if prefix == "test/" then 2 else 1
  }

  function FolderNamed(prefix: string): Folder
    requires IsPrefix(prefix)
  {
    if prefix == "" then Top else if prefix == "client/" then Client else if prefix == "tests/" then Tests else Test
  }

  lemma FolderOf(prefix: string, rest: string)
    requires IsBelow(prefix, rest)
    ensures FolderPrefix(FolderNamed(prefix)) == prefix
    ensures LeadingFolder(prefix + rest) == FolderNamed(prefix)
    ensures Normalise("", prefix + rest) == prefix + rest
  {
    var path := prefix + rest;
    if prefix == "" { assert path == rest; } else { assert path[0] == 'c' || path[0] == 't'; }
    PlainIsRead(path);
    hide Normalise;
    if prefix == "test/" { assert path[4] == '/'; }
  }

  lemma TargetIs(prefix: string, rest: string, content: string)
    requires IsBelow(prefix, rest)
    ensures var wanted := WantedAt(prefix + rest, content);
            && wanted.rest == rest && wanted.path == prefix + rest && wanted.folder == FolderNamed(prefix)
            && wanted.target == if Home(prefix, rest) == "tests/" then "tests" else "client"
  {
    FolderOf(prefix, rest);
    hide IsNoProgramFile, IsTestFile, LeadingFolder, Normalise, FolderPrefix;
    assert (prefix + rest)[|FolderPrefix(FolderNamed(prefix))|..] == rest;
    assert |"tests/"| == 6 && |"client/"| == 7;
  }

  lemma TargetIsHome(prefix: string, rest: string)
    ensures (if Home(prefix, rest) == "tests/" then "tests" else "client") + "/" == Home(prefix, rest)
  {
    assert "tests" + "/" == "tests/" && "client" + "/" == "client/";
  }

  lemma WantedByName(prefix: string, rest: string, content: string)
    requires IsBelow(prefix, rest)
    ensures var file := File(prefix + rest, content);
            && (Keeps("", file) <==> IsNoProgramFile(rest))
            && WantedOf("", file).Own() == Home(prefix, rest) + rest
            && WantedOf("", file).Whole() == Home(prefix, rest) + (prefix + rest)
            && Rank("", file) == Turns(prefix)
  {
    FolderOf(prefix, rest);
    SameKeeping(FolderNamed(prefix), rest);
    TargetIs(prefix, rest, content);
    TargetIsHome(prefix, rest);
    hide IsNoProgramFile, WantedAt, Normalise, FolderPrefix, Home, LeadingFolder, IsPlain;
  }

  /** One file by itself goes to its home, and is left out exactly if it is not kept. */
  lemma FileGoesHome(prefix: string, rest: string, content: string)
    requires IsBelow(prefix, rest)
    ensures Layout("", [File(prefix + rest, content)]) ==
            if IsNoProgramFile(rest) then [File(Home(prefix, rest) + rest, content)] else []
  {
    var file := File(prefix + rest, content);
    WantedByName(prefix, rest, content);
    OneFileLaidOut("", file);
    hide IsNoProgramFile, Layout, WantedOf, Keeps, Rank;
  }

  lemma OneFileLaidOut(root: string, file: File)
    ensures Layout(root, [file]) == if Keeps(root, file) then [File(WantedOf(root, file).Own(), file.content)] else []
  {
    hide Layout, Keeps, WantedOf, Rank, Placed, Wanted.Own, Wanted.Whole, PathFor, WantedFiles;
    var files := [file];
    LayoutLength(root, files);
    WantedOfOne(root, file);
    if Keeps(root, file) {
      PlacedInTurn(root, files);
      assert Below(root, files, Placed(root, files), Rank(root, file)) + Beside(root, files, Placed(root, files), 0)
          == {};
      PicksInOrder(WantedOf(root, file), {});
      assert files[0] == file;
      LayoutIsPlaced(root, files, 0);
      FirstPosition(root, files);
    }
  }

  lemma FirstPosition(root: string, files: seq<File>)
    ensures Position(root, files, 0) == 0
  {
    NoFilesNoneWanted(root);
    assert files[..0] == [];
  }

  // -- Who gets a contested path ---------------------------------------------

  /** Two kept files: the one whose turn comes first gets its own path, the other picks next to it. */
  lemma TwoFilesLaidOut(root: string, a: File, b: File)
    requires Keeps(root, a) && Keeps(root, b)
    ensures var p, q := WantedOf(root, a), WantedOf(root, b);
            Layout(root, [a, b]) ==
            if Rank(root, b) < Rank(root, a)
            then [File(PathFor(p, {q.Own()}), a.content), File(q.Own(), b.content)]
            else [File(p.Own(), a.content), File(PathFor(q, {p.Own()}), b.content)]
  {
    hide *;
    var files := [a, b];
    assert files[0] == a && files[1] == b;
    TwoFilesPlaced(root, files);
    BothAreLaidOut(root, files);
  }

  lemma BothAreLaidOut(root: string, files: seq<File>)
    requires |files| == 2 && Keeps(root, files[0]) && Keeps(root, files[1])
    ensures var placed := Placed(root, files);
            Layout(root, files) ==
            [File(placed[0].value, files[0].content), File(placed[1].value, files[1].content)]
  {
    hide *;
    PositionOf(root, files, 0);
    PositionOf(root, files, 1);
    FirstPosition(root, files);
    WholePosition(root, files);
    LayoutLength(root, files);
    LayoutIsPlaced(root, files, 0);
    LayoutIsPlaced(root, files, 1);
  }

  lemma TwoFilesPlaced(root: string, files: seq<File>)
    requires |files| == 2 && Keeps(root, files[0]) && Keeps(root, files[1])
    ensures var placed, p, q := Placed(root, files), WantedOf(root, files[0]), WantedOf(root, files[1]);
            if Rank(root, files[1]) < Rank(root, files[0])
            then placed[0] == Some(PathFor(p, {q.Own()})) && placed[1] == Some(q.Own())
            else placed[0] == Some(p.Own()) && placed[1] == Some(PathFor(q, {p.Own()}))
  {
    hide Keeps, WantedOf, Rank, Placed, Wanted.Own, Wanted.Whole, PathFor;
    PlacedInTurn(root, files);
    var placed, p, q := Placed(root, files), WantedOf(root, files[0]), WantedOf(root, files[1]);
    PicksInOrder(p, {});
    PicksInOrder(q, {});
    var r0, r1 := Rank(root, files[0]), Rank(root, files[1]);
    assert Beside(root, files, placed, 0) == {};
    if r1 < r0 {
      assert Below(root, files, placed, r1) + Beside(root, files, placed, 1) == {};
      assert Below(root, files, placed, r0) + Beside(root, files, placed, 0) == {q.Own()};
    } else {
      assert Below(root, files, placed, r0) + Beside(root, files, placed, 0) == {};
      assert Below(root, files, placed, r1) + Beside(root, files, placed, 1) == {p.Own()};
    }
  }

  /**
   * Two files of one name and one home: the one whose turn comes first, or of one
   * turn the one that comes first, gets the path, and the other keeps its whole
   * path below that home.
   */
  lemma ContestedPath(p: string, q: string, rest: string, a: string, b: string)
    requires IsBelow(p, rest) && IsBelow(q, rest) && IsNoProgramFile(rest) && Home(p, rest) == Home(q, rest)
    requires if Turns(q) < Turns(p) then p != "" else q != ""
    ensures var home := Home(p, rest);
            Layout("", [File(p + rest, a), File(q + rest, b)]) ==
            if Turns(q) < Turns(p)
            then [File(home + (p + rest), a), File(home + rest, b)]
            else [File(home + rest, a), File(home + (q + rest), b)]
  {
    var home := Home(p, rest);
    hide *;
    WantedByName(p, rest, a);
    WantedByName(q, rest, b);
    assert p != "" ==> |home + (p + rest)| > |home + rest|;
    assert q != "" ==> |home + (q + rest)| > |home + rest|;
    var f, g, own := File(p + rest, a), File(q + rest, b), home + rest;
    TwoFilesLaidOut("", f, g);
    PicksInOrder(WantedOf("", f), {own});
    PicksInOrder(WantedOf("", g), {own});
  }

  /** A file at the top level, any number of times */
  function Copies(rest: string, contents: seq<string>): (files: seq<File>)
    ensures |files| == |contents| && forall k | 0 <= k < |files| :: files[k] == File(rest, contents[k])
  {
    seq(|contents|, k requires 0 <= k < |contents| => File(rest, contents[k]))
  }

  /** The path itself, then `-2`, `-3`, ... before the ending */
  function Copy(path: string, k: nat): string {
    if k == 0 then path else Candidate(path, k + 1)
  }

  lemma CandidateIs(stem: string, ending: string, n: nat)
    requires '.' !in ending
    ensures Candidate(stem + ("." + ending), n) == stem + "-" + Decimal(n) + "." + ending
  {
    var path := stem + ("." + ending);
    LastIndexOfIs(path, '.', |stem|);
    assert path[..|stem|] == stem && path[|stem|..] == "." + ending;
    hide LastIndexOf, Decimal;
    assert Candidate(path, n) == stem + ("-" + Decimal(n)) + ("." + ending);
  }

  lemma CopiesAreDistinct(path: string, j: nat, k: nat)
    requires Copy(path, j) == Copy(path, k)
    ensures j == k
  {
    CandidateIsLonger(path, j + 1);
    CandidateIsLonger(path, k + 1);
    if j > 0 && k > 0 { CandidateInjective(path, j + 1, k + 1); }
    hide Candidate;
  }

  /** Next to the first `k` copies a copy gets the next name. */
  lemma NextCopy(file: Wanted, k: nat, taken: set<string>)
    requires file.Own() == file.Whole()
    requires forall p :: p in taken <==> exists j: nat :: j < k && p == Copy(file.Own(), j)
    ensures PathFor(file, taken) == Copy(file.Own(), k)
  {
    var path := file.Own();
    hide Candidate, Wanted.Own, Wanted.Whole;
    forall j: nat | Copy(path, j) in taken ensures j < k {
      var i: nat :| i < k && Copy(path, j) == Copy(path, i);
      CopiesAreDistinct(path, i, j);
    }
    assert k > 0 ==> Copy(path, 0) in taken;
    if k > 0 {
      var n := FirstFree(path, taken, 2);
      assert Copy(path, n - 1) == Candidate(path, n) && Copy(path, k) == Candidate(path, k + 1);
      assert n - 1 >= k;
      assert Copy(path, k) !in taken;
    }
  }

  lemma {:induction false} CopyIsPlaced(rest: string, contents: seq<string>, k: nat)
    requires IsBelow("", rest) && IsNoProgramFile(rest) && k < |contents|
    ensures Placed("", Copies(rest, contents))[k] == Some(Copy(Home("", rest) + rest, k))
  {
    var files, path := Copies(rest, contents), Home("", rest) + rest;
    forall j: nat | j <= k
      ensures Keeps("", files[j]) && Rank("", files[j]) == 0
      ensures WantedOf("", files[j]).Own() == WantedOf("", files[j]).Whole() == path
    {
      assert "" + rest == rest;
      WantedByName("", rest, contents[j]);
    }
    hide IsNoProgramFile, WantedOf, Keeps, Rank, Home, PathFor, Copy, Placed, IsPlain, Wanted.Own, Wanted.Whole;
    var placed := Placed("", files);
    forall j: nat | j < k ensures placed[j] == Some(Copy(path, j)) {
      CopyIsPlaced(rest, contents, j);
    }
    PlacedInTurn("", files);
    var taken := Below("", files, placed, 0) + Beside("", files, placed, k);
    assert Below("", files, placed, 0) == {};
    forall p ensures p in taken <==> exists j: nat :: j < k && p == Copy(path, j) {
      if j: nat :| j < k && p == Copy(path, j) { assert placed[j] == Some(p); }
    }
    NextCopy(WantedOf("", files[k]), k, taken);
  }

  lemma CopyIsLaidOut(rest: string, contents: seq<string>, k: nat)
    requires IsBelow("", rest) && IsNoProgramFile(rest) && k < |contents|
    ensures var laidOut := Layout("", Copies(rest, contents));
            |laidOut| == |contents| && laidOut[k] == File(Copy(Home("", rest) + rest, k), contents[k])
  {
    hide *;
    var files := Copies(rest, contents);
    CopyIsPlaced(rest, contents, k);
    AllCopiesAreKept(rest, contents, k);
    LayoutIsPlaced("", files, k);
    AllCopiesAreKept(rest, contents, |contents|);
    WholePosition("", files);
    LayoutLength("", files);
  }

  /** Files of one name at the top level get it with `-2`, `-3`, ... before the ending, in order. */
  lemma CopiesAreNumbered(stem: string, ending: string, contents: seq<string>, k: nat)
    requires '.' !in ending && IsBelow("", stem + ("." + ending)) && IsNoProgramFile(stem + ("." + ending))
    requires k < |contents|
    ensures var rest := stem + ("." + ending);
            var laidOut := Layout("", Copies(rest, contents));
            && |laidOut| == |contents| && laidOut[k].content == contents[k]
            && laidOut[k].path ==
               if k == 0 then Home("", rest) + rest else Home("", rest) + stem + "-" + Decimal(k + 1) + "." + ending
  {
    hide Layout, IsNoProgramFile, Home, Candidate, Decimal, IsBelow;
    var rest := stem + ("." + ending);
    CopyIsLaidOut(rest, contents, k);
    assert Home("", rest) + rest == (Home("", rest) + stem) + ("." + ending);
    CandidateIs(Home("", rest) + stem, ending, k + 1);
  }

  lemma CopyIsKept(rest: string, content: string)
    requires IsBelow("", rest) && IsNoProgramFile(rest)
    ensures Keeps("", File(rest, content))
  {
    assert "" + rest == rest;
    hide *;
    WantedByName("", rest, content);
  }

  lemma {:induction false} AllCopiesAreKept(rest: string, contents: seq<string>, n: nat)
    requires IsBelow("", rest) && IsNoProgramFile(rest) && n <= |contents|
    ensures Position("", Copies(rest, contents), n) == n
    ensures n < |contents| ==> Keeps("", Copies(rest, contents)[n])
  {
    hide *;
    var files := Copies(rest, contents);
    if n < |contents| { CopyIsKept(rest, contents[n]); }
    if n == 0 {
      FirstPosition("", files);
    } else {
      AllCopiesAreKept(rest, contents, n - 1);
      PositionOf("", files, n - 1);
    }
  }

  // -- Programs and runnable scripts -----------------------------------------

  /** A program is a Rust or Python file anywhere under `src/`. */
  lemma HasProgramIs(files: seq<File>)
    ensures HasProgram(files) <==>
            exists i: nat, name: string, ending: string ::
              && i < |files| && name != "" && (ending == ".rs" || ending == ".py")
              && files[i].path == "src/" + name + ending
  {
    hide EndsWith;
    if HasProgram(files) {
      var i: nat :| i < |files| && "src/" <= files[i].path && |files[i].path| > 7 && IsProgramSource(files[i].path);
      var path := files[i].path;
      ProgramSourceIs(path);
      var stem: string :| path == stem + ".rs" || path == stem + ".py";
      var ending := if path == stem + ".rs" then ".rs" else ".py";
      assert path == "src/" + stem[4..] + ending by { assert stem[..4] == path[..4] == "src/"; }
      assert stem[4..] != "";
    }
    if i: nat, name: string, ending: string :|
      && i < |files| && name != "" && (ending == ".rs" || ending == ".py") && files[i].path == "src/" + name + ending
    {
      EndsWithIs(files[i].path, ending);
      assert files[i].path == ("src/" + name) + ending;
      assert "src/" <= files[i].path;
    }
  }

  lemma IsInFolder(path: string, folder: string)
    ensures folder <= path <==> exists name: string :: path == folder + name
  {
    if folder <= path { assert path == folder + path[|folder|..]; }
  }

  /** Something to run is a script in `client/` or `tests/`. */
  lemma HasRunnableIs(files: seq<File>)
    ensures HasRunnableTypeScript(files) <==>
            exists i: nat :: i < |files| && IsScript(files[i].path)
              && exists name: string :: files[i].path == "client/" + name || files[i].path == "tests/" + name
  {
    hide IsScript;
    forall i: nat | i < |files|
      ensures ("client/" <= files[i].path || "tests/" <= files[i].path) <==>
              exists name: string :: files[i].path == "client/" + name || files[i].path == "tests/" + name
    {
      IsInFolder(files[i].path, "client/");
      IsInFolder(files[i].path, "tests/");
    }
  }
}
