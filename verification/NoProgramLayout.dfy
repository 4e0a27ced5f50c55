/**
 * The layout of a repository that holds no program
 * (`client-v2/src/utils/framework.ts`): which files are kept, which path each
 * one gets under `client/` or `tests/`, and when an import is refused.
 */
module NoProgramLayout {
  import opened Placement
  import opened Sequences
  import opened Text

  // -- Which files are kept --------------------------------------------------

  datatype File = File(path: string, content: string)

  predicate IsProgramSource(path: string) {
    EndsWith(path, ".rs") || EndsWith(path, ".py")
  }

  predicate IsScript(path: string) {
    EndsWith(path, ".js") || EndsWith(path, ".ts") || EndsWith(path, ".jsx") || EndsWith(path, ".tsx")
  }

  /** `.test` or `.spec` before a script's extension */
  predicate IsTestFile(path: string) {
    IsScript(path) && (EndsWith(Stem(path), ".test") || EndsWith(Stem(path), ".spec"))
  }

  predicate IsData(path: string) {
    EndsWith(Lower(path), ".json")
  }

  function BaseName(path: string): string {
    From(path, LastIndexOf(path, '/') + 1)
  }

  /** Whether a segment of the path starts with a dot at `i` */
  predicate DotSegmentAt(path: string, i: nat)
    requires i < |path|
  {
    path[i] == '.' && (i == 0 || path[i - 1] == '/')
  }

  /** A dotfile, or anything in a dot folder */
  predicate HasDotSegment(path: string) {
    exists i: nat | i < |path| :: DotSegmentAt(path, i)
  }

  predicate IsToolConfigName(name: string) {
    || name == "package.json" || name == "package-lock.json" || name == "npm-shrinkwrap.json"
    || (("tsconfig" <= name || "jsconfig" <= name) && EndsWith(name[8..], ".json"))
  }

  predicate IsToolConfig(path: string) {
    IsToolConfigName(Lower(BaseName(path))) || HasDotSegment(path)
  }

  predicate IsNoProgramFile(path: string) {
    IsScript(path) || (IsData(path) && !IsToolConfig(path))
  }

  // -- Where a file wants to go ----------------------------------------------

  datatype Folder = Top | Client | Tests | Test

  const CLIENT := "client"
  const TESTS := "tests"

  /** The leading folder that the layout drops, with its slash */
  function LeadingFolder(path: string): Folder {
    if "client/" <= path then Client
    else if "tests/" <= path then Tests
    else if "test/" <= path then Test
    else Top
  }

  function FolderPrefix(folder: Folder): string {
    match folder
    case Top => ""
    case Client => "client/"
    case Tests => "tests/"
    case Test => "test/"
  }

  function PlacementRank(folder: Folder): nat {
    match folder
    case Top => 0
    case Client => 1
    case Tests => 1
    case Test => 2
  }

  /** Where the slashes from `i` on end */
  function SlashesEnd(s: string, i: nat): (n: nat)
    requires i <= |s|
    ensures i <= n <= |s| && (n == |s| || s[n] != '/')
    ensures forall j | i <= j < n :: s[j] == '/'
    decreases |s| - i
  {
    if i < |s| && s[i] == '/' then SlashesEnd(s, i + 1) else i
  }

  /** Where the slashes before `i` start */
  function SlashesStart(s: string, i: nat): (n: nat)
    requires i <= |s|
    ensures n <= i && (n == 0 || s[n - 1] != '/')
    ensures forall j | n <= j < i :: s[j] == '/'
  {
    if i > 0 && s[i - 1] == '/' then SlashesStart(s, i - 1) else i
  }

  function DropLeadingSlashes(s: string): string {
    s[SlashesEnd(s, 0)..]
  }

  function DropTrailingSlashes(s: string): string {
    s[..SlashesStart(s, |s|)]
  }

  function TrimSlashes(s: string): string {
    DropTrailingSlashes(DropLeadingSlashes(s))
  }

  /** A path without the slashes, or the `./`, at its front */
  function Relative(fullPath: string): string {
    if "/" <= fullPath then DropLeadingSlashes(fullPath)
    else if "./" <= fullPath then DropLeadingSlashes(fullPath[1..])
    else fullPath
  }

  /** A path as the layout reads it: relative, without the imported folder */
  function Normalise(root: string, fullPath: string): string {
    var prefix := TrimSlashes(root);
    var relative := Relative(fullPath);
    if prefix != "" && prefix + "/" <= relative then relative[|prefix| + 1..] else relative
  }

  datatype Wanted = Wanted(path: string, content: string, folder: Folder, rest: string, target: string) {
    /** The path this file gets unless another holds it */
    function Own(): string { target + "/" + rest }

    /** The path it falls back to */
    function Whole(): string { target + "/" + path }
  }

  function WantedAt(path: string, content: string): (file: Wanted)
    ensures file.path == path && file.content == content
  {
    var folder := LeadingFolder(path);
    var rest := path[|FolderPrefix(folder)|..];
    var isTest := folder == Tests || folder == Test || IsTestFile(rest);
    Wanted(path, content, folder, rest, if isTest then TESTS else CLIENT)
  }

  /** The kept files, in the given order */
  function WantedFiles(root: string, files: seq<File>): seq<Wanted> {
    if files == [] then []
    else
      var path := Normalise(root, files[0].path);
      (if IsNoProgramFile(path) then [WantedAt(path, files[0].content)] else []) + WantedFiles(root, files[1..])
  }

  // -- A free name -----------------------------------------------------------

  /** `path.slice(0, dot)` for the last dot; -1 counts from the end */
  function Stem(path: string): string {
    var dot := LastIndexOf(path, '.');
    if 0 <= dot then path[..dot] else if path == "" then "" else path[..|path| - 1]
  }

  /** `path.slice(dot)` for the last dot */
  function Extension(path: string): string {
    path[|Stem(path)|..]
  }

  function Numbered(stem: string, n: nat, extension: string): string {
    stem + ("-" + Decimal(n)) + extension
  }

  /** `path` with `-n` before its extension */
  function Candidate(path: string, n: nat): string {
    Numbered(Stem(path), n, Extension(path))
  }

  lemma CandidateInjective(path: string, m: nat, n: nat)
    requires Candidate(path, m) == Candidate(path, n)
    ensures m == n
  {
    var k, s, t := |Stem(path)| + 1, Candidate(path, m), Candidate(path, n);
    assert s[k..k + |Decimal(m)|] == Decimal(m) && t[k..k + |Decimal(n)|] == Decimal(n);
    DecimalInjective(m, n);
  }

  /** The first `n` from `from` on whose candidate is free */
  function FirstFree(path: string, taken: set<string>, from: nat): (n: nat)
    ensures from <= n <= from + |taken|
    ensures Candidate(path, n) !in taken
    ensures forall k | from <= k < n :: Candidate(path, k) in taken
    decreases |taken|
  {
    var candidate := Candidate(path, from);
    if candidate !in taken then from
    else
      var n := FirstFree(path, taken - {candidate}, from + 1);
      assert Candidate(path, n) != candidate by {
        if Candidate(path, n) == candidate { CandidateInjective(path, n, from); }
      }
      n
  }

  /** `path` itself when it is free, else its first free candidate */
  function FreePath(path: string, taken: set<string>): (free: string)
    ensures free !in taken
  {
    if path !in taken then path else Candidate(path, FirstFree(path, taken, 2))
  }

  /** A candidate is longer than the path, so the path itself is not one. */
  lemma CandidateIsLonger(path: string, n: nat)
    ensures |Candidate(path, n)| > |path|
  {}

  /** Counting the path itself, at most one name more than are taken is tried. */
  lemma FreePathTries(path: string, taken: set<string>)
    requires path in taken
    ensures FirstFree(path, taken, 2) <= |taken| + 1
    ensures forall k | 2 <= k < FirstFree(path, taken, 2) :: Candidate(path, k) in taken
  {
    var n := FirstFree(path, taken, 2);
    var others := taken - {path};
    var m := FirstFree(path, others, 2);
    CandidateIsLonger(path, m);
    assert Candidate(path, m) !in taken;
  }

  // -- The layout ------------------------------------------------------------

  /** The positions of the files of one rank, in order */
  function OfRank(wanted: seq<Wanted>, rank: nat): (order: seq<nat>)
    ensures forall k | 0 <= k < |order| :: order[k] < |wanted| && PlacementRank(wanted[order[k]].folder) == rank
    ensures forall j, k | 0 <= j < k < |order| :: order[j] < order[k]
    ensures forall i | 0 <= i < |wanted| && PlacementRank(wanted[i].folder) == rank :: i in order
  {
    if wanted == [] then []
    else
      var n := |wanted| - 1;
      OfRank(wanted[..n], rank) + (if PlacementRank(wanted[n].folder) == rank then [n] else [])
  }

  /** The positions of all files, sorted stably by rank */
  function PlacementOrder(wanted: seq<Wanted>): seq<nat> {
    OfRank(wanted, 0) + OfRank(wanted, 1) + OfRank(wanted, 2)
  }

  function PathFor(file: Wanted, taken: set<string>): (path: string)
    ensures path !in taken
  {
    if file.Own() in taken then FreePath(file.Whole(), taken) else file.Own()
  }

  /** The order is a stable sort by rank: every file once, ties as they came. */
  lemma PlacementOrderIsStable(wanted: seq<Wanted>)
    ensures var order := PlacementOrder(wanted);
            && (forall k | 0 <= k < |order| :: order[k] < |wanted|)
            && (forall i | 0 <= i < |wanted| :: i in order)
            && forall j, k | 0 <= j < k < |order| ::
                 var a, b := PlacementRank(wanted[order[j]].folder), PlacementRank(wanted[order[k]].folder);
                 a < b || (a == b && order[j] < order[k])
  {}

  /** The files in the order they are placed */
  function Sorted(wanted: seq<Wanted>): (sorted: seq<Wanted>) {
    PlacementOrderIsStable(wanted);
    var order := PlacementOrder(wanted);
    seq(|order|, k requires 0 <= k < |order| => wanted[order[k]])
  }

  /** When the file at `i` is placed */
  ghost function Turn(wanted: seq<Wanted>, i: nat): (k: nat)
    requires i < |wanted|
    ensures k < |Sorted(wanted)| && PlacementOrder(wanted)[k] == i && Sorted(wanted)[k] == wanted[i]
  {
    PlacementOrderIsStable(wanted);
    assert i in PlacementOrder(wanted);
    var k: nat :| k < |PlacementOrder(wanted)| && PlacementOrder(wanted)[k] == i;
    k
  }

  /** The wanted files, in the given order, each with the path it picked at its turn */
  ghost function LaidOut(wanted: seq<Wanted>): (laidOut: seq<File>) {
    var paths := Places(Sorted(wanted), PathFor);
    seq(|wanted|, i requires 0 <= i < |wanted| => File(paths[Turn(wanted, i)], wanted[i].content))
  }

  /** `toNoProgramLayoutWith(root)(files)` */
  ghost function Layout(root: string, files: seq<File>): (laidOut: seq<File>) {
    LaidOut(WantedFiles(root, files))
  }

  // -- The source's loops ----------------------------------------------------

  method FindFreePath(path: string, taken: set<string>) returns (free: string)
    ensures free == FreePath(path, taken)
  {
    if path !in taken { return path; }
    var n := 2;
    while Candidate(path, n) in taken
      invariant 2 <= n <= FirstFree(path, taken, 2)
      decreases FirstFree(path, taken, 2) - n
    {
      n := n + 1;
    }
    return Candidate(path, n);
  }

  /** The loop with its growing set of taken paths and its map of placed files */
  method PlaceFiles(wanted: seq<Wanted>) returns (placed: map<nat, string>)
    ensures forall i: nat | i < |wanted| ::
              i in placed && placed[i] == Places(Sorted(wanted), PathFor)[Turn(wanted, i)]
  {
    hide PlacementOrder, FreePath;
    var order, sorted := PlacementOrder(wanted), Sorted(wanted);
    ghost var paths := Places(sorted, PathFor);
    PlacementOrderIsStable(wanted);
    var taken: set<string> := {};
    placed := map[];
    for k := 0 to |order|
      invariant taken == Elements(paths[..k])
      invariant forall j | 0 <= j < k :: order[j] in placed && placed[order[j]] == paths[j]
    {
      PlaceAt(sorted, PathFor, k);
      var file := wanted[order[k]];
      var path := file.Own();
      if path in taken {
        path := FindFreePath(file.Whole(), taken);
      }
      assert paths[..k + 1] == paths[..k] + [path];
      taken := taken + {path};
      placed := placed[order[k] := path];
    }
    forall i: nat | i < |wanted|
      ensures i in placed && placed[i] == paths[Turn(wanted, i)]
    {
      assert order[Turn(wanted, i)] == i;
    }
  }

  method ToNoProgramLayout(root: string, files: seq<File>) returns (laidOut: seq<File>)
    ensures laidOut == Layout(root, files)
  {
    hide PlacementOrder, PathFor, Sorted, Turn, WantedFiles;
    var wanted := WantedFiles(root, files);
    var placed := PlaceFiles(wanted);
    laidOut := [];
    for i := 0 to |wanted|
      invariant |laidOut| == i
      invariant forall j | 0 <= j < i :: laidOut[j] == File(placed[j], wanted[j].content)
    {
      laidOut := laidOut + [File(placed[i], wanted[i].content)];
    }
  }
}
