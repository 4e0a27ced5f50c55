/**
 * When the layout depends on the order the files come in
 * (`client-v2/src/utils/framework.ts`), for lists of any length.
 */
module NoProgramLayoutOrder {
  import opened NoProgramLayout
  import opened NoProgramLayoutTheorems
  import opened Options
  import opened Placement
  import opened Sequences

  // -- Who gets which path ---------------------------------------------------

  predicate Keeps(root: string, file: File) {
    IsNoProgramFile(Normalise(root, file.path))
  }

  function WantedOf(root: string, file: File): Wanted {
    WantedAt(Normalise(root, file.path), file.content)
  }

  function Rank(root: string, file: File): nat {
    PlacementRank(WantedOf(root, file).folder)
  }

  /** How many of the first `i` files are kept, so where the file at `i` is in the output */
  function Position(root: string, files: seq<File>, i: nat): nat
    requires i <= |files|
  {
    |WantedFiles(root, files[..i])|
  }

  lemma WantedFirst(root: string, files: seq<File>)
    requires files != []
    ensures WantedFiles(root, files) ==
            (if Keeps(root, files[0]) then [WantedOf(root, files[0])] else []) + WantedFiles(root, files[1..])
  {
    hide IsNoProgramFile, Normalise, WantedAt;
  }

  lemma {:induction false} WantedOfParts(root: string, a: seq<File>, b: seq<File>)
    ensures WantedFiles(root, a + b) == WantedFiles(root, a) + WantedFiles(root, b)
  {
    hide WantedFiles, Keeps, WantedOf;
    if a == [] {
      NoFilesNoneWanted(root);
      assert a + b == b;
    } else {
      var first := if Keeps(root, a[0]) then [WantedOf(root, a[0])] else [];
      WantedFirst(root, a);
      WantedFirst(root, a + b);
      assert (a + b)[0] == a[0] && (a + b)[1..] == a[1..] + b;
      WantedOfParts(root, a[1..], b);
      Associates(first, WantedFiles(root, a[1..]), WantedFiles(root, b));
    }
  }

  lemma WantedOfOne(root: string, file: File)
    ensures WantedFiles(root, [file]) == if Keeps(root, file) then [WantedOf(root, file)] else []
  {
    hide IsNoProgramFile, Normalise, WantedAt;
    assert [file][1..] == [] && WantedFiles(root, []) == [];
  }

  lemma PositionOf(root: string, files: seq<File>, i: nat)
    requires i < |files|
    ensures Position(root, files, i + 1) == Position(root, files, i) + if Keeps(root, files[i]) then 1 else 0
    ensures Position(root, files, i + 1) <= |WantedFiles(root, files)|
    ensures Keeps(root, files[i]) ==> WantedFiles(root, files)[Position(root, files, i)] == WantedOf(root, files[i])
  {
    hide WantedFiles, Keeps, WantedOf;
    WantedOfOne(root, files[i]);
    WantedOfParts(root, files[..i], [files[i]]);
    assert files[..i + 1] == files[..i] + [files[i]];
    WantedOfParts(root, files[..i + 1], files[i + 1..]);
    assert files == files[..i + 1] + files[i + 1..];
  }

  lemma PositionsGrow(root: string, files: seq<File>, i: nat, j: nat)
    requires i <= j <= |files|
    ensures Position(root, files, i) <= Position(root, files, j)
  {
    hide WantedFiles;
    assert files[..j] == files[..i] + files[i..j];
    WantedOfParts(root, files[..i], files[i..j]);
  }

  /** Every output position is that of a kept file. */
  lemma {:induction false} FileAt(root: string, files: seq<File>, end: nat, n: nat) returns (i: nat)
    requires end <= |files|
    ensures n < Position(root, files, end) ==> i < end && Keeps(root, files[i]) && Position(root, files, i) == n
    decreases end
  {
    hide Keeps, WantedFiles;
    i := 0;
    if end == 0 {
      NoFilesNoneWanted(root);
      assert files[..end] == [];
    } else {
      PositionOf(root, files, end - 1);
      if n < Position(root, files, end - 1) {
        i := FileAt(root, files, end - 1, n);
      } else {
        i := end - 1;
      }
    }
  }

  lemma NoFilesNoneWanted(root: string)
    ensures WantedFiles(root, []) == []
  {}

  /** The paths in the order of the wanted files */
  ghost function PathsOf(wanted: seq<Wanted>): (paths: seq<string>)
    ensures |paths| == |wanted|
  {
    seq(|wanted|, i requires 0 <= i < |wanted| => Places(Sorted(wanted), PathFor)[Turn(wanted, i)])
  }

  /** Whether the file at `j` is placed before the one at `i` */
  predicate Earlier(wanted: seq<Wanted>, j: nat, i: nat)
    requires i < |wanted| && j < |wanted|
  {
    var a, b := PlacementRank(wanted[j].folder), PlacementRank(wanted[i].folder);
    a < b || (a == b && j < i)
  }

  lemma TurnsFollowRank(wanted: seq<Wanted>, j: nat, i: nat)
    requires i < |wanted| && j < |wanted|
    ensures Turn(wanted, j) < Turn(wanted, i) <==> Earlier(wanted, j, i)
  {
    hide PlacementOrder, Sorted;
    PlacementOrderIsStable(wanted);
    var order, a, b := PlacementOrder(wanted), Turn(wanted, j), Turn(wanted, i);
    assert order[a] == j && order[b] == i;
  }

  /** A file picks its path from what the files of lower rank, and those of its own before it, left. */
  lemma PathOfWanted(wanted: seq<Wanted>, i: nat)
    requires i < |wanted|
    ensures PathsOf(wanted)[i] ==
            PathFor(wanted[i], set j: nat | j < |wanted| && Earlier(wanted, j, i) :: PathsOf(wanted)[j])
  {
    hide PathFor, PlacementOrder, Sorted, Earlier;
    var paths, k := Places(Sorted(wanted), PathFor), Turn(wanted, i);
    PlaceAt(Sorted(wanted), PathFor, k);
    var before := set j: nat | j < |wanted| && Earlier(wanted, j, i) :: PathsOf(wanted)[j];
    forall p | p in before ensures p in Elements(paths[..k]) {
      var j: nat :| j < |wanted| && Earlier(wanted, j, i) && PathsOf(wanted)[j] == p;
      TurnsFollowRank(wanted, j, i);
      assert paths[..k][Turn(wanted, j)] == p;
    }
    forall p | p in Elements(paths[..k]) ensures p in before {
      var m: nat :| m < k && paths[m] == p;
      var j := FileOfTurn(wanted, m);
      TurnsFollowRank(wanted, j, i);
      assert PathsOf(wanted)[j] == p;
    }
    assert before == Elements(paths[..k]);
  }

  lemma FileOfTurn(wanted: seq<Wanted>, m: nat) returns (j: nat)
    requires m < |Sorted(wanted)|
    ensures j < |wanted| && Turn(wanted, j) == m
  {
    PlacementOrderIsStable(wanted);
    hide PlacementOrder;
    j := PlacementOrder(wanted)[m];
    var k := Turn(wanted, j);
    assert PlacementOrder(wanted)[k] == j;
  }

  /** The path each file gets, by its place in the input; nothing for a file that is left out */
  ghost function Placed(root: string, files: seq<File>): (placed: seq<Option<string>>)
    ensures |placed| == |files|
    ensures forall i | 0 <= i < |files| :: placed[i].Some? <==> Keeps(root, files[i])
  {
    seq(|files|, i requires 0 <= i < |files| =>
      if Keeps(root, files[i])
      then PositionOf(root, files, i); Some(PathsOf(WantedFiles(root, files))[Position(root, files, i)])
      else None)
  }

  /** The output is the kept files, in order, each with its path. */
  lemma LayoutIsPlaced(root: string, files: seq<File>, i: nat)
    requires i < |files| && Keeps(root, files[i])
    ensures Position(root, files, i) < |Layout(root, files)|
    ensures Layout(root, files)[Position(root, files, i)] == File(Placed(root, files)[i].value, files[i].content)
  {
    hide WantedFiles, Keeps, PathFor, Sorted;
    PositionOf(root, files, i);
  }

  // -- Placing by rank -------------------------------------------------------

  type Assignment = seq<Option<string>>

  /** The paths of the files of lower rank */
  ghost function Below(root: string, files: seq<File>, placed: Assignment, rank: nat): set<string>
    requires |placed| == |files|
  {
    set j: nat | j < |files| && placed[j].Some? && Rank(root, files[j]) < rank :: placed[j].value
  }

  /** The paths of the files of one rank that come before `i` */
  ghost function Beside(root: string, files: seq<File>, placed: Assignment, i: nat): set<string>
    requires |placed| == |files| && i < |files|
  {
    set j: nat | j < i && placed[j].Some? && Rank(root, files[j]) == Rank(root, files[i]) :: placed[j].value
  }

  /** What a file would get if it were the first of its rank */
  ghost function FirstChoiceOf(root: string, files: seq<File>, placed: Assignment, i: nat): string
    requires |placed| == |files| && i < |files|
  {
    PathFor(WantedOf(root, files[i]), Below(root, files, placed, Rank(root, files[i])))
  }

  ghost predicate OfKept(root: string, files: seq<File>, placed: Assignment) {
    |placed| == |files| && forall i | 0 <= i < |files| :: placed[i].Some? <==> Keeps(root, files[i])
  }

  /** Each file picks in turn, as the layout lets it. */
  ghost predicate InTurn(root: string, files: seq<File>, placed: Assignment) {
    && OfKept(root, files, placed)
    && forall i: nat | i < |files| && placed[i].Some? ::
         placed[i].value == PathFor(WantedOf(root, files[i]),
                                    Below(root, files, placed, Rank(root, files[i])) + Beside(root, files, placed, i))
  }

  /** Each file has its first choice. */
  ghost predicate AllFirstChoices(root: string, files: seq<File>, placed: Assignment) {
    && OfKept(root, files, placed)
    && forall i: nat | i < |files| && placed[i].Some? :: placed[i].value == FirstChoiceOf(root, files, placed, i)
  }

  ghost predicate Distinct(placed: Assignment) {
    forall i, j | 0 <= i < j < |placed| && placed[i].Some? && placed[j].Some? :: placed[i] != placed[j]
  }

  lemma InjectiveAt(root: string, files: seq<File>, m: nat, n: nat)
    ensures m < n < |WantedFiles(root, files)| ==>
              |Layout(root, files)| == |WantedFiles(root, files)|
                  && Layout(root, files)[m].path != Layout(root, files)[n].path
  {
    hide WantedFiles, LaidOut;
    if m < n < |WantedFiles(root, files)| { LayoutIsInjective(WantedFiles(root, files), m, n); }
  }

  lemma KeptPathsDiffer(root: string, files: seq<File>, i: nat, j: nat)
    requires i < j < |files| && Keeps(root, files[i]) && Keeps(root, files[j])
    ensures Placed(root, files)[i] != Placed(root, files)[j]
  {
    hide *;
    PositionOf(root, files, i);
    PositionOf(root, files, j);
    PositionsGrow(root, files, i + 1, j);
    InjectiveAt(root, files, Position(root, files, i), Position(root, files, j));
    LayoutIsPlaced(root, files, i);
    LayoutIsPlaced(root, files, j);
  }

  lemma PlacedIsDistinct(root: string, files: seq<File>)
    ensures Distinct(Placed(root, files))
  {
    hide Placed, Keeps;
    var placed := Placed(root, files);
    forall i: nat, j: nat | i < j < |placed| && placed[i].Some? && placed[j].Some? ensures placed[i] != placed[j] {
      KeptPathsDiffer(root, files, i, j);
    }
  }

  lemma PlacedInTurn(root: string, files: seq<File>)
    ensures InTurn(root, files, Placed(root, files))
  {
    hide WantedFiles, Keeps, PathFor, WantedOf, PathsOf;
    var placed := Placed(root, files);
    forall i: nat | i < |files| && placed[i].Some?
      ensures placed[i].value == PathFor(WantedOf(root, files[i]),
                Below(root, files, placed, Rank(root, files[i])) + Beside(root, files, placed, i))
    {
      TakenBefore(root, files, i);
      PositionOf(root, files, i);
      PathOfWanted(WantedFiles(root, files), Position(root, files, i));
    }
  }

  /** The files placed earlier, by their places in the output and in the input */
  lemma TakenBefore(root: string, files: seq<File>, i: nat)
    requires i < |files| && Keeps(root, files[i])
    ensures var wanted, placed, n := WantedFiles(root, files), Placed(root, files), Position(root, files, i);
            && n < |wanted|
            && (set j: nat | j < |wanted| && Earlier(wanted, j, n) :: PathsOf(wanted)[j])
               == Below(root, files, placed, Rank(root, files[i])) + Beside(root, files, placed, i)
  {
    hide WantedFiles, Keeps, PathFor, WantedOf, Position, PathsOf;
    PositionOf(root, files, i);
    var wanted, placed, n := WantedFiles(root, files), Placed(root, files), Position(root, files, i);
    var before := set j: nat | j < |wanted| && Earlier(wanted, j, n) :: PathsOf(wanted)[j];
    var taken := Below(root, files, placed, Rank(root, files[i])) + Beside(root, files, placed, i);
    forall p | p in before ensures p in taken {
      var m: nat :| m < |wanted| && Earlier(wanted, m, n) && PathsOf(wanted)[m] == p;
      WholePosition(root, files);
      var j := FileAt(root, files, |files|, m);
      SamePrecedence(root, files, j, i);
      assert placed[j] == Some(p);
    }
    forall p | p in taken ensures p in before {
      var j: nat :| j < |files| && placed[j] == Some(p) && ComesBefore(root, files, j, i);
      SamePrecedence(root, files, j, i);
      PositionOf(root, files, j);
    }
  }

  predicate ComesBefore(root: string, files: seq<File>, j: nat, i: nat)
    requires i < |files| && j < |files|
  {
    Rank(root, files[j]) < Rank(root, files[i]) || (Rank(root, files[j]) == Rank(root, files[i]) && j < i)
  }

  lemma WholePosition(root: string, files: seq<File>)
    ensures Position(root, files, |files|) == |WantedFiles(root, files)|
  {
    assert files[..|files|] == files;
  }

  lemma SamePrecedence(root: string, files: seq<File>, j: nat, i: nat)
    requires i < |files| && j < |files| && Keeps(root, files[i]) && Keeps(root, files[j])
    ensures var wanted, m, n := WantedFiles(root, files), Position(root, files, j), Position(root, files, i);
            && m < |wanted| && n < |wanted|
            && (Earlier(wanted, m, n) <==> ComesBefore(root, files, j, i))
  {
    hide WantedFiles, Keeps, WantedOf, Position;
    PositionOf(root, files, i);
    PositionOf(root, files, j);
    if j < i {
      PositionsGrow(root, files, j + 1, i);
    } else if i < j {
      PositionsGrow(root, files, i + 1, j);
    }
  }

  // -- The theorem -----------------------------------------------------------

  /** Paths that a file would not pick do not change its pick. */
  lemma PickIgnoresOthers(file: Wanted, taken: set<string>, more: set<string>)
    requires PathFor(file, taken) !in more
    ensures PathFor(file, taken + more) == PathFor(file, taken)
  {
    hide Wanted.Own, Wanted.Whole, Candidate;
    if file.Own() in taken && file.Whole() in taken {
      var n, m := FirstFree(file.Whole(), taken, 2), FirstFree(file.Whole(), taken + more, 2);
      assert m == n;
    }
  }

  /** Only one assignment lets each file pick in turn. */
  lemma {:induction false} InTurnIsUnique(root: string, files: seq<File>, a: Assignment, b: Assignment, i: nat)
    requires InTurn(root, files, a) && InTurn(root, files, b) && i < |files|
    ensures a[i] == b[i]
    decreases Rank(root, files[i]), i
  {
    hide PathFor, Keeps, WantedOf, Rank;
    forall j: nat | j < |files| && ComesBefore(root, files, j, i) ensures a[j] == b[j] {
      InTurnIsUnique(root, files, a, b, j);
    }
    assert Below(root, files, a, Rank(root, files[i])) == Below(root, files, b, Rank(root, files[i]));
    assert Beside(root, files, a, i) == Beside(root, files, b, i);
  }

  /** Where all have their first choices, and these differ, each picked in turn. */
  lemma FirstChoicesAreInTurn(root: string, files: seq<File>, placed: Assignment)
    requires AllFirstChoices(root, files, placed) && Distinct(placed)
    ensures InTurn(root, files, placed)
  {
    hide PathFor, Keeps, WantedOf, Rank;
    forall i: nat | i < |files| && placed[i].Some?
      ensures placed[i].value == PathFor(WantedOf(root, files[i]),
                Below(root, files, placed, Rank(root, files[i])) + Beside(root, files, placed, i))
    {
      PickIgnoresOthers(WantedOf(root, files[i]), Below(root, files, placed, Rank(root, files[i])),
        Beside(root, files, placed, i));
    }
  }

  /** The paths of lower ranks if each file of these has its first choice, found rank by rank */
  function TakenBelow(root: string, files: seq<File>, rank: nat): set<string> {
    if rank == 0 then {}
    else
      var taken := TakenBelow(root, files, rank - 1);
      taken + PicksOf(root, files, rank - 1, taken)
  }

  /** What the kept files of one rank would each pick next to the taken paths */
  function PicksOf(root: string, files: seq<File>, rank: nat, taken: set<string>): set<string> {
    set file | file in files && Keeps(root, file) && Rank(root, file) == rank :: PathFor(WantedOf(root, file), taken)
  }

  function FirstPick(root: string, files: seq<File>, file: File): string {
    PathFor(WantedOf(root, file), TakenBelow(root, files, Rank(root, file)))
  }

  /** The kept files of one rank have different first choices. */
  predicate FirstPicksDiffer(root: string, files: seq<File>) {
    forall i, j | 0 <= i < j < |files| && Keeps(root, files[i]) && Keeps(root, files[j])
        && Rank(root, files[i]) == Rank(root, files[j]) ::
      FirstPick(root, files, files[i]) != FirstPick(root, files, files[j])
  }

  /** Each kept file with its first choice */
  ghost function FirstPicks(root: string, files: seq<File>): (picks: Assignment)
    ensures OfKept(root, files, picks)
    ensures forall i | 0 <= i < |files| && picks[i].Some? :: picks[i].value == FirstPick(root, files, files[i])
  {
    seq(|files|, i requires 0 <= i < |files| =>
      if Keeps(root, files[i]) then Some(FirstPick(root, files, files[i])) else None)
  }

  /** The paths of the files of one rank */
  ghost function At(root: string, files: seq<File>, placed: Assignment, rank: nat): set<string>
    requires |placed| == |files|
  {
    set j: nat | j < |files| && placed[j].Some? && Rank(root, files[j]) == rank :: placed[j].value
  }

  lemma BelowGrows(root: string, files: seq<File>, placed: Assignment, rank: nat)
    requires |placed| == |files| && rank > 0
    ensures Below(root, files, placed, rank) == Below(root, files, placed, rank - 1) + At(root, files, placed, rank - 1)
  {
    hide Rank;
  }

  /** What a rank takes when each of its files picks from the same taken paths */
  lemma PicksOfRank(root: string, files: seq<File>, placed: Assignment, rank: nat, taken: set<string>)
    requires OfKept(root, files, placed)
    requires forall i | 0 <= i < |files| && placed[i].Some? && Rank(root, files[i]) == rank ::
               placed[i].value == PathFor(WantedOf(root, files[i]), taken)
    ensures At(root, files, placed, rank) == PicksOf(root, files, rank, taken)
  {
    hide PathFor, Keeps, WantedOf, Rank;
    forall file | file in files && Keeps(root, file) && Rank(root, file) == rank
      ensures PathFor(WantedOf(root, file), taken) in At(root, files, placed, rank)
    {
      var i: nat :| i < |files| && files[i] == file;
      assert placed[i].Some?;
    }
  }

  lemma {:induction false} FirstPicksTake(root: string, files: seq<File>, rank: nat)
    ensures Below(root, files, FirstPicks(root, files), rank) == TakenBelow(root, files, rank)
  {
    hide FirstPicks, PathFor, Keeps, WantedOf, Rank, At, PicksOf;
    if rank > 0 {
      FirstPicksTake(root, files, rank - 1);
      BelowGrows(root, files, FirstPicks(root, files), rank);
      PicksOfRank(root, files, FirstPicks(root, files), rank - 1, TakenBelow(root, files, rank - 1));
    }
  }

  lemma {:induction false} FirstChoicesTake(root: string, files: seq<File>, placed: Assignment, rank: nat)
    requires AllFirstChoices(root, files, placed)
    ensures Below(root, files, placed, rank) == TakenBelow(root, files, rank)
  {
    hide FirstPicks, PathFor, Keeps, WantedOf, Rank, At, PicksOf;
    if rank > 0 {
      FirstChoicesTake(root, files, placed, rank - 1);
      BelowGrows(root, files, placed, rank);
      PicksOfRank(root, files, placed, rank - 1, TakenBelow(root, files, rank - 1));
    }
  }

  /** `order` names each of the first `n` positions once. */
  ghost predicate IsOrder(order: seq<nat>, n: nat) {
    && |order| == n
    && (forall k | 0 <= k < n :: order[k] < n)
    && (forall k, l | 0 <= k < l < n :: order[k] != order[l])
    && (forall i: nat | i < n :: i in order)
  }

  ghost function Reordered<T>(s: seq<T>, order: seq<nat>): (r: seq<T>)
    requires forall k | 0 <= k < |order| :: order[k] < |s|
    ensures |r| == |order|
    ensures forall k | 0 <= k < |order| :: r[k] == s[order[k]]
  {
    seq(|order|, k requires 0 <= k < |order| => s[order[k]])
  }

  /** Whatever order the files come in, each gets the same path. */
  ghost predicate OrderDoesNotMatter(root: string, files: seq<File>) {
    forall order | IsOrder(order, |files|) ::
        Placed(root, Reordered(files, order)) == Reordered(Placed(root, files), order)
  }

  lemma BelowReordered(root: string, files: seq<File>, placed: Assignment, order: seq<nat>, rank: nat)
    requires |placed| == |files| && IsOrder(order, |files|)
    ensures Below(root, Reordered(files, order), Reordered(placed, order), rank) == Below(root, files, placed, rank)
  {
    hide Rank;
    var there, back := Below(root, Reordered(files, order), Reordered(placed, order), rank),
        Below(root, files, placed, rank);
    forall p | p in back ensures p in there {
      var j: nat :| j < |files| && placed[j] == Some(p) && Rank(root, files[j]) < rank;
      assert j in order;
      var k: nat :| k < |order| && order[k] == j;
      assert Reordered(placed, order)[k] == Some(p);
    }
  }

  lemma FirstChoicesReordered(root: string, files: seq<File>, placed: Assignment, order: seq<nat>)
    requires AllFirstChoices(root, files, placed) && Distinct(placed) && IsOrder(order, |files|)
    ensures AllFirstChoices(root, Reordered(files, order), Reordered(placed, order))
        && Distinct(Reordered(placed, order))
  {
    hide PathFor, Keeps, WantedOf, Rank, Below;
    var there, now := Reordered(files, order), Reordered(placed, order);
    forall k: nat | k < |there| && now[k].Some? ensures now[k].value == FirstChoiceOf(root, there, now, k) {
      BelowReordered(root, files, placed, order, Rank(root, there[k]));
      assert placed[order[k]].value == FirstChoiceOf(root, files, placed, order[k]);
    }
    forall k, l | 0 <= k < l < |now| && now[k].Some? && now[l].Some? ensures now[k] != now[l] {
      assert order[k] != order[l];
    }
  }

  lemma SameInThisOrder(root: string, files: seq<File>, order: seq<nat>)
    requires AllFirstChoices(root, files, Placed(root, files)) && IsOrder(order, |files|)
    ensures Placed(root, Reordered(files, order)) == Reordered(Placed(root, files), order)
  {
    hide Placed, InTurn, Keeps, AllFirstChoices, Distinct;
    var there, now := Reordered(files, order), Reordered(Placed(root, files), order);
    PlacedIsDistinct(root, files);
    FirstChoicesReordered(root, files, Placed(root, files), order);
    FirstChoicesAreInTurn(root, there, now);
    PlacedInTurn(root, there);
    forall i | 0 <= i < |there| ensures Placed(root, there)[i] == now[i] {
      InTurnIsUnique(root, there, Placed(root, there), now, i);
    }
  }

  /** First choices that differ within each rank differ altogether: no file picks what a lower rank took. */
  lemma FirstPicksAreDistinct(root: string, files: seq<File>)
    requires FirstPicksDiffer(root, files)
    ensures Distinct(FirstPicks(root, files))
  {
    hide FirstPicks, Keeps, Rank, WantedOf;
    var picks := FirstPicks(root, files);
    forall i: nat, j: nat | i < j < |picks| && picks[i].Some? && picks[j].Some? ensures picks[i] != picks[j] {
      FirstPicksTake(root, files, Rank(root, files[i]));
      FirstPicksTake(root, files, Rank(root, files[j]));
      if Rank(root, files[i]) < Rank(root, files[j]) {
        assert picks[i].value in TakenBelow(root, files, Rank(root, files[j]));
      } else if Rank(root, files[j]) < Rank(root, files[i]) {
        assert picks[j].value in TakenBelow(root, files, Rank(root, files[i]));
      }
    }
  }

  /** If they differ, the layout hands each file its first choice. */
  lemma FirstPicksArePlaced(root: string, files: seq<File>)
    requires FirstPicksDiffer(root, files)
    ensures AllFirstChoices(root, files, Placed(root, files))
  {
    var picks, placed := FirstPicks(root, files), Placed(root, files);
    hide FirstPicks, Placed, Keeps, Rank, WantedOf, PathFor, Below, InTurn, FirstPicksDiffer;
    forall i: nat | i < |files| && picks[i].Some? ensures picks[i].value == FirstChoiceOf(root, files, picks, i) {
      FirstPicksTake(root, files, Rank(root, files[i]));
    }
    FirstPicksAreDistinct(root, files);
    FirstChoicesAreInTurn(root, files, picks);
    PlacedInTurn(root, files);
    forall i | 0 <= i < |files| ensures placed[i] == picks[i] {
      InTurnIsUnique(root, files, placed, picks, i);
    }
    assert placed == picks;
  }

  lemma DifferingPicksSuffice(root: string, files: seq<File>)
    requires FirstPicksDiffer(root, files)
    ensures OrderDoesNotMatter(root, files)
  {
    hide Placed, FirstPicksDiffer, AllFirstChoices;
    FirstPicksArePlaced(root, files);
    forall order | IsOrder(order, |files|)
      ensures Placed(root, Reordered(files, order)) == Reordered(Placed(root, files), order)
    {
      SameInThisOrder(root, files, order);
    }
  }

  /** The order that puts the file at `i` first and leaves the others as they are */
  function Front(i: nat, n: nat): (order: seq<nat>)
    requires i < n
    ensures |order| == n && forall k | 0 <= k < n :: order[k] == if k == 0 then i else if k <= i then k - 1 else k
  {
    seq(n, k requires 0 <= k < n => if k == 0 then i else if k <= i then k - 1 else k)
  }

  lemma FrontIsOrder(i: nat, n: nat)
    requires i < n
    ensures IsOrder(Front(i, n), n)
  {
    forall j: nat | j < n ensures j in Front(i, n) {
      assert Front(i, n)[if j == i then 0 else if j < i then j + 1 else j] == j;
    }
  }

  /** A file that would get the same path at the front of the list has its first choice. */
  lemma FrontGetsFirstChoice(root: string, files: seq<File>, i: nat)
    requires OrderDoesNotMatter(root, files) && i < |files| && Keeps(root, files[i])
    ensures Placed(root, files)[i].value == FirstChoiceOf(root, files, Placed(root, files), i)
  {
    hide Placed, Keeps, PathFor, WantedOf, Rank, Below, IsOrder;
    var placed, order := Placed(root, files), Front(i, |files|);
    FrontIsOrder(i, |files|);
    var there := Reordered(files, order);
    assert Placed(root, there) == Reordered(placed, order);
    PlacedInTurn(root, there);
    assert there[0] == files[i] && Placed(root, there)[0] == placed[i];
    assert Beside(root, there, Placed(root, there), 0) == {};
    var below := Below(root, files, placed, Rank(root, files[i]));
    BelowReordered(root, files, placed, order, Rank(root, files[i]));
    assert below + {} == below;
  }

  lemma FirstChoiceIsFirstPick(root: string, files: seq<File>, placed: Assignment, i: nat)
    requires AllFirstChoices(root, files, placed) && i < |files| && placed[i].Some?
    ensures placed[i] == Some(FirstPick(root, files, files[i]))
  {
    hide Keeps, Rank, WantedOf, PathFor, Below, TakenBelow;
    FirstChoicesTake(root, files, placed, Rank(root, files[i]));
  }

  /**
   * For every list of files: every file gets the same path in whatever order
   * the files come, exactly when no two kept files of one rank have one first
   * choice, the path each would pick next to the first choices of lower ranks.
   */
  lemma OrderMattersExactly(root: string, files: seq<File>)
    ensures OrderDoesNotMatter(root, files) <==> FirstPicksDiffer(root, files)
  {
    hide Placed, Keeps, OrderDoesNotMatter, FirstChoiceOf, FirstPick, Rank;
    var placed := Placed(root, files);
    if FirstPicksDiffer(root, files) {
      DifferingPicksSuffice(root, files);
    }
    if OrderDoesNotMatter(root, files) {
      PlacedIsDistinct(root, files);
      forall i: nat | i < |files| && placed[i].Some? ensures placed[i].value == FirstChoiceOf(root, files, placed, i) {
        FrontGetsFirstChoice(root, files, i);
      }
      forall i: nat | i < |files| && placed[i].Some? ensures placed[i] == Some(FirstPick(root, files, files[i])) {
        FirstChoiceIsFirstPick(root, files, placed, i);
      }
    }
  }

  lemma {:induction false} NothingTakenBelow(root: string, files: seq<File>, rank: nat)
    requires forall file | file in files :: rank <= Rank(root, file)
    ensures TakenBelow(root, files, rank) == {}
  {
    hide Rank, WantedOf, Keeps, PathFor;
    if rank > 0 { NothingTakenBelow(root, files, rank - 1); }
  }

  /** Of two kept files the order matters exactly if they have one rank and want one path. */
  lemma OrderMattersForTies(root: string, a: File, b: File)
    requires Keeps(root, a) && Keeps(root, b)
    ensures OrderDoesNotMatter(root, [a, b]) <==>
            Rank(root, a) != Rank(root, b) || WantedOf(root, a).Own() != WantedOf(root, b).Own()
  {
    hide Keeps, WantedOf, Rank, OrderDoesNotMatter, Wanted.Own, Wanted.Whole, PathFor, TakenBelow;
    OrderMattersExactly(root, [a, b]);
    if Rank(root, a) == Rank(root, b) {
      NothingTakenBelow(root, [a, b], Rank(root, a));
      PicksInOrder(WantedOf(root, a), {});
      PicksInOrder(WantedOf(root, b), {});
      assert [a, b][0] == a && [a, b][1] == b;
    }
  }

  lemma TestFilesAreScripts(path: string)
    requires IsTestFile(path)
    ensures IsScript(path)
  {}

  /** Such a tie: one test file name in `client/` and in `tests/` */
  lemma TestsOfTwoFoldersTie(rest: string, content: string)
    requires IsTestFile(rest)
    ensures !OrderDoesNotMatter("", [File("client/" + rest, content), File("tests/" + rest, content)])
  {
    hide IsTestFile, IsScript, LeadingFolder, Normalise, OrderDoesNotMatter;
    LeadingFolderOf(Client, rest);
    LeadingFolderOf(Tests, rest);
    assert ("client/" + rest)[7..] == rest && ("tests/" + rest)[6..] == rest;
    TestFilesAreScripts(rest);
    SameKinds("client/", rest);
    SameKinds("tests/", rest);
    OrderMattersForTies("", File("client/" + rest, content), File("tests/" + rest, content));
  }

  /** A script in `client/` whose name a top-level file holds falls back to where one below it belongs. */
  function ThreeScripts(rest: string, content: string): seq<File> {
    [File(rest, content), File("client/" + rest, content), File("client/" + ("client/" + rest), content)]
  }

  lemma WantedBelowClient(rest: string, content: string)
    requires IsScript(rest) && !IsTestFile(rest)
    ensures var file := File("client/" + rest, content);
            && Keeps("", file) && Rank("", file) == 1
            && WantedOf("", file).Own() == "client/" + rest
            && WantedOf("", file).Whole() == "client/" + ("client/" + rest)
  {
    var path := "client/" + rest;
    LeadingFolderOf(Client, rest);
    SameKinds("client/", rest);
    SettledUnder(Client, rest, content);
    assert path[|FolderPrefix(Client)|..] == rest;
    hide IsScript, IsTestFile, LeadingFolder, Normalise, IsData, IsToolConfig, Wanted.Own, FolderPrefix;
    var wanted := WantedAt(path, content);
    assert wanted.target == CLIENT && wanted.folder == Client;
    assert CLIENT + "/" == "client/";
  }

  lemma WantedAtTop(rest: string, content: string)
    requires IsScript(rest) && !IsTestFile(rest) && LeadingFolder(rest) == Top && Normalise("", rest) == rest
    ensures var file := File(rest, content);
            Keeps("", file) && Rank("", file) == 0 && WantedOf("", file).Own() == "client/" + rest
  {
    hide IsScript, IsTestFile, LeadingFolder, Normalise;
    assert rest[0..] == rest;
    assert CLIENT + "/" == "client/";
  }

  lemma PicksInOrder(file: Wanted, taken: set<string>)
    ensures file.Own() !in taken ==> PathFor(file, taken) == file.Own()
    ensures file.Own() in taken && file.Whole() !in taken ==> PathFor(file, taken) == file.Whole()
  {}

  /** Own paths that differ at each rank are not enough: a fallback may contest an own path. */
  lemma FallbackContestsOwnPath(rest: string, content: string)
    requires IsScript(rest) && !IsTestFile(rest) && LeadingFolder(rest) == Top && Normalise("", rest) == rest
    ensures var files := ThreeScripts(rest, content);
            && !OrderDoesNotMatter("", files)
            && forall i, j | 0 <= i < j < 3 && Rank("", files[i]) == Rank("", files[j]) ::
                 WantedOf("", files[i]).Own() != WantedOf("", files[j]).Own()
  {
    hide IsScript, IsTestFile, LeadingFolder, Normalise, Keeps, WantedOf, Rank, OrderDoesNotMatter, Wanted.Own,
      Wanted.Whole;
    WantedAtTop(rest, content);
    WantedBelowClient(rest, content);
    SameKinds("client/", rest);
    WantedBelowClient("client/" + rest, content);
    assert |"client/" + rest| < |"client/" + ("client/" + rest)|;
    var files := ThreeScripts(rest, content);
    hide ThreeScripts;
    SecondAndThirdTie(files, "client/" + rest);
  }

  /** Two files of rank 1 tie if the first one's own path is taken and its fallback is the second one's own path. */
  lemma SecondAndThirdTie(files: seq<File>, own: string)
    requires |files| == 3
    ensures (&& (forall i | 0 <= i < 3 :: Keeps("", files[i]))
             && Rank("", files[0]) == 0 && Rank("", files[1]) == 1 && Rank("", files[2]) == 1
             && WantedOf("", files[0]).Own() == own && WantedOf("", files[1]).Own() == own
             && WantedOf("", files[2]).Own() == WantedOf("", files[1]).Whole() && WantedOf("", files[2]).Own() != own)
            ==> !OrderDoesNotMatter("", files)
  {
    hide Keeps, WantedOf, Rank, OrderDoesNotMatter, Wanted.Own, Wanted.Whole, PathFor;
    OrderMattersExactly("", files);
    PicksInOrder(WantedOf("", files[0]), {});
    PicksInOrder(WantedOf("", files[1]), {own});
    PicksInOrder(WantedOf("", files[2]), {own});
    if (forall i | 0 <= i < 3 :: Keeps("", files[i]))
      && Rank("", files[0]) == 0 && Rank("", files[1]) == 1 && Rank("", files[2]) == 1
      && WantedOf("", files[0]).Own() == own
    {
      assert TakenBelow("", files, 0) == {};
      assert TakenBelow("", files, 1) == {own};
      hide TakenBelow;
      assert FirstPick("", files, files[1]) == PathFor(WantedOf("", files[1]), {own});
      assert FirstPick("", files, files[2]) == PathFor(WantedOf("", files[2]), {own});
    }
  }
}
