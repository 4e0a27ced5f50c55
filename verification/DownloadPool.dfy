/**
 * The download workers of a GitHub import (`_getFileContents` in
 * `client-v2/src/utils/github.ts`): they share an index and a count, and each
 * fills the slots of the entries it claimed.
 */
module DownloadPool {
  import opened Options

  type Path = string
  type Content = string
  datatype File = File(path: Path, content: Content)

  const MaxParallelDownloads := 24

  /** A worker waits for the file it claimed, has none left to claim, or threw on the file it claimed. */
  datatype Worker = Downloading(index: nat) | Done | Failed(lost: nat)

  datatype Pool = Pool(
    items: seq<Path>,
    next: nat,
    loaded: nat,
    files: seq<Option<File>>,
    workers: seq<Worker>,
    reports: seq<nat>          // the `loaded` of every progress report
  )

  /** The file a worker was waiting for arrives, or its download fails. */
  datatype Event = Arrive(worker: nat, ok: bool)

  function ParallelCount(n: nat): (count: nat)
    ensures count <= n && count <= MaxParallelDownloads
  {
    if n < MaxParallelDownloads then n else MaxParallelDownloads
  }

  /** Every worker has been started and has run up to its first await. */
  function Init(items: seq<Path>): Pool {
    var count := ParallelCount(|items|);
    Pool(items, count, 0, seq(|items|, _ => None), seq(count, (i: nat) => Downloading(i)), [0])
  }

  predicate Enabled(s: Pool, e: Event) {
    e.worker < |s.workers| && s.workers[e.worker].Downloading? && s.workers[e.worker].index < |s.files|
    && |s.files| == |s.items|
  }

  /** The head of a worker's loop. */
  function Claim(s: Pool, worker: nat): Pool
    requires worker < |s.workers|
  {
    if s.next < |s.items|
    then s.(next := s.next + 1, workers := s.workers[worker := Downloading(s.next)])
    else s.(workers := s.workers[worker := Done])
  }

  function Step(contentOf: Path -> Content, s: Pool, e: Event): Pool
    requires Enabled(s, e)
  {
    var index := s.workers[e.worker].index;
    if !e.ok then s.(workers := s.workers[e.worker := Failed(index)])
    else
      Claim(s.(files := s.files[index := Some(File(s.items[index], contentOf(s.items[index])))],
               loaded := s.loaded + 1,
               reports := s.reports + [s.loaded + 1]), e.worker)
  }

  ghost predicate IsRun(contentOf: Path -> Content, states: seq<Pool>, events: seq<Event>) {
    && |states| == |events| + 1
    && states[0] == Init(states[0].items)
    && (forall k | 0 <= k < |events| :: Enabled(states[k], events[k]))
    && (forall k | 0 <= k < |events| :: states[k + 1] == Step(contentOf, states[k], events[k]))
  }

  // -- What every step keeps -------------------------------------------------

  function Filled(files: seq<Option<File>>): nat {
    if files == [] then 0
    else Filled(files[..|files| - 1]) + (if files[|files| - 1].Some? then 1 else 0)
  }

  predicate Holds(worker: Worker, index: nat) {
    worker == Downloading(index) || worker == Failed(index)
  }

  predicate Held(workers: seq<Worker>, index: nat) {
    exists w :: 0 <= w < |workers| && Holds(workers[w], index)
  }

  /** A claimed entry is held by one worker or its slot is filled, not both; an entry not yet claimed is neither. */
  ghost predicate Claims(next: nat, files: seq<Option<File>>, workers: seq<Worker>) {
    && next <= |files|
    && (forall i | 0 <= i < |files| :: files[i].Some? <==> i < next && !Held(workers, i))
    && (forall w, index: nat | 0 <= w < |workers| && Holds(workers[w], index) :: index < next)
    && (forall w, v, index: nat | 0 <= w < |workers| && 0 <= v < |workers|
          && Holds(workers[w], index) && Holds(workers[v], index) :: w == v)
    && (forall w | 0 <= w < |workers| && workers[w].Done? :: next == |files|)
  }

  ghost predicate Reported(loaded: nat, reports: seq<nat>) {
    |reports| == loaded + 1 && forall k | 0 <= k < |reports| :: reports[k] == k
  }

  ghost predicate Contents(contentOf: Path -> Content, items: seq<Path>, files: seq<Option<File>>) {
    |files| == |items| && forall i | 0 <= i < |items| && files[i].Some? ::
        files[i] == Some(File(items[i], contentOf(items[i])))
  }

  ghost predicate Inv(contentOf: Path -> Content, s: Pool) {
    && |s.workers| == ParallelCount(|s.items|)
    && Claims(s.next, s.files, s.workers)
    && s.loaded == Filled(s.files)
    && Reported(s.loaded, s.reports)
    && Contents(contentOf, s.items, s.files)
  }

  lemma {:induction false} FilledOne(files: seq<Option<File>>, i: nat, file: File)
    requires i < |files| && files[i].None?
    ensures Filled(files[i := Some(file)]) == Filled(files) + 1
  {
    var n := |files| - 1;
    var changed := files[i := Some(file)];
    if i == n {
      assert changed[..n] == files[..n];
    } else {
      assert changed[..n] == files[..n][i := Some(file)];
      FilledOne(files[..n], i, file);
    }
  }

  lemma {:induction false} FilledNone(files: seq<Option<File>>)
    requires forall i | 0 <= i < |files| :: files[i].None?
    ensures Filled(files) == 0
  {
    if files != [] { FilledNone(files[..|files| - 1]); }
  }

  lemma {:induction false} FilledAll(files: seq<Option<File>>)
    ensures Filled(files) <= |files|
    ensures Filled(files) == |files| <==> forall i | 0 <= i < |files| :: files[i].Some?
  {
    if files != [] {
      var n := |files| - 1;
      FilledAll(files[..n]);
      assert forall i | 0 <= i < n :: files[..n][i] == files[i];
    }
  }

  lemma InitKeeps(contentOf: Path -> Content, items: seq<Path>)
    ensures Inv(contentOf, Init(items))
  {
    var s := Init(items);
    FilledNone(s.files);
    forall i | 0 <= i < s.next ensures Held(s.workers, i) { assert Holds(s.workers[i], i); }
  }

  /** The claims after the worker's slot is filled and it goes back to the head of its loop. */
  lemma ArrivalKeepsClaims(next: nat, files: seq<Option<File>>, workers: seq<Worker>, w: nat, file: File)
    requires Claims(next, files, workers) && w < |workers| && workers[w].Downloading?
    ensures workers[w].index < |files| && files[workers[w].index].None?
    ensures
      var filled := files[workers[w].index := Some(file)];
      if next < |files| then Claims(next + 1, filled, workers[w := Downloading(next)])
      else Claims(next, filled, workers[w := Done])
  {
    var index := workers[w].index;
    assert Holds(workers[w], index);
    assert Held(workers, index);
    var now := workers[w := if next < |files| then Downloading(next) else Done];
    assert Holds(now[w], next) <==> next < |files|;
    forall i: nat | i != index && i != next ensures Held(now, i) <==> Held(workers, i) {
      HeldElsewhere(workers, w, now[w], i);
    }
    assert !Held(now, index);
    assert forall v, i: nat | 0 <= v < |workers| && v != w && Holds(now[v], i) :: Holds(workers[v], i);
  }

  lemma HeldElsewhere(workers: seq<Worker>, w: nat, worker: Worker, i: nat)
    requires w < |workers| && !Holds(workers[w], i) && !Holds(worker, i)
    ensures Held(workers[w := worker], i) <==> Held(workers, i)
  {
    if Held(workers, i) {
      var v :| 0 <= v < |workers| && Holds(workers[v], i);
      assert Holds(workers[w := worker][v], i);
    }
  }

  lemma FailureKeepsClaims(next: nat, files: seq<Option<File>>, workers: seq<Worker>, w: nat)
    requires Claims(next, files, workers) && w < |workers| && workers[w].Downloading?
    ensures Claims(next, files, workers[w := Failed(workers[w].index)])
  {
    var now := workers[w := Failed(workers[w].index)];
    assert forall v, i: nat | 0 <= v < |workers| :: Holds(now[v], i) <==> Holds(workers[v], i);
    forall i: nat ensures Held(now, i) <==> Held(workers, i) {
      if Held(workers, i) {
        var v :| 0 <= v < |workers| && Holds(workers[v], i);
        assert Holds(now[v], i);
      }
    }
  }

  lemma StepKeeps(contentOf: Path -> Content, s: Pool, e: Event)
    requires Inv(contentOf, s) && Enabled(s, e)
    ensures Inv(contentOf, Step(contentOf, s, e))
  {
    hide Claims, Filled;
    var index := s.workers[e.worker].index;
    if e.ok {
      var file := File(s.items[index], contentOf(s.items[index]));
      ArrivalKeepsClaims(s.next, s.files, s.workers, e.worker, file);
      FilledOne(s.files, index, file);
    } else {
      FailureKeepsClaims(s.next, s.files, s.workers, e.worker);
    }
  }

  lemma {:induction false} RunKeeps(contentOf: Path -> Content, states: seq<Pool>, events: seq<Event>, k: nat)
    requires IsRun(contentOf, states, events) && k < |states|
    ensures Inv(contentOf, states[k]) && states[k].items == states[0].items
  {
    hide Inv;
    if k == 0 {
      InitKeeps(contentOf, states[0].items);
    } else {
      RunKeeps(contentOf, states, events, k - 1);
      StepKeeps(contentOf, states[k - 1], events[k - 1]);
    }
  }

  // -- What holds over every run ---------------------------------------------

  /** The reports count 0, 1, 2, ... and the last one is the number of filled slots. */
  lemma ReportsCountFilledSlots(contentOf: Path -> Content, states: seq<Pool>, events: seq<Event>, k: nat)
    requires IsRun(contentOf, states, events) && k < |states|
    ensures states[k].loaded == Filled(states[k].files) <= |states[0].items|
    ensures states[k].reports == seq(states[k].loaded + 1, i => i)
  {
    RunKeeps(contentOf, states, events, k);
    FilledAll(states[k].files);
  }

  /** No entry is downloaded twice: what arrives fills an empty slot, its own, and no other slot changes. */
  lemma ArrivalFillsItsEmptySlot(contentOf: Path -> Content, states: seq<Pool>, events: seq<Event>, k: nat)
    requires IsRun(contentOf, states, events) && k < |events|
    ensures states[k].items == states[0].items
    ensures
      var s, t, index := states[k], states[k + 1], states[k].workers[events[k].worker].index;
      && s.files[index].None?
      && |t.files| == |s.files|
      && (forall i | 0 <= i < |s.files| && i != index :: t.files[i] == s.files[i])
      && (t.files[index].Some? <==> events[k].ok)
      && (events[k].ok ==> t.files[index] == Some(File(states[0].items[index], contentOf(states[0].items[index]))))
  {
    RunKeeps(contentOf, states, events, k);
    var s, e := states[k], events[k];
    hide Filled, Claims;
    ArrivalKeepsClaims(s.next, s.files, s.workers, e.worker, File("", ""));
  }

  /** Each entry claimed so far is in the hands of one worker or its slot is filled. */
  lemma EachEntryHasOneClaim(contentOf: Path -> Content, states: seq<Pool>, events: seq<Event>, k: nat, i: nat)
    requires IsRun(contentOf, states, events) && k < |states| && i < |states[k].files|
    ensures states[k].files[i].None? && i < states[k].next <==> Held(states[k].workers, i)
    ensures forall w, v | 0 <= w < |states[k].workers| && 0 <= v < |states[k].workers|
              && Holds(states[k].workers[w], i) && Holds(states[k].workers[v], i) :: w == v
    ensures states[k].files[i].Some? ==> i < states[k].next
  {
    RunKeeps(contentOf, states, events, k);
  }

  /** When the workers are done and none failed, slot `i` holds the file of entry `i`, for every entry. */
  lemma AllDoneMeansAllFilled(contentOf: Path -> Content, states: seq<Pool>, events: seq<Event>, k: nat)
    requires IsRun(contentOf, states, events) && k < |states|
    requires forall w | 0 <= w < |states[k].workers| :: states[k].workers[w].Done?
    ensures |states[k].files| == |states[0].items| == states[k].loaded
    ensures forall i | 0 <= i < |states[0].items| ::
              states[k].files[i] == Some(File(states[0].items[i], contentOf(states[0].items[i])))
  {
    RunKeeps(contentOf, states, events, k);
    var s := states[k];
    FilledAll(s.files);
    if s.items != [] { assert s.workers[0].Done?; }
    assert forall i: nat :: !Held(s.workers, i);
  }

  /** As long as no download has failed, one is under way exactly until every slot is filled. */
  lemma WorkGoesOn(contentOf: Path -> Content, states: seq<Pool>, events: seq<Event>, k: nat)
    requires IsRun(contentOf, states, events) && k < |states|
    requires forall w | 0 <= w < |states[k].workers| :: !states[k].workers[w].Failed?
    ensures states[k].loaded < |states[0].items| <==>
      exists w :: 0 <= w < |states[k].workers| && states[k].workers[w].Downloading?
  {
    RunKeeps(contentOf, states, events, k);
    var s := states[k];
    FilledAll(s.files);
    if w :| 0 <= w < |s.workers| && s.workers[w].Downloading? {
      assert Holds(s.workers[w], s.workers[w].index) && Held(s.workers, s.workers[w].index);
    } else {
      AllDoneMeansAllFilled(contentOf, states, events, k);
    }
  }

  // -- What each event does --------------------------------------------------

  /** The download starts with up to 24 workers, each on the entry of its number, and reports nothing loaded. */
  lemma StartsAllWorkers(contentOf: Path -> Content, states: seq<Pool>, events: seq<Event>)
    requires IsRun(contentOf, states, events)
    ensures var s, n := states[0], |states[0].items|;
            && |s.workers| == (if n < 24 then n else 24)
            && (forall w | 0 <= w < |s.workers| :: s.workers[w] == Downloading(w))
            && s.next == |s.workers| && s.reports == [0] && s.loaded == 0
            && |s.files| == n && forall i | 0 <= i < n :: s.files[i] == None
  {}

  /**
   * A worker whose file arrived goes on with the next entry, or is done if none is
   * left, and reports one more; one whose download fails stops. The others go on.
   */
  lemma WorkerGoesOn(contentOf: Path -> Content, states: seq<Pool>, events: seq<Event>, k: nat)
    requires IsRun(contentOf, states, events) && k < |events|
    ensures var s, t, w := states[k], states[k + 1], events[k].worker;
            && |t.workers| == |s.workers| && w < |s.workers| && s.workers[w].Downloading?
            && (forall v | 0 <= v < |s.workers| && v != w :: t.workers[v] == s.workers[v])
            && (if !events[k].ok
                then && t.workers[w] == Failed(s.workers[w].index)
                     && t.next == s.next && t.reports == s.reports && t.files == s.files
                else && t.reports == s.reports + [s.loaded + 1]
                     && (if s.next < |states[0].items|
                         then t.workers[w] == Downloading(s.next) && t.next == s.next + 1
                         else t.workers[w] == Done && t.next == s.next))
  {
    RunKeeps(contentOf, states, events, k);
    assert Enabled(states[k], events[k]);
    hide Inv;
  }

  // -- The download ----------------------------------------------------------

  class Download {
    var items: seq<Path>
    var nextIndex: nat
    var loaded: nat
    var files: seq<Option<File>>
    var workers: seq<Worker>
    ghost var reports: seq<nat>

    ghost function State(): Pool
      reads this
    {
      Pool(items, nextIndex, loaded, files, workers, reports)
    }

    /** Start the workers: each claims an entry before the next one starts. */
    constructor (ghost contentOf: Path -> Content, entries: seq<Path>)
      ensures Inv(contentOf, State()) && State() == Init(entries)
    {
      items, loaded, reports := entries, 0, [0];
      files := seq(|entries|, _ => None);
      nextIndex, workers := 0, [];
      new;
      var count := if |entries| < MaxParallelDownloads then |entries| else MaxParallelDownloads;
      while |workers| < count
        invariant nextIndex == |workers| <= count
        invariant items == entries && loaded == 0 && reports == [0] && files == seq(|entries|, _ => None)
        invariant forall i | 0 <= i < |workers| :: workers[i] == Downloading(i)
      {
        workers := workers + [Downloading(nextIndex)];
        nextIndex := nextIndex + 1;
      }
      InitKeeps(contentOf, entries);
      assert workers == Init(entries).workers;
    }

    /** A worker's download settles, and it runs on to its next await. */
    method OnSettled(ghost contentOf: Path -> Content, w: nat, content: Option<Content>)
      requires Inv(contentOf, State()) && Enabled(State(), Arrive(w, content.Some?))
      requires content.Some? ==> content.value == contentOf(items[workers[w].index])
      modifies this
      ensures Inv(contentOf, State()) && State() == Step(contentOf, old(State()), Arrive(w, content.Some?))
    {
      StepKeeps(contentOf, State(), Arrive(w, content.Some?));
      hide Inv;
      var index := workers[w].index;
      match content
      case None =>
        workers := workers[w := Failed(index)];
      case Some(text) =>
        files := files[index := Some(File(items[index], text))];
        loaded := loaded + 1;
        reports := reports + [loaded];
        if nextIndex < |items| {
          workers := workers[w := Downloading(nextIndex)];
          nextIndex := nextIndex + 1;
        } else {
          workers := workers[w := Done];
        }
    }
  }
}
