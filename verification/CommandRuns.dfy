/**
 * The runs in flight of `PgCommandManager` (`client-v2/src/utils/command.ts`):
 * how they start, lock themselves, are stopped and end, in any interleaving.
 */
module CommandRuns {
  import opened Options

  type RunId = nat

  datatype Stoppability = Stoppable | StepLocked | Never

  datatype Run = Run(id: RunId, name: string, stoppability: Stoppability, aborted: bool) {
    /** What a stop looks for */
    predicate CanStop() { stoppability == Stoppable && !aborted }
  }

  /** What a stop prints */
  datatype StopLine = Silent | Interrupted | StepCannotStop | CommandCannotStop(name: string)

  datatype Runs = Runs(
    runs: seq<Run>,          // oldest first
    clocks: set<RunId>,      // runs whose slow-run clock ticks
    started: set<RunId>,
    finished: seq<RunId>     // finish events, oldest first
  )

  datatype Event =
    | Start(id: RunId, name: string, stoppable: bool)
    | Handle(handled: RunId, handlerStoppable: bool)
    | LockStop(locked: RunId)
    | Stop
    | End(ended: RunId, hasResult: bool)

  function Init(): Runs {
    Runs([], {}, {}, [])
  }

  function StoppabilityOf(stoppable: bool): Stoppability {
    if stoppable then Stoppable else Never
  }

  predicate InFlight(s: Runs, id: RunId) {
    exists i :: 0 <= i < |s.runs| && s.runs[i].id == id
  }

  /** A run handles and ends while it is in flight; its `lockStop` may be called at any time. */
  predicate Enabled(s: Runs, e: Event) {
    match e
    case Start(id, _, _) => id !in s.started
    case Handle(id, _) => InFlight(s, id)
    case End(id, _) => InFlight(s, id)
    case _ => true
  }

  function Handling(run: Run, id: RunId, stoppable: bool): Run {
    if run.id == id then run.(stoppability := StoppabilityOf(stoppable)) else run
  }

  function Locking(run: Run, id: RunId): Run {
    if run.id == id && run.stoppability == Stoppable then run.(stoppability := StepLocked) else run
  }

  function Stopping(run: Run): Run {
    if run.CanStop() then run.(aborted := true) else run
  }

  function MapRuns(runs: seq<Run>, f: Run -> Run): (r: seq<Run>)
    ensures |r| == |runs|
    ensures forall i | 0 <= i < |runs| :: r[i] == f(runs[i])
  {
    seq(|runs|, i requires 0 <= i < |runs| => f(runs[i]))
  }

  function Remove(runs: seq<Run>, id: RunId): (r: seq<Run>)
    ensures forall run :: run in r <==> run in runs && run.id != id
  {
    if runs == [] then []
    else
      var n := |runs| - 1;
      assert runs == runs[..n] + [runs[n]];
      Remove(runs[..n], id) + (if runs[n].id == id then [] else [runs[n]])
  }

  function Step(s: Runs, e: Event): Runs
    requires Enabled(s, e)
  {
    match e
    case Start(id, name, stoppable) =>
      s.(runs := s.runs + [Run(id, name, StoppabilityOf(stoppable), false)], started := s.started + {id},
         clocks := if s.runs == [] then s.clocks + {id} else s.clocks)
    case Handle(id, stoppable) => s.(runs := MapRuns(s.runs, (run: Run) => Handling(run, id, stoppable)))
    case LockStop(id) => s.(runs := MapRuns(s.runs, (run: Run) => Locking(run, id)))
    case Stop => s.(runs := MapRuns(s.runs, Stopping))
    case End(id, hasResult) =>
      s.(runs := Remove(s.runs, id), clocks := s.clocks - {id},
         finished := if hasResult then s.finished + [id] else s.finished)
  }

  /** What `stop` returns */
  predicate StopReturns(s: Runs) {
    (exists i :: 0 <= i < |s.runs| && s.runs[i].CanStop()) || exists i :: 0 <= i < |s.runs| && s.runs[i].aborted
  }

  function StopPrints(s: Runs): StopLine {
    if s.runs == [] then Silent
    else if exists i :: 0 <= i < |s.runs| && s.runs[i].CanStop() then Interrupted
    else if exists i :: 0 <= i < |s.runs| && s.runs[i].aborted then Silent
    else if exists i :: 0 <= i < |s.runs| && s.runs[i].stoppability == StepLocked then StepCannotStop
    else CommandCannotStop(s.runs[|s.runs| - 1].name)
  }

  ghost predicate IsRun(states: seq<Runs>, events: seq<Event>) {
    && |states| == |events| + 1
    && states[0] == Init()
    && (forall k | 0 <= k < |events| :: Enabled(states[k], events[k]))
    && (forall k | 0 <= k < |events| :: states[k + 1] == Step(states[k], events[k]))
  }

  // -- What every step keeps -------------------------------------------------

  ghost predicate IdsAreDistinct(runs: seq<Run>) {
    forall i, j | 0 <= i < j < |runs| :: runs[i].id != runs[j].id
  }

  /** The clock, if one ticks, is the oldest run's. */
  ghost predicate OneClock(s: Runs) {
    forall id | id in s.clocks :: s.runs != [] && id == s.runs[0].id
  }

  /** A run finishes once, and only after it left. */
  ghost predicate FinishedOnce(s: Runs) {
    && (forall i | 0 <= i < |s.finished| :: s.finished[i] in s.started && !InFlight(s, s.finished[i]))
    && forall i, j | 0 <= i < j < |s.finished| :: s.finished[i] != s.finished[j]
  }

  ghost predicate Inv(s: Runs) {
    && IdsAreDistinct(s.runs)
    && (forall i | 0 <= i < |s.runs| :: s.runs[i].id in s.started)
    && OneClock(s)
    && FinishedOnce(s)
  }

  lemma {:induction false} RemoveKeeps(runs: seq<Run>, id: RunId)
    requires IdsAreDistinct(runs)
    ensures IdsAreDistinct(Remove(runs, id))
    ensures runs != [] && runs[0].id != id ==> Remove(runs, id) != [] && Remove(runs, id)[0] == runs[0]
  {
    if runs != [] {
      var n := |runs| - 1;
      RemoveKeeps(runs[..n], id);
      var rest := Remove(runs[..n], id);
      assert forall i | 0 <= i < |rest| :: rest[i] in runs[..n];
    }
  }

  lemma MapKeeps(s: Runs, f: Run -> Run)
    requires Inv(s) && forall run :: f(run).id == run.id
    ensures Inv(s.(runs := MapRuns(s.runs, f)))
  {}

  lemma StartKeeps(s: Runs, id: RunId, name: string, stoppable: bool)
    requires Inv(s) && id !in s.started
    ensures Inv(Step(s, Start(id, name, stoppable)))
  {}

  lemma EndKeeps(s: Runs, id: RunId, hasResult: bool)
    requires Inv(s) && InFlight(s, id)
    ensures Inv(Step(s, End(id, hasResult)))
  {
    hide Remove;
    var t := Step(s, End(id, hasResult));
    RemoveKeeps(s.runs, id);
    forall i | 0 <= i < |t.runs| ensures t.runs[i] in s.runs && t.runs[i].id != id {
      assert t.runs[i] in t.runs;
    }
    forall x | InFlight(t, x) ensures InFlight(s, x) && x != id {
      var i :| 0 <= i < |t.runs| && t.runs[i].id == x;
      var j :| 0 <= j < |s.runs| && s.runs[j] == t.runs[i];
    }
  }

  lemma StepKeeps(s: Runs, e: Event)
    requires Inv(s) && Enabled(s, e)
    ensures Inv(Step(s, e))
  {
    hide Inv;
    match e
    case Start(id, name, stoppable) => StartKeeps(s, id, name, stoppable);
    case Handle(id, stoppable) => MapKeeps(s, (run: Run) => Handling(run, id, stoppable));
    case LockStop(id) => MapKeeps(s, (run: Run) => Locking(run, id));
    case Stop => MapKeeps(s, Stopping);
    case End(id, hasResult) => EndKeeps(s, id, hasResult);
  }

  lemma {:induction false} RunKeeps(states: seq<Runs>, events: seq<Event>, k: nat)
    requires IsRun(states, events) && k < |states|
    ensures Inv(states[k])
  {
    if k > 0 {
      RunKeeps(states, events, k - 1);
      StepKeeps(states[k - 1], events[k - 1]);
    }
  }

  // -- The theorems ----------------------------------------------------------

  /** The state of a run in flight */
  ghost predicate Holds(s: Runs, run: Run) {
    exists i :: 0 <= i < |s.runs| && s.runs[i] == run
  }

  /** A run is aborted only by a stop that found it stoppable. */
  lemma {:induction false} AbortedByAStop(states: seq<Runs>, events: seq<Event>, k: nat, run: Run)
    returns (j: nat, found: Run)
    requires IsRun(states, events) && k < |states| && Holds(states[k], run) && run.aborted
    ensures j < k && events[j] == Stop && Holds(states[j], found)
    ensures found.id == run.id && found.stoppability == Stoppable && !found.aborted
  {
    hide IsRun;
    var i :| 0 <= i < |states[k].runs| && states[k].runs[i] == run;
    var before := Before(states, events, k, i);
    if before.aborted {
      j, found := AbortedByAStop(states, events, k - 1, before);
    } else {
      j, found := k - 1, before;
    }
  }

  /** What the run at `i` was a step before; an aborted one was not started just now */
  lemma Before(states: seq<Runs>, events: seq<Event>, k: nat, i: nat) returns (before: Run)
    requires IsRun(states, events) && k < |states| && i < |states[k].runs| && states[k].runs[i].aborted
    ensures k > 0 && Holds(states[k - 1], before) && before.id == states[k].runs[i].id
    ensures !before.aborted ==> events[k - 1] == Stop && before.stoppability == Stoppable
  {
    assert k > 0;
    var s, t := states[k - 1], states[k];
    match events[k - 1]
    case Start(id, name, stoppable) =>
      assert t.runs == s.runs + [Run(id, name, StoppabilityOf(stoppable), false)];
      before := s.runs[i];
    case End(id, _) =>
      before := t.runs[i];
      assert before in t.runs;
      assert before in s.runs;
    case Stop =>
      before := s.runs[i];
    case Handle(_, _) =>
      before := s.runs[i];
    case LockStop(_) =>
      before := s.runs[i];
  }

  ghost predicate SomeAborted(s: Runs) {
    exists i :: 0 <= i < |s.runs| && s.runs[i].aborted
  }

  /** `stop` returns true exactly when some run in flight is aborted afterwards. */
  lemma StopTellsTheTruth(s: Runs)
    ensures StopReturns(s) <==> SomeAborted(Step(s, Stop))
  {}

  /** A second stop right away changes nothing, answers the same and prints no more. */
  lemma SecondStopIsIdle(s: Runs)
    ensures var t := Step(s, Stop);
            && Step(t, Stop) == t
            && (StopReturns(t) <==> StopReturns(s))
            && (StopReturns(s) ==> StopPrints(t) == Silent)
  {}

  /** A stop aborts the runs it finds stoppable, and no other. */
  lemma StopAbortsExactly(s: Runs, i: nat)
    requires i < |s.runs|
    ensures var before, after := s.runs[i], Step(s, Stop).runs[i];
            && (after.aborted <==> before.aborted || before.stoppability == Stoppable)
            && after == before.(aborted := after.aborted)
  {}

  /** At most one slow-run clock ticks, and its owner is the oldest run in flight. */
  lemma AtMostOneClock(states: seq<Runs>, events: seq<Event>, k: nat)
    requires IsRun(states, events) && k < |states|
    ensures |states[k].clocks| <= 1
    ensures forall id | id in states[k].clocks :: states[k].runs != [] && states[k].runs[0].id == id
  {
    RunKeeps(states, events, k);
    var s := states[k];
    if s.clocks != {} {
      var id :| id in s.clocks;
      assert s.clocks == {id};
    }
  }

  /** A started run emits at most one finish event, and none while it is in flight. */
  lemma AtMostOneFinish(states: seq<Runs>, events: seq<Event>, k: nat)
    requires IsRun(states, events) && k < |states|
    ensures forall i, j | 0 <= i < j < |states[k].finished| :: states[k].finished[i] != states[k].finished[j]
    ensures forall i | 0 <= i < |states[k].finished| ::
              states[k].finished[i] in states[k].started && !InFlight(states[k], states[k].finished[i])
  {
    RunKeeps(states, events, k);
  }

  // -- Runs, by the events ---------------------------------------------------

  /** What an event makes of one run, which is nothing while it is not in flight */
  function Tracked(run: Option<Run>, e: Event, id: RunId): Option<Run> {
    match e
    case Start(started, name, stoppable) =>
      if started == id then Some(Run(id, name, if stoppable then Stoppable else Never, false)) else run
    case End(ended, _) => if ended == id then None else run
    case Handle(handled, stoppable) =>
      if handled == id && run.Some?
      then Some(Run(id, run.value.name, if stoppable then Stoppable else Never, run.value.aborted))
      else run
    case LockStop(locked) =>
      if locked == id && run.Some? && run.value.stoppability == Stoppable
      then Some(Run(id, run.value.name, StepLocked, run.value.aborted))
      else run
    case Stop =>
      if run.Some? && run.value.stoppability == Stoppable
      then Some(Run(id, run.value.name, Stoppable, true))
      else run
  }

  /** One run by the events alone */
  ghost function Track(events: seq<Event>, id: RunId): Option<Run> {
    if events == [] then None
    else Tracked(Track(events[..|events| - 1], id), events[|events| - 1], id)
  }

  function Lookup(runs: seq<Run>, id: RunId): (r: Option<Run>)
    ensures r.Some? ==> r.value.id == id && r.value in runs
    ensures r.None? ==> forall run | run in runs :: run.id != id
  {
    if runs == [] then None
    else if runs[|runs| - 1].id == id then Some(runs[|runs| - 1])
    else
      assert runs == runs[..|runs| - 1] + [runs[|runs| - 1]];
      Lookup(runs[..|runs| - 1], id)
  }

  lemma {:induction false} LookupMapped(runs: seq<Run>, f: Run -> Run, id: RunId)
    requires forall run :: f(run).id == run.id
    ensures Lookup(MapRuns(runs, f), id) ==
            if Lookup(runs, id).Some? then Some(f(Lookup(runs, id).value)) else None
  {
    if runs != [] {
      var n := |runs| - 1;
      assert MapRuns(runs, f)[..n] == MapRuns(runs[..n], f);
      LookupMapped(runs[..n], f, id);
    }
  }

  lemma {:induction false} LookupRemoved(runs: seq<Run>, gone: RunId, id: RunId)
    ensures Lookup(Remove(runs, gone), id) == if id == gone then None else Lookup(runs, id)
  {
    if runs != [] {
      var n := |runs| - 1;
      LookupRemoved(runs[..n], gone, id);
      var rest := Remove(runs[..n], gone);
      assert rest + [] == rest && (rest + [runs[n]])[..|rest|] == rest;
    }
  }

  lemma LookupStep(s: Runs, e: Event, id: RunId)
    requires Enabled(s, e)
    ensures Lookup(Step(s, e).runs, id) == Tracked(Lookup(s.runs, id), e, id)
  {
    hide Lookup, MapRuns, Remove;
    match e
    case Start(started, name, stoppable) => LookupAppended(s.runs,
        Run(started, name, StoppabilityOf(stoppable), false), id);
    case End(ended, _) => LookupRemoved(s.runs, ended, id);
    case Handle(handled, stoppable) => LookupMapped(s.runs, (run: Run) => Handling(run, handled, stoppable), id);
    case LockStop(locked) => LookupMapped(s.runs, (run: Run) => Locking(run, locked), id);
    case Stop => LookupMapped(s.runs, Stopping, id);
  }

  lemma LookupAppended(runs: seq<Run>, run: Run, id: RunId)
    ensures Lookup(runs + [run], id) == if run.id == id then Some(run) else Lookup(runs, id)
  {
    assert (runs + [run])[..|runs|] == runs;
  }

  lemma {:induction false} LookupFollows(states: seq<Runs>, events: seq<Event>, k: nat, id: RunId)
    requires IsRun(states, events) && k < |states|
    ensures Lookup(states[k].runs, id) == Track(events[..k], id)
  {
    if k > 0 {
      LookupFollows(states, events, k - 1, id);
      assert events[..k][..k - 1] == events[..k - 1];
      LookupStep(states[k - 1], events[k - 1], id);
    }
  }

  /** Each run in flight is what its own events and the stops made of it, and no other run is in flight. */
  lemma RunsFollowEvents(states: seq<Runs>, events: seq<Event>, k: nat, id: RunId)
    requires IsRun(states, events) && k < |states|
    ensures InFlight(states[k], id) <==> Track(events[..k], id).Some?
    ensures forall run | Holds(states[k], run) && run.id == id :: Track(events[..k], id) == Some(run)
  {
    LookupFollows(states, events, k, id);
    RunKeeps(states, events, k);
    var s := states[k];
    hide Lookup;
    if InFlight(s, id) {
      var i :| 0 <= i < |s.runs| && s.runs[i].id == id;
      assert s.runs[i] in s.runs;
      var found := Lookup(s.runs, id).value;
      var j :| 0 <= j < |s.runs| && s.runs[j] == found;
      assert i == j;
    }
  }

  /** The ids in flight, in the order they started */
  ghost function IdsIn(events: seq<Event>): seq<RunId> {
    if events == [] then []
    else
      var before, e := IdsIn(events[..|events| - 1]), events[|events| - 1];
      if e.Start? then before + [e.id] else if e.End? then Left(before, e.ended) else before
  }

  function Left(ids: seq<RunId>, id: RunId): seq<RunId> {
    if ids == [] then []
    else Left(ids[..|ids| - 1], id) + if ids[|ids| - 1] == id then [] else [ids[|ids| - 1]]
  }

  /** The clocks that tick: one for each run that started with none in flight, until it ends */
  ghost function ClocksIn(events: seq<Event>): set<RunId> {
    if events == [] then {}
    else
      var before, e := ClocksIn(events[..|events| - 1]), events[|events| - 1];
      if e.Start? && IdsIn(events[..|events| - 1]) == [] then before + {e.id}
      else if e.End? then before - {e.ended} else before
  }

  /** The finish events: one for each run that ended with a result */
  ghost function FinishedIn(events: seq<Event>): seq<RunId> {
    if events == [] then []
    else
      var before, e := FinishedIn(events[..|events| - 1]), events[|events| - 1];
      if e.End? && e.hasResult then before + [e.ended] else before
  }

  function Ids(runs: seq<Run>): (ids: seq<RunId>)
    ensures |ids| == |runs| && forall i | 0 <= i < |runs| :: ids[i] == runs[i].id
  {
    seq(|runs|, i requires 0 <= i < |runs| => runs[i].id)
  }

  lemma {:induction false} IdsOfRemoved(runs: seq<Run>, id: RunId)
    ensures Ids(Remove(runs, id)) == Left(Ids(runs), id)
  {
    if runs != [] {
      var n := |runs| - 1;
      IdsOfRemoved(runs[..n], id);
      assert Ids(runs)[..n] == Ids(runs[..n]);
      var rest := Remove(runs[..n], id);
      assert Ids(rest + []) == Ids(rest) + [] && Ids(rest + [runs[n]]) == Ids(rest) + [runs[n].id];
    }
  }

  lemma StepOfAll(s: Runs, e: Event)
    requires Enabled(s, e)
    ensures var t := Step(s, e);
            && Ids(t.runs) == (if e.Start? then Ids(s.runs) + [e.id]
                               else if e.End? then Left(Ids(s.runs), e.ended) else Ids(s.runs))
            && t.clocks == (if e.Start? && Ids(s.runs) == [] then s.clocks + {e.id}
                            else if e.End? then s.clocks - {e.ended} else s.clocks)
            && t.finished == (if e.End? && e.hasResult then s.finished + [e.ended] else s.finished)
  {
    if e.End? { IdsOfRemoved(s.runs, e.ended); }
    hide Remove, Left;
  }

  /** The order of the runs, the clocks and the finish events are those of the events. */
  lemma {:induction false} RunFollowsEvents(states: seq<Runs>, events: seq<Event>, k: nat)
    requires IsRun(states, events) && k < |states|
    ensures Ids(states[k].runs) == IdsIn(events[..k])
    ensures states[k].clocks == ClocksIn(events[..k])
    ensures states[k].finished == FinishedIn(events[..k])
  {
    if k > 0 {
      RunFollowsEvents(states, events, k - 1);
      var s, e, before := states[k - 1], events[k - 1], events[..k];
      assert before[..k - 1] == events[..k - 1] && before[k - 1] == e;
      assert Enabled(s, e) && states[k] == Step(s, e);
      hide Left, Step, IsRun, Ids, Enabled;
      StepOfAll(s, e);
    }
  }

  /** A stop says that it interrupts exactly if it aborts a run that was not aborted. */
  lemma StopSaysInterrupted(s: Runs)
    ensures StopPrints(s) == Interrupted <==> Step(s, Stop).runs != s.runs
  {
    var t := Step(s, Stop);
    if StopPrints(s) == Interrupted {
      var i :| 0 <= i < |s.runs| && s.runs[i].CanStop();
      assert t.runs[i] != s.runs[i];
    } else {
      assert forall i | 0 <= i < |s.runs| :: t.runs[i] == s.runs[i];
    }
  }

  /** It says nothing if none is in flight or one is already stopping, and else why it cannot stop the newest. */
  lemma StopSaysWhy(s: Runs)
    requires Step(s, Stop).runs == s.runs
    ensures StopPrints(s) == Silent <==> s.runs == [] || SomeAborted(s)
    ensures s.runs != [] && !SomeAborted(s) ==>
              StopPrints(s) == if exists i :: 0 <= i < |s.runs| && s.runs[i].stoppability == StepLocked
                               then StepCannotStop else CommandCannotStop(s.runs[|s.runs| - 1].name)
  {
    StopSaysInterrupted(s);
  }

  // -- The manager -----------------------------------------------------------

  /** `Set.delete`, which keeps the order of the others */
  method RemoveRun(runs: seq<Run>, id: RunId) returns (kept: seq<Run>)
    ensures kept == Remove(runs, id)
  {
    kept := [];
    for i := 0 to |runs|
      invariant kept == Remove(runs[..i], id)
    {
      assert runs[..i + 1][..i] == runs[..i];
      if runs[i].id != id { kept := kept + [runs[i]]; }
    }
    assert runs[..|runs|] == runs;
  }

  class Manager {
    var runs: seq<Run>
    ghost var clocks: set<RunId>
    ghost var started: set<RunId>
    ghost var finished: seq<RunId>

    ghost function State(): Runs
      reads this
    {
      Runs(runs, clocks, started, finished)
    }

    constructor ()
      ensures State() == Init() && Inv(State())
    {
      runs, clocks, started, finished := [], {}, {}, [];
    }

    /** `execute` up to the command's handler */
    method StartRun(id: RunId, name: string, stoppable: bool)
      requires Inv(State()) && Enabled(State(), Start(id, name, stoppable))
      modifies this
      ensures Inv(State()) && State() == Step(old(State()), Start(id, name, stoppable))
    {
      hide Inv;
      StartKeeps(State(), id, name, stoppable);
      if |runs| == 0 { clocks := clocks + {id}; }
      runs := runs + [Run(id, name, if stoppable then Stoppable else Never, false)];
      started := started + {id};
    }

    /** The handler's command, a subcommand maybe, decides from here on. */
    method HandleRun(id: RunId, stoppable: bool)
      requires Inv(State()) && Enabled(State(), Handle(id, stoppable))
      modifies this`runs
      ensures Inv(State()) && State() == Step(old(State()), Handle(id, stoppable))
    {
      hide Inv;
      MapKeeps(State(), (run: Run) => Handling(run, id, stoppable));
      var before := runs;
      for i := 0 to |before|
        invariant |runs| == |before|
        invariant forall j | 0 <= j < i :: runs[j] == Handling(before[j], id, stoppable)
        invariant forall j | i <= j < |before| :: runs[j] == before[j]
      {
        if before[i].id == id {
          runs := runs[i := before[i].(stoppability := if stoppable then Stoppable else Never)];
        }
      }
      assert runs == MapRuns(before, (run: Run) => Handling(run, id, stoppable));
    }

    /** The `lockStop` that a handler was given */
    method LockRun(id: RunId)
      requires Inv(State())
      modifies this`runs
      ensures Inv(State()) && State() == Step(old(State()), LockStop(id))
    {
      hide Inv;
      MapKeeps(State(), (run: Run) => Locking(run, id));
      var before := runs;
      for i := 0 to |before|
        invariant |runs| == |before|
        invariant forall j | 0 <= j < i :: runs[j] == Locking(before[j], id)
        invariant forall j | i <= j < |before| :: runs[j] == before[j]
      {
        if before[i].id == id && before[i].stoppability == Stoppable {
          runs := runs[i := before[i].(stoppability := StepLocked)];
        }
      }
      assert runs == MapRuns(before, (run: Run) => Locking(run, id));
    }

    /** The `finally` block of `execute` */
    method EndRun(id: RunId, hasResult: bool)
      requires Inv(State()) && Enabled(State(), End(id, hasResult))
      modifies this
      ensures Inv(State()) && State() == Step(old(State()), End(id, hasResult))
    {
      hide Inv;
      EndKeeps(State(), id, hasResult);
      clocks := clocks - {id};
      runs := RemoveRun(runs, id);
      if hasResult { finished := finished + [id]; }
    }

    /** `PgCommandManager.stop` */
    method StopRuns() returns (stopping: bool, line: StopLine)
      requires Inv(State())
      modifies this`runs
      ensures Inv(State()) && State() == Step(old(State()), Stop)
      ensures stopping == old(StopReturns(State())) && line == old(StopPrints(State()))
    {
      hide Inv;
      MapKeeps(State(), Stopping);
      var before := runs;
      if |before| == 0 {
        assert MapRuns(runs, Stopping) == runs;
        return false, Silent;
      }
      var anyCanStop, anyAborted, anyLocked := false, false, false;
      for i := 0 to |before|
        invariant |runs| == |before|
        invariant forall j | 0 <= j < i :: runs[j] == Stopping(before[j])
        invariant forall j | i <= j < |before| :: runs[j] == before[j]
        invariant anyCanStop <==> exists j :: 0 <= j < i && before[j].CanStop()
        invariant anyAborted <==> exists j :: 0 <= j < i && before[j].aborted
        invariant anyLocked <==> exists j :: 0 <= j < i && before[j].stoppability == StepLocked
      {
        if before[i].CanStop() {
          anyCanStop := true;
          runs := runs[i := before[i].(aborted := true)];
        }
        if before[i].aborted { anyAborted := true; }
        if before[i].stoppability == StepLocked { anyLocked := true; }
      }
      assert runs == MapRuns(before, Stopping);
      stopping := anyCanStop || anyAborted;
      line :=
        if anyCanStop then Interrupted
        else if anyAborted then Silent
        else if anyLocked then StepCannotStop
        else CommandCannotStop(before[|before| - 1].name);
    }
  }
}
