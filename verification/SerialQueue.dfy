/** Callbacks run one after another (`executeInOrder` in `client-v2/src/utils/common.ts`). */
module SerialQueue {

  datatype Queue<T> = Queue(
    pushed: seq<T>,      // every argument given so far
    queue: seq<T>,
    executing: bool,
    started: seq<T>,     // arguments the callback was called with, in order
    running: nat,        // calls of the callback that have not settled
    rejected: bool       // one has rejected
  )

  datatype Event<T> = Push(arg: T) | Settle(ok: bool)

  function Init<T>(): Queue<T> {
    Queue([], [], false, [], 0, false)
  }

  /** The head of the loop: the next argument's call, or the end of the loop. */
  function Loop<T>(s: Queue<T>): Queue<T> {
    if s.queue == [] then s.(executing := false)
    else s.(queue := s.queue[1..], started := s.started + [s.queue[0]], running := s.running + 1)
  }

  predicate Enabled<T>(s: Queue<T>, e: Event<T>) {
    e.Settle? ==> s.running > 0
  }

  function Step<T>(s: Queue<T>, e: Event<T>): Queue<T>
    requires Enabled(s, e)
  {
    match e
    case Push(arg) =>
      var t := s.(pushed := s.pushed + [arg], queue := s.queue + [arg]);
      if t.executing then t else Loop(t.(executing := true))
    case Settle(ok) =>
      var t := s.(running := s.running - 1);
      if ok then Loop(t) else t.(rejected := true)
  }

  ghost predicate IsRun<T>(states: seq<Queue<T>>, events: seq<Event<T>>) {
    && |states| == |events| + 1
    && states[0] == Init()
    && (forall k | 0 <= k < |events| :: Enabled(states[k], events[k]))
    && (forall k | 0 <= k < |events| :: states[k + 1] == Step(states[k], events[k]))
  }

  ghost predicate Inv<T>(s: Queue<T>) {
    && s.started + s.queue == s.pushed
    && s.running <= 1
    && (s.rejected ==> s.running == 0)
    && (s.executing <==> s.running == 1 || s.rejected)
    && (!s.executing ==> s.queue == [])
  }

  lemma StepKeeps<T>(s: Queue<T>, e: Event<T>)
    requires Inv(s) && Enabled(s, e)
    ensures Inv(Step(s, e))
  {}

  lemma {:induction false} RunKeeps<T>(states: seq<Queue<T>>, events: seq<Event<T>>, k: nat)
    requires IsRun(states, events) && k < |states|
    ensures Inv(states[k])
  {
    if k > 0 {
      RunKeeps(states, events, k - 1);
      StepKeeps(states[k - 1], events[k - 1]);
    }
  }

  // -- What holds over every run ---------------------------------------------

  /** The arguments of the pushes among the first events. */
  ghost function PushedIn<T>(events: seq<Event<T>>): seq<T> {
    if events == [] then []
    else
      var n := |events| - 1;
      PushedIn(events[..n]) + (if events[n].Push? then [events[n].arg] else [])
  }

  lemma {:induction false} PushesAreKept<T>(states: seq<Queue<T>>, events: seq<Event<T>>, k: nat)
    requires IsRun(states, events) && k < |states|
    ensures states[k].pushed == PushedIn(events[..k])
  {
    if k > 0 {
      PushesAreKept(states, events, k - 1);
      assert events[..k][..k - 1] == events[..k - 1];
    }
  }

  /**
   * The calls made are a prefix of the pushes, in push order and each once, and
   * never two at a time. When no call is under way, they are all of the pushes,
   * unless a callback has rejected.
   */
  lemma RunsInPushOrder<T>(states: seq<Queue<T>>, events: seq<Event<T>>, k: nat)
    requires IsRun(states, events) && k < |states|
    ensures states[k].started <= PushedIn(events[..k])
    ensures states[k].running <= 1
    ensures states[k].running == 0 && !states[k].rejected ==> states[k].started == PushedIn(events[..k])
  {
    RunKeeps(states, events, k);
    PushesAreKept(states, events, k);
    var s := states[k];
    assert s.queue == [] ==> s.started + s.queue == s.started;
  }

  /** After a rejection no argument is ever run again, pushed before it or after. */
  lemma {:induction false} NothingRunsAfterARejection<T>(states: seq<Queue<T>>, events: seq<Event<T>>, i: nat, k: nat)
    requires IsRun(states, events) && i <= k < |states| && states[i].rejected
    ensures states[k].rejected && states[k].started == states[i].started
    decreases k
  {
    if i < k {
      NothingRunsAfterARejection(states, events, i, k - 1);
      RunKeeps(states, events, k - 1);
    }
  }

  /** Once a callback has rejected, every push has run exactly if none was queued behind it and none came after. */
  lemma AllRunExactlyWhen<T>(states: seq<Queue<T>>, events: seq<Event<T>>, i: nat, k: nat)
    requires IsRun(states, events) && i < k < |states|
    requires !states[i].rejected && states[i + 1].rejected
    ensures states[k].started == PushedIn(events[..k])
        <==> states[i].queue == [] && PushedIn(events[..k]) == PushedIn(events[..i])
  {
    NothingRunsAfterARejection(states, events, i + 1, k);
    RunKeeps(states, events, i);
    PushesAreKept(states, events, i);
    var s := states[i];
    assert states[k].started == s.started;
    assert |s.started| + |s.queue| == |s.pushed|;
    PushesGrow(events, i, k);
    assert s.queue == [] ==> s.started == s.pushed;
  }

  lemma {:induction false} PushesGrow<T>(events: seq<Event<T>>, i: nat, k: nat)
    requires i <= k <= |events|
    ensures PushedIn(events[..i]) <= PushedIn(events[..k])
    decreases k
  {
    if i < k {
      PushesGrow(events, i, k - 1);
      assert events[..k][..k - 1] == events[..k - 1];
    }
  }

  /** The calls that settled */
  ghost function SettledIn<T>(events: seq<Event<T>>): nat {
    if events == [] then 0
    else SettledIn(events[..|events| - 1]) + if events[|events| - 1].Settle? then 1 else 0
  }

  lemma StepSettles<T>(s: Queue<T>, e: Event<T>)
    requires Enabled(s, e)
    ensures var t := Step(s, e);
            && t.running - |t.started| == s.running - |s.started| - (if e.Settle? then 1 else 0)
            && (t.rejected <==> s.rejected || e == Settle(false))
  {}

  /** Every call made is under way until it settles. */
  lemma {:induction false} CallsSettle<T>(states: seq<Queue<T>>, events: seq<Event<T>>, k: nat)
    requires IsRun(states, events) && k < |states|
    ensures states[k].running == |states[k].started| - SettledIn(events[..k])
  {
    if k > 0 {
      CallsSettle(states, events, k - 1);
      StepSettles(states[k - 1], events[k - 1]);
      var before := events[..k];
      assert before[..k - 1] == events[..k - 1] && before[k - 1] == events[k - 1];
      hide Step;
    }
  }

  /** A rejection is a call that settled so. */
  lemma {:induction false} RejectedBySettling<T>(states: seq<Queue<T>>, events: seq<Event<T>>, k: nat)
    requires IsRun(states, events) && k < |states|
    ensures states[k].rejected <==> exists j :: 0 <= j < k && events[j] == Settle(false)
  {
    if k > 0 {
      RejectedBySettling(states, events, k - 1);
      StepSettles(states[k - 1], events[k - 1]);
      hide Step;
    }
  }

  /**
   * A push with no call under way is run at once, unless a callback has
   * rejected; so is the next one when a call settles.
   */
  lemma NextIsCalled<T>(states: seq<Queue<T>>, events: seq<Event<T>>, k: nat)
    requires IsRun(states, events) && k < |events|
    ensures var s, t, e := states[k], states[k + 1], events[k];
            && (e.Push? ==> t.started == if s.running == 0 && !s.rejected then s.started + [e.arg] else s.started)
            && (e == Settle(true) ==> t.started == if s.queue == [] then s.started else s.started + [s.queue[0]])
            && (e == Settle(false) ==> t.started == s.started)
  {
    RunKeeps(states, events, k);
  }

  // -- The wrapped callback --------------------------------------------------

  class Executor<T> {
    var queue: seq<T>
    var isExecuting: bool
    ghost var pushed: seq<T>
    ghost var started: seq<T>
    ghost var running: nat
    ghost var rejected: bool

    ghost function State(): Queue<T>
      reads this
    {
      Queue(pushed, queue, isExecuting, started, running, rejected)
    }

    constructor ()
      ensures State() == Init() && Inv(State())
    {
      queue, isExecuting := [], false;
      pushed, started, running, rejected := [], [], 0, false;
    }

    /** The loop of `execute` up to the next await: `called` is the argument the callback is called with. */
    method Continue() returns (called: seq<T>)
      requires isExecuting
      modifies this
      ensures State() == Loop(old(State()))
      ensures called == old(if queue == [] then [] else [queue[0]])
    {
      if |queue| > 0 {
        called := [queue[0]];
        started, running := started + [queue[0]], running + 1;
        queue := queue[1..];
      } else {
        called := [];
        isExecuting := false;
      }
    }

    /** The returned function: push, then `execute` unless it is under way. */
    method Call(arg: T) returns (called: seq<T>)
      requires Inv(State())
      modifies this
      ensures Inv(State()) && State() == Step(old(State()), Push(arg))
      ensures started == old(started) + called
    {
      StepKeeps(State(), Push(arg));
      pushed := pushed + [arg];
      queue := queue + [arg];
      called := [];
      if !isExecuting {
        isExecuting := true;
        called := Continue();
      }
    }

    /** The awaited callback settles. */
    method OnSettled(ok: bool) returns (called: seq<T>)
      requires Inv(State()) && Enabled(State(), Settle(ok))
      modifies this
      ensures Inv(State()) && State() == Step(old(State()), Settle(ok))
      ensures started == old(started) + called
    {
      StepKeeps(State(), Settle(ok));
      running := running - 1;
      called := [];
      if ok {
        called := Continue();
      } else {
        rejected := true;
      }
    }
  }
}
