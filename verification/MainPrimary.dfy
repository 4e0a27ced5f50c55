/**
 * The counters and flags that `PgView` keeps for the primary main view, with
 * the document's listeners, the promise jobs and the mounted views around
 * them. Every method takes one step of `MainView.Delivery`.
 */
module MainPrimary {
  import opened Options
  import opened MainView

  datatype Delivered<T> = Delivered(setEl: T, unmounted: bool)
  datatype Waiter<T> = Waiter(call: nat, setEl: T)
  datatype Job<T> = Job(call: nat, setEl: T, rejected: bool)

  function ContentsOf<T>(contents: seq<T>, calls: seq<nat>): seq<T>
    requires forall i | 0 <= i < |calls| :: 1 <= calls[i] <= |contents|
  {
    seq(|calls|, i requires 0 <= i < |calls| => contents[calls[i] - 1])
  }

  /** A `set` event reaches every mounted view. */
  function DispatchSet<T>(views: map<ViewId, seq<T>>, setEl: T): (r: map<ViewId, seq<T>>)
    ensures r.Keys == views.Keys
    ensures forall v | v in views :: r[v] == views[v] + [setEl]
  {
    map v | v in views :: views[v] + [setEl]
  }

  function JobsOf<T>(waiters: seq<Waiter<T>>, rejected: bool): (r: seq<Job<T>>)
    ensures |r| == |waiters|
    ensures forall i | 0 <= i < |r| :: r[i] == Job(waiters[i].call, waiters[i].setEl, rejected)
  {
    seq(|waiters|, i requires 0 <= i < |waiters| => Job(waiters[i].call, waiters[i].setEl, rejected))
  }

  /** The module's variables and what the page holds around them, as a value */
  datatype Fields<T> = Fields(
    calls: nat,
    waiting: nat,
    mounted: nat,
    delivered: Option<Delivered<T>>,
    listeners: seq<Waiter<T>>,
    jobs: seq<Job<T>>,
    views: map<ViewId, seq<T>>)

  ghost predicate WaitersMatch<T>(listeners: seq<Waiter<T>>, listening: seq<nat>, contents: seq<T>) {
    && |listeners| == |listening|
    && forall i | 0 <= i < |listeners| ::
         && listeners[i].call == listening[i]
         && 1 <= listeners[i].call <= |contents|
         && listeners[i].setEl == contents[listeners[i].call - 1]
  }

  ghost predicate JobsMatch<T>(jobs: seq<Job<T>>, settled: seq<Settlement>, contents: seq<T>) {
    && |jobs| == |settled|
    && forall i | 0 <= i < |jobs| ::
         && Settlement(jobs[i].call, !jobs[i].rejected) == settled[i]
         && 1 <= jobs[i].call <= |contents|
         && jobs[i].setEl == contents[jobs[i].call - 1]
  }

  ghost predicate ViewMatches<T>(got: seq<T>, contents: seq<T>, received: seq<nat>) {
    && (forall i | 0 <= i < |received| :: 1 <= received[i] <= |contents|)
    && got == ContentsOf(contents, received)
  }

  ghost predicate ViewsMatch<T>(views: map<ViewId, seq<T>>, modelViews: map<ViewId, View>, contents: seq<T>) {
    && views.Keys == modelViews.Keys
    && forall v | v in views :: ViewMatches(views[v], contents, modelViews[v].received)
  }

  /** The flag of what was delivered says that no view is mounted. */
  ghost predicate DeliveredMatches<T>(delivered: Option<Delivered<T>>, mounted: nat, call: Option<nat>,
                                      contents: seq<T>) {
    && (delivered.Some? <==> call.Some?)
    && (delivered.Some? ==>
          && 1 <= call.value <= |contents|
          && delivered.value.setEl == contents[call.value - 1]
          && (delivered.value.unmounted <==> mounted == 0))
  }

  ghost predicate Refines<T>(f: Fields<T>, m: Delivery<T>) {
    && f.calls == |m.contents|
    && f.waiting == |f.listeners| + |f.jobs|
    && f.mounted == |f.views|
    && WaitersMatch(f.listeners, m.listening, m.contents)
    && JobsMatch(f.jobs, m.settled, m.contents)
    && ViewsMatch(f.views, m.views, m.contents)
    && DeliveredMatches(f.delivered, f.mounted, m.delivered, m.contents)
  }

  // -- Each step, on values --------------------------------------------------

  lemma CallRefines<T>(f: Fields<T>, m: Delivery<T>, setEl: T)
    requires Refines(f, m)
    ensures Refines(
              f.(calls := f.calls + 1, waiting := f.waiting + 1,
                 listeners := f.listeners + [Waiter(f.calls + 1, setEl)]),
              Step(m, Call(setEl)))
  {}

  /** The waiting calls become jobs, however they settle. */
  lemma SettledMatch<T>(f: Fields<T>, m: Delivery<T>, rejected: bool)
    requires WaitersMatch(f.listeners, m.listening, m.contents) && JobsMatch(f.jobs, m.settled, m.contents)
    ensures JobsMatch(f.jobs + JobsOf(f.listeners, rejected), m.settled + Settle(m.listening, !rejected), m.contents)
  {}

  lemma AnswerRefines<T>(f: Fields<T>, m: Delivery<T>, error: bool)
    requires Refines(f, m)
    ensures Refines(f.(jobs := f.jobs + JobsOf(f.listeners, error), listeners := []), Step(m, Answer(error)))
  {
    hide JobsMatch, ViewsMatch;
    SettledMatch(f, m, error);
  }

  /** The content that a mounting view gets again */
  function Replay<T>(f: Fields<T>): Option<Delivered<T>> {
    if f.delivered.Some? && f.delivered.value.unmounted && f.waiting == 0 then f.delivered else None
  }

  lemma ReplayMatches<T>(f: Fields<T>, m: Delivery<T>)
    requires Refines(f, m)
    ensures Replay(f).Some? <==> Replays(m)
    ensures Replay(f).Some? ==>
              && f.views == map[] && m.delivered.Some? && 1 <= m.delivered.value <= |m.contents|
              && Replay(f).value.setEl == m.contents[m.delivered.value - 1]
  {}

  function MountViews<T>(views: map<ViewId, seq<T>>, v: ViewId, replay: Option<Delivered<T>>): map<ViewId, seq<T>> {
    if replay.Some? then DispatchSet(views[v := []], replay.value.setEl) else views[v := []]
  }

  /** A replay finds no other view mounted, so only the mounting one hears it. */
  lemma MountViewsGet<T>(views: map<ViewId, seq<T>>, v: ViewId, replay: Option<Delivered<T>>)
    requires v !in views && (replay.Some? ==> views == map[])
    ensures MountViews(views, v, replay) == views[v := Got(replay)]
    ensures |MountViews(views, v, replay)| == |views| + 1
  {
    if replay.Some? {
      var after := MountViews(views, v, replay);
      assert after[v] == [replay.value.setEl];
      assert after == map[v := [replay.value.setEl]];
    }
  }

  lemma InsertedViewMatches<T>(views: map<ViewId, seq<T>>, modelViews: map<ViewId, View>, contents: seq<T>,
                               v: ViewId, got: seq<T>, view: View)
    requires ViewsMatch(views, modelViews, contents) && ViewMatches(got, contents, view.received)
    ensures ViewsMatch(views[v := got], modelViews[v := view], contents)
  {}

  /** What a mounting view gets, by the flags and by the protocol. */
  function Got<T>(replay: Option<Delivered<T>>): seq<T> {
    if replay.Some? then [replay.value.setEl] else []
  }

  lemma GotMatches<T>(f: Fields<T>, m: Delivery<T>)
    requires Refines(f, m)
    ensures ViewMatches(Got(Replay(f)), m.contents, MountedView(m).received)
  {
    ReplayMatches(f, m);
    hide Refines, Replay, Replays;
  }

  lemma MountedViewsMatch<T>(f: Fields<T>, m: Delivery<T>, v: ViewId)
    requires Refines(f, m) && v !in f.views
    ensures ViewsMatch(MountViews(f.views, v, Replay(f)), m.views[v := MountedView(m)], m.contents)
    ensures |MountViews(f.views, v, Replay(f))| == f.mounted + 1
  {
    hide ViewMatches, JobsMatch, WaitersMatch, ViewsMatch, DeliveredMatches, Replay, Replays, MountViews, MountedView;
    ReplayMatches(f, m);
    MountViewsGet(f.views, v, Replay(f));
    GotMatches(f, m);
    InsertedViewMatches(f.views, m.views, m.contents, v, Got(Replay(f)), MountedView(m));
  }

  lemma MountRefines<T>(f: Fields<T>, m: Delivery<T>, v: ViewId)
    requires Refines(f, m) && Enabled(m, Mount(v))
    ensures Refines(
              f.(mounted := f.mounted + 1,
                 delivered := if f.delivered.Some? then Some(f.delivered.value.(unmounted := false)) else None,
                 jobs := f.jobs + JobsOf(f.listeners, false), listeners := [],
                 views := MountViews(f.views, v, Replay(f))),
              Step(m, Mount(v)))
  {
    assert v !in f.views;
    hide JobsMatch, ViewsMatch, Replay, MountViews, MountedView;
    MountedViewsMatch(f, m, v);
    SettledMatch(f, m, false);
  }

  lemma UnmountViewsMatch<T>(views: map<ViewId, seq<T>>, modelViews: map<ViewId, View>, contents: seq<T>, v: ViewId)
    requires ViewsMatch(views, modelViews, contents)
    requires v in modelViews || modelViews == map[]
    ensures ViewsMatch(views - {v}, modelViews - {v}, contents)
    ensures |views - {v}| == if |views| == 0 then 0 else |views| - 1
  {}

  lemma UnmountRefines<T>(f: Fields<T>, m: Delivery<T>, v: ViewId)
    requires Refines(f, m) && Enabled(m, Unmount(v))
    ensures var mounted := if f.mounted == 0 then 0 else f.mounted - 1;
            Refines(
              f.(mounted := mounted, views := f.views - {v},
                 delivered := if f.delivered.Some? && mounted == 0 then Some(f.delivered.value.(unmounted := true))
                              else f.delivered),
              Step(m, Unmount(v)))
  {
    hide ViewsMatch, JobsMatch, WaitersMatch;
    UnmountViewsMatch(f.views, m.views, m.contents, v);
  }

  lemma DispatchMatches<T>(views: map<ViewId, seq<T>>, modelViews: map<ViewId, View>, contents: seq<T>, call: nat)
    requires ViewsMatch(views, modelViews, contents) && 1 <= call <= |contents|
    ensures ViewsMatch(DispatchSet(views, contents[call - 1]), Broadcast(modelViews, call), contents)
    ensures |DispatchSet(views, contents[call - 1])| == |views|
  {}

  function ResumeFields<T>(f: Fields<T>): Fields<T>
    requires f.jobs != [] && f.waiting > 0
  {
    var job := f.jobs[0];
    var rest := f.(jobs := f.jobs[1..], waiting := f.waiting - 1);
    if !job.rejected && job.call == f.calls
    then rest.(delivered := Some(Delivered(job.setEl, f.mounted == 0)), views := DispatchSet(f.views, job.setEl))
    else rest
  }

  lemma ResumeRefines<T>(f: Fields<T>, m: Delivery<T>)
    requires Refines(f, m) && Enabled(m, Resume)
    ensures f.jobs != [] && f.waiting > 0 && Refines(ResumeFields(f), Step(m, Resume))
  {
    hide ViewsMatch;
    assert Settlement(f.jobs[0].call, !f.jobs[0].rejected) == m.settled[0];
    DispatchMatches(f.views, m.views, m.contents, f.jobs[0].call);
  }

  class Primary<T(!new)> {
    var mainPrimaryCalls: nat
    var mainPrimaryWaiting: nat
    var mainPrimaryMounted: nat
    var mainPrimaryDelivered: Option<Delivered<T>>

    var listeners: seq<Waiter<T>>
    var jobs: seq<Job<T>>
    var views: map<ViewId, seq<T>>

    ghost var model: Delivery<T>

    ghost function Value(): Fields<T>
      reads this
    {
      Fields(mainPrimaryCalls, mainPrimaryWaiting, mainPrimaryMounted, mainPrimaryDelivered, listeners, jobs, views)
    }

    ghost predicate Valid()
      reads this
    {
      Inv(model) && Refines(Value(), model)
    }

    constructor ()
      ensures Valid() && model == Init()
    {
      mainPrimaryCalls, mainPrimaryWaiting, mainPrimaryMounted := 0, 0, 0;
      mainPrimaryDelivered := None;
      listeners, jobs, views := [], [], map[];
      model := Init();
    }

    /** `setMainPrimary` up to its `await` */
    method SetMainPrimary(setEl: T)
      requires Valid()
      modifies this
      ensures Valid() && model == Step(old(model), Call(setEl))
    {
      hide Inv, Step, Refines;
      CallKeeps(model, setEl);
      CallRefines(Value(), model, setEl);
      mainPrimaryCalls := mainPrimaryCalls + 1;
      mainPrimaryWaiting := mainPrimaryWaiting + 1;
      listeners := listeners + [Waiter(mainPrimaryCalls, setEl)];
      model := Step(model, Call(setEl));
    }

    /** A mounted view's getter answers: every waiting call hears it. */
    method OnAnswer(error: bool)
      requires Valid()
      modifies this
      ensures Valid() && model == Step(old(model), Answer(error))
    {
      hide Inv, Step, Refines;
      AnswerKeeps(model, error);
      AnswerRefines(Value(), model, error);
      jobs := jobs + JobsOf(listeners, error);
      listeners := [];
      model := Step(model, Answer(error));
    }

    /** `announceMainPrimaryMount`, called by a view that listens for `set` */
    method AnnounceMainPrimaryMount(v: ViewId)
      requires Valid() && Enabled(model, Mount(v))
      modifies this
      ensures Valid() && model == Step(old(model), Mount(v))
    {
      hide Inv, Step, Refines, Enabled;
      MountKeeps(model, v);
      MountRefines(Value(), model, v);
      views := views[v := []];
      mainPrimaryMounted := mainPrimaryMounted + 1;
      var replay :=
        if mainPrimaryDelivered.Some? && mainPrimaryDelivered.value.unmounted && mainPrimaryWaiting == 0
        then mainPrimaryDelivered else None;
      if mainPrimaryDelivered.Some? {
        mainPrimaryDelivered := Some(mainPrimaryDelivered.value.(unmounted := false));
      }
      jobs := jobs + JobsOf(listeners, false);
      listeners := [];
      if replay.Some? {
        views := DispatchSet(views, replay.value.setEl);
      }
      model := Step(model, Mount(v));
    }

    /** `announceMainPrimaryUnmount`, called by a view as it stops listening */
    method AnnounceMainPrimaryUnmount(v: ViewId)
      requires Valid() && Enabled(model, Unmount(v))
      modifies this
      ensures Valid() && model == Step(old(model), Unmount(v))
    {
      hide Inv, Step, Refines, Enabled;
      UnmountKeeps(model, v);
      UnmountRefines(Value(), model, v);
      views := views - {v};
      mainPrimaryMounted := if mainPrimaryMounted == 0 then 0 else mainPrimaryMounted - 1;
      if mainPrimaryDelivered.Some? && mainPrimaryMounted == 0 {
        mainPrimaryDelivered := Some(mainPrimaryDelivered.value.(unmounted := true));
      }
      model := Step(model, Unmount(v));
    }

    /** The oldest settled call goes on after its `await`. */
    method ResumeSetMainPrimary()
      requires Valid() && Enabled(model, Resume)
      modifies this
      ensures Valid() && model == Step(old(model), Resume)
    {
      hide Inv, Step, Refines, Enabled;
      ResumeKeeps(model);
      ResumeRefines(Value(), model);
      var job := jobs[0];
      jobs := jobs[1..];
      mainPrimaryWaiting := mainPrimaryWaiting - 1;
      if !job.rejected && job.call == mainPrimaryCalls {
        mainPrimaryDelivered := Some(Delivered(job.setEl, mainPrimaryMounted == 0));
        views := DispatchSet(views, job.setEl);
      }
      model := Step(model, Resume);
    }
  }
}
