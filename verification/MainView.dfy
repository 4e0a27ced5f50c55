/**
 * How `PgView.setMainPrimary` delivers content to the primary main view
 * (`client-v2/src/utils/view.ts`), as a machine over the steps that the event
 * loop can interleave. A dispatched event is the last thing each step does, so
 * a step that a listener starts is a later step.
 */
module MainView {
  import opened Options
  import opened Sequences

  type ViewId = nat

  /** A call whose wait is over, and whether the answer was no error */
  datatype Settlement = Settlement(call: nat, ok: bool)

  /**
   * A mounted view: the calls whose content it got, oldest first, and the
   * newest call at its mount if it joined another view with no call pending.
   */
  datatype View = View(received: seq<nat>, joined: Option<nat>) {
    function Shown(): Option<nat> {
      if received == [] then None else Some(received[|received| - 1])
    }
  }

  /** What the protocol does, told without its counters and flags */
  datatype Delivery<T> = Delivery(
    contents: seq<T>,           // call `n` carries `contents[n - 1]`
    listening: seq<nat>,        // calls that wait for an answer or a mount
    settled: seq<Settlement>,   // calls to resume, in the order they settled
    rejected: set<nat>,         // calls that an error answered
    delivered: Option<nat>,     // the call that was delivered last
    views: map<ViewId, View>,
    sent: seq<nat>              // the calls whose content `set` events carried
  ) {
    function Newest(): nat { |contents| }

    predicate Quiet() { listening == [] && settled == [] }
  }

  datatype Event<T> =
    | Call(content: T)
    | Answer(error: bool)
    | Mount(mounted: ViewId)
    | Unmount(unmounted: ViewId)
    | Resume

  function Init<T>(): Delivery<T> {
    Delivery([], [], [], {}, None, map[], [])
  }

  /** An `unmount` may come with no view mounted; the counter stays at zero then. */
  predicate Enabled<T>(s: Delivery<T>, e: Event<T>) {
    match e
    case Mount(v) => v !in s.views
    case Unmount(v) => v in s.views || s.views == map[]
    case Resume => s.settled != []
    case _ => true
  }

  function Settle(calls: seq<nat>, ok: bool): (r: seq<Settlement>)
    ensures |r| == |calls|
    ensures forall i | 0 <= i < |calls| :: r[i] == Settlement(calls[i], ok)
  {
    seq(|calls|, i requires 0 <= i < |calls| => Settlement(calls[i], ok))
  }

  /** Every mounted view hears a `set` event. */
  function Broadcast(views: map<ViewId, View>, call: nat): (r: map<ViewId, View>)
    ensures r.Keys == views.Keys
    ensures forall v | v in views :: r[v] == View(views[v].received + [call], views[v].joined)
  {
    map v | v in views :: View(views[v].received + [call], views[v].joined)
  }

  /** A first view that mounts with no call pending gets the content delivered last. */
  predicate Replays<T>(s: Delivery<T>) {
    s.views == map[] && s.Quiet() && s.delivered.Some?
  }

  function MountedView<T>(s: Delivery<T>): View {
    View(
      if Replays(s) then [s.delivered.value] else [],
      if s.views != map[] && s.Quiet() then Some(s.Newest()) else None)
  }

  function Step<T>(s: Delivery<T>, e: Event<T>): Delivery<T>
    requires Enabled(s, e)
  {
    match e
    case Call(content) =>
      s.(contents := s.contents + [content], listening := s.listening + [s.Newest() + 1])
    case Answer(error) =>
      s.(settled := s.settled + Settle(s.listening, !error), listening := [],
         rejected := if error then s.rejected + Elements(s.listening) else s.rejected)
    case Mount(v) =>
      s.(views := s.views[v := MountedView(s)],
         settled := s.settled + Settle(s.listening, true), listening := [],
         sent := if Replays(s) then s.sent + [s.delivered.value] else s.sent)
    case Unmount(v) =>
      s.(views := s.views - {v})
    case Resume =>
      var head, rest := s.settled[0], s.settled[1..];
      if head.ok && head.call == s.Newest() then
        s.(settled := rest, delivered := Some(head.call),
           views := Broadcast(s.views, head.call), sent := s.sent + [head.call])
      else
        s.(settled := rest)
  }

  // -- Runs ------------------------------------------------------------------

  /** `states` are what a run taking `events` goes through. */
  ghost predicate IsRun<T>(states: seq<Delivery<T>>, events: seq<Event<T>>) {
    && |states| == |events| + 1
    && states[0] == Init()
    && (forall k | 0 <= k < |events| :: Enabled(states[k], events[k]))
    && (forall k | 0 <= k < |events| :: states[k + 1] == Step(states[k], events[k]))
  }

  // -- What every step keeps -------------------------------------------------

  /** How many calls have resumed, if the pending calls are the last ones made */
  function Resumed<T>(s: Delivery<T>): int {
    s.Newest() - |s.settled| - |s.listening|
  }

  /** The pending calls, the settled ones first, are the last ones made. */
  ghost predicate PendingIsSuffix<T>(s: Delivery<T>) {
    && 0 <= Resumed(s)
    && (forall i | 0 <= i < |s.settled| :: s.settled[i].call == Resumed(s) + 1 + i)
    && (forall i | 0 <= i < |s.listening| :: s.listening[i] == Resumed(s) + |s.settled| + 1 + i)
  }

  /** Errors are remembered exactly for the calls that settled with one. */
  ghost predicate RejectionsKnown<T>(s: Delivery<T>) {
    && (forall i | 0 <= i < |s.settled| :: s.settled[i].ok <==> s.settled[i].call !in s.rejected)
    && (forall n | n in s.rejected :: n <= s.Newest() - |s.listening|)
  }

  ghost predicate NeverGoesDown(calls: seq<nat>) {
    forall i, j | 0 <= i < j < |calls| :: calls[i] <= calls[j]
  }

  ghost predicate GoesUp(calls: seq<nat>) {
    forall i, j | 0 <= i < j < |calls| :: calls[i] < calls[j]
  }

  /** What was delivered: a resumed call, not rejected, and no older than any sent. */
  ghost predicate DeliveredIsLast<T>(s: Delivery<T>) {
    && (s.delivered.Some? ==> 1 <= s.delivered.value <= Resumed(s) && s.delivered.value !in s.rejected)
    && NeverGoesDown(s.sent)
    && (s.sent != [] ==> s.delivered == Some(s.sent[|s.sent| - 1]))
    && (s.Quiet() && 0 < s.Newest() && s.Newest() !in s.rejected ==> s.delivered == Some(s.Newest()))
  }

  /** A view gets newer content each time, and no rejected call's. */
  ghost predicate ViewIsSound<T>(s: Delivery<T>, view: View) {
    && GoesUp(view.received)
    && (forall i | 0 <= i < |view.received| :: 1 <= view.received[i] <= Resumed(s) && view.received[i] !in s.rejected)
    && (view.joined.Some? ==> view.joined.value <= Resumed(s))
  }

  ghost predicate ViewIsCurrent<T>(s: Delivery<T>, view: View) {
    s.Quiet() && 0 < s.Newest() && s.Newest() !in s.rejected ==>
      (view.Shown() == Some(s.Newest()) <==> view.joined != Some(s.Newest()))
  }

  ghost predicate Inv<T>(s: Delivery<T>) {
    && PendingIsSuffix(s)
    && RejectionsKnown(s)
    && DeliveredIsLast(s)
    && (forall v | v in s.views :: ViewIsSound(s, s.views[v]))
    && (forall v | v in s.views :: ViewIsCurrent(s, s.views[v]))
  }

  lemma CallKeeps<T>(s: Delivery<T>, content: T)
    requires Inv(s)
    ensures Inv(Step(s, Call(content)))
  {}

  lemma AnswerKeeps<T>(s: Delivery<T>, error: bool)
    requires Inv(s)
    ensures Inv(Step(s, Answer(error)))
  {
    var t := Step(s, Answer(error));
    assert Resumed(t) == Resumed(s);
    forall v | v in t.views ensures ViewIsSound(t, t.views[v]) {
      assert ViewIsSound(s, s.views[v]);
    }
    forall v | v in t.views ensures ViewIsCurrent(t, t.views[v]) {
      assert ViewIsCurrent(s, s.views[v]);
    }
  }

  /** Nothing is pending after a mount that found nothing pending. */
  lemma MountKeepsCalls<T>(s: Delivery<T>, v: ViewId)
    requires Inv(s) && Enabled(s, Mount(v))
    ensures var t := Step(s, Mount(v));
            && PendingIsSuffix(t) && RejectionsKnown(t) && DeliveredIsLast(t)
            && Resumed(t) == Resumed(s) && t.rejected == s.rejected && t.delivered == s.delivered
            && (t.Quiet() ==> s.Quiet())
  {
    hide MountedView;
  }

  lemma MountedViewIsCurrent<T>(s: Delivery<T>, t: Delivery<T>)
    requires Inv(s) && Resumed(t) == Resumed(s) && t.rejected == s.rejected && t.Newest() == s.Newest()
    requires t.Quiet() ==> s.Quiet()
    ensures ViewIsSound(t, MountedView(s)) && ViewIsCurrent(t, MountedView(s))
  {}

  lemma MountKeeps<T>(s: Delivery<T>, v: ViewId)
    requires Inv(s) && Enabled(s, Mount(v))
    ensures Inv(Step(s, Mount(v)))
  {
    hide MountedView, PendingIsSuffix, RejectionsKnown, DeliveredIsLast;
    var t := Step(s, Mount(v));
    MountKeepsCalls(s, v);
    MountedViewIsCurrent(s, t);
    forall w | w in t.views ensures ViewIsSound(t, t.views[w]) && ViewIsCurrent(t, t.views[w]) {
      if w != v { assert ViewIsSound(s, s.views[w]) && ViewIsCurrent(s, s.views[w]); }
    }
  }

  lemma UnmountKeeps<T>(s: Delivery<T>, v: ViewId)
    requires Inv(s) && Enabled(s, Unmount(v))
    ensures Inv(Step(s, Unmount(v)))
  {
    var t := Step(s, Unmount(v));
    assert Resumed(t) == Resumed(s);
    forall w | w in t.views ensures ViewIsSound(t, t.views[w]) && ViewIsCurrent(t, t.views[w]) {
      assert ViewIsSound(s, s.views[w]) && ViewIsCurrent(s, s.views[w]);
    }
  }

  lemma ResumeKeepsCalls<T>(s: Delivery<T>)
    requires Inv(s) && Enabled(s, Resume)
    ensures var t := Step(s, Resume);
            && PendingIsSuffix(t) && RejectionsKnown(t) && DeliveredIsLast(t)
            && Resumed(t) == Resumed(s) + 1 == s.settled[0].call
            && (t.Quiet() ==> s.settled[0].call == s.Newest())
  {}

  lemma ResumeKeeps<T>(s: Delivery<T>)
    requires Inv(s) && Enabled(s, Resume)
    ensures Inv(Step(s, Resume))
  {
    hide PendingIsSuffix, DeliveredIsLast;
    var t := Step(s, Resume);
    ResumeKeepsCalls(s);
    forall w | w in t.views ensures ViewIsSound(t, t.views[w]) && ViewIsCurrent(t, t.views[w]) {
      assert ViewIsSound(s, s.views[w]);
    }
  }

  lemma StepKeeps<T>(s: Delivery<T>, e: Event<T>)
    requires Inv(s) && Enabled(s, e)
    ensures Inv(Step(s, e))
  {
    hide Inv, Step;
    match e
    case Call(content) => CallKeeps(s, content);
    case Answer(error) => AnswerKeeps(s, error);
    case Mount(v) => MountKeeps(s, v);
    case Unmount(v) => UnmountKeeps(s, v);
    case Resume => ResumeKeeps(s);
  }

  lemma {:induction false} RunKeeps<T>(states: seq<Delivery<T>>, events: seq<Event<T>>, k: nat)
    requires IsRun(states, events) && k < |states|
    ensures Inv(states[k])
  {
    if k > 0 {
      RunKeeps(states, events, k - 1);
      StepKeeps(states[k - 1], events[k - 1]);
    }
  }

  // -- The theorems ----------------------------------------------------------

  /**
   * In every run, error answers and any number of views included: once no
   * call is pending, a mounted view shows the newest call's content exactly
   * when no error answered that call and the view did not join another one
   * after it.
   */
  lemma ShowsNewest<T>(states: seq<Delivery<T>>, events: seq<Event<T>>, k: nat, v: ViewId)
    requires IsRun(states, events) && k < |states|
    requires states[k].Quiet() && 0 < states[k].Newest() && v in states[k].views
    ensures var s := states[k];
            s.views[v].Shown() == Some(s.Newest()) <==>
            s.Newest() !in s.rejected && s.views[v].joined != Some(s.Newest())
  {
    RunKeeps(states, events, k);
    assert ViewIsSound(states[k], states[k].views[v]) && ViewIsCurrent(states[k], states[k].views[v]);
  }

  lemma {:induction false} NoErrorNoRejection<T>(states: seq<Delivery<T>>, events: seq<Event<T>>, k: nat)
    requires IsRun(states, events) && k < |states|
    requires forall i | 0 <= i < k && events[i].Answer? :: !events[i].error
    ensures states[k].rejected == {}
  {
    if k > 0 { NoErrorNoRejection(states, events, k - 1); }
  }

  lemma {:induction false} AloneNeverJoins<T>(states: seq<Delivery<T>>, events: seq<Event<T>>, k: nat, v: ViewId)
    requires IsRun(states, events) && k < |states|
    requires forall i | 0 <= i <= k :: |states[i].views| <= 1
    requires v in states[k].views
    ensures states[k].views[v].joined == None
  {
    if k > 0 {
      var s, t := states[k - 1], states[k];
      if v in s.views {
        AloneNeverJoins(states, events, k - 1, v);
      } else {
        assert t.views.Keys == s.views.Keys + {v};
        assert |t.views.Keys| == |s.views.Keys| + 1;
      }
    }
  }

  /** With no error and one view at a time, the mounted view shows the newest call's content. */
  lemma OneViewShowsNewest<T>(states: seq<Delivery<T>>, events: seq<Event<T>>, k: nat, v: ViewId)
    requires IsRun(states, events) && k < |states|
    requires forall i | 0 <= i < k && events[i].Answer? :: !events[i].error
    requires forall i | 0 <= i <= k :: |states[i].views| <= 1
    requires states[k].Quiet() && 0 < states[k].Newest() && v in states[k].views
    ensures states[k].views[v].Shown() == Some(states[k].Newest())
  {
    ShowsNewest(states, events, k, v);
    NoErrorNoRejection(states, events, k);
    AloneNeverJoins(states, events, k, v);
  }

  /**
   * The call numbers of `set` events, replays included, never go down, and a
   * view that stays mounted never gets one call's content twice.
   */
  lemma SetEventsNeverGoBack<T>(states: seq<Delivery<T>>, events: seq<Event<T>>, k: nat)
    requires IsRun(states, events) && k < |states|
    ensures NeverGoesDown(states[k].sent)
    ensures forall v | v in states[k].views :: GoesUp(states[k].views[v].received)
  {
    RunKeeps(states, events, k);
    forall v | v in states[k].views ensures GoesUp(states[k].views[v].received) {
      assert ViewIsSound(states[k], states[k].views[v]);
    }
  }

  /**
   * What a view that mounts shows once no call is pending any more: with
   * nothing pending at its mount, the content delivered last if it is the only
   * view, else the newest call's unless an error answered that one.
   */
  function ShownAfterMount<T>(s: Delivery<T>): Option<nat> {
    if s.Quiet() then if s.views == map[] then s.delivered else None
    else if s.Newest() in s.rejected then None
    else Some(s.Newest())
  }

  /** The view `v` since it mounted in `s`: it got nothing yet while calls are still to resume. */
  ghost predicate MountedSince<T>(s: Delivery<T>, t: Delivery<T>, v: ViewId) {
    && v in t.views
    && t.contents == s.contents && t.rejected == s.rejected && t.listening == []
    && (if t.settled == [] then t.views[v].Shown() == ShownAfterMount(s)
        else !s.Quiet() && t.views[v].received == [])
  }

  lemma MountStarts<T>(s: Delivery<T>, v: ViewId)
    requires Inv(s) && Enabled(s, Mount(v))
    ensures MountedSince(s, Step(s, Mount(v)), v)
  {}

  lemma MountGoesOn<T>(s: Delivery<T>, t: Delivery<T>, e: Event<T>, v: ViewId)
    requires Inv(t) && Enabled(t, e) && MountedSince(s, t, v) && !e.Call? && e != Unmount(v)
    ensures MountedSince(s, Step(t, e), v)
  {
    if e.Answer? { assert Elements<nat>([]) == {}; }
    if e.Resume? { ResumeKeepsCalls(t); }
  }

  lemma {:induction false} MountedThrough<T>(states: seq<Delivery<T>>, events: seq<Event<T>>, i: nat, k: nat, v: ViewId)
    requires IsRun(states, events) && i < k < |states| && events[i] == Mount(v)
    requires forall j | i < j < k :: !events[j].Call? && events[j] != Unmount(v)
    ensures MountedSince(states[i], states[k], v)
    decreases k
  {
    hide Inv, MountedSince;
    RunKeeps(states, events, k - 1);
    if i == k - 1 {
      MountStarts(states[i], v);
    } else {
      MountedThrough(states, events, i, k - 1, v);
      MountGoesOn(states[i], states[k - 1], events[k - 1], v);
    }
  }

  /**
   * In every run: a view that stays mounted while no new call is made shows,
   * once no call is pending, exactly what was decided when it mounted. In
   * particular a view that mounts alone after a delivery gets content exactly
   * if nothing is pending then or no error answered the newest call.
   */
  lemma MountedViewShows<T>(states: seq<Delivery<T>>, events: seq<Event<T>>, i: nat, k: nat, v: ViewId)
    requires IsRun(states, events) && i < k < |states| && events[i] == Mount(v)
    requires forall j | i < j < k :: !events[j].Call? && events[j] != Unmount(v)
    requires states[k].Quiet()
    ensures v in states[k].views && states[k].views[v].Shown() == ShownAfterMount(states[i])
    ensures states[i].views == map[] && states[i].delivered.Some? ==>
              (states[k].views[v].Shown().Some? <==> states[i].Quiet() || states[i].Newest() !in states[i].rejected)
  {
    MountedThrough(states, events, i, k, v);
  }

  /** A mounted view gets exactly the `set` events dispatched since it mounted, a replay to itself included. */
  lemma {:induction false} ViewGetsEverySetEvent<T>(states: seq<Delivery<T>>, events: seq<Event<T>>, i: nat, k: nat,
                                                    v: ViewId)
    requires IsRun(states, events) && i < k < |states| && events[i] == Mount(v)
    requires forall j | i < j < k :: events[j] != Unmount(v)
    ensures |states[i].sent| <= |states[k].sent|
    ensures v in states[k].views && states[k].views[v].received == states[k].sent[|states[i].sent|..]
    decreases k
  {
    if i < k - 1 {
      ViewGetsEverySetEvent(states, events, i, k - 1, v);
    }
  }

  // -- What each event does --------------------------------------------------

  /** Every call that listened is settled, in order, after those settled before, and none listens any more. */
  ghost predicate AllSettle<T>(s: Delivery<T>, t: Delivery<T>, ok: bool) {
    && t.listening == []
    && |t.settled| == |s.settled| + |s.listening|
    && t.settled[..|s.settled|] == s.settled
    && forall i | 0 <= i < |s.listening| :: t.settled[|s.settled| + i] == Settlement(s.listening[i], ok)
  }

  /** An answer settles all that listen, as an error or not, and delivers nothing itself. */
  lemma AnswerSettles<T>(states: seq<Delivery<T>>, events: seq<Event<T>>, k: nat)
    requires IsRun(states, events) && k < |events| && events[k].Answer?
    ensures var s, t := states[k], states[k + 1];
            && AllSettle(s, t, !events[k].error)
            && t.views == s.views && t.sent == s.sent && t.delivered == s.delivered
            && (forall call :: call in t.rejected <==> call in s.rejected || (events[k].error && call in s.listening))
  {}

  /** A mount settles all that listen, without an error. */
  lemma MountSettles<T>(states: seq<Delivery<T>>, events: seq<Event<T>>, k: nat)
    requires IsRun(states, events) && k < |events| && events[k].Mount?
    ensures AllSettle(states[k], states[k + 1], true) && states[k + 1].delivered == states[k].delivered
    ensures states[k + 1].rejected == states[k].rejected
  {}

  /** A call listens behind those that listen already, and changes nothing else. */
  lemma CallListens<T>(states: seq<Delivery<T>>, events: seq<Event<T>>, k: nat)
    requires IsRun(states, events) && k < |events| && events[k].Call?
    ensures var s, t := states[k], states[k + 1];
            && t.listening == s.listening + [s.Newest() + 1] && t.settled == s.settled
            && t.views == s.views && t.sent == s.sent && t.delivered == s.delivered && t.rejected == s.rejected
  {}

  /** The oldest settled call resumes; its content goes out exactly if it is the newest and no error answered it. */
  lemma ResumeDelivers<T>(states: seq<Delivery<T>>, events: seq<Event<T>>, k: nat)
    requires IsRun(states, events) && k < |events| && events[k].Resume?
    ensures var s, t := states[k], states[k + 1];
            && s.settled != [] && t.settled == s.settled[1..] && t.listening == s.listening
            && (if s.settled[0].call == |s.contents| && s.settled[0].call !in s.rejected
                then t.sent == s.sent + [s.settled[0].call] && t.delivered == Some(s.settled[0].call)
                else t.sent == s.sent && t.delivered == s.delivered && t.views == s.views)
  {
    RunKeeps(states, events, k);
  }

  // -- Calls and views, by the events ----------------------------------------

  ghost function CallsIn<T>(events: seq<Event<T>>): seq<T> {
    if events == [] then []
    else
      var before, e := CallsIn(events[..|events| - 1]), events[|events| - 1];
      if e.Call? then before + [e.content] else before
  }

  ghost function MountedIn<T>(events: seq<Event<T>>): set<ViewId> {
    if events == [] then {}
    else
      var before, e := MountedIn(events[..|events| - 1]), events[|events| - 1];
      if e.Mount? then before + {e.mounted} else if e.Unmount? then before - {e.unmounted} else before
  }

  /** The calls made and the views mounted are those of the events. */
  lemma {:induction false} RunFollowsEvents<T>(states: seq<Delivery<T>>, events: seq<Event<T>>, k: nat)
    requires IsRun(states, events) && k < |states|
    ensures states[k].contents == CallsIn(events[..k])
    ensures states[k].views.Keys == MountedIn(events[..k])
  {
    if k > 0 {
      RunFollowsEvents(states, events, k - 1);
      assert events[..k][..k - 1] == events[..k - 1];
      ViewsStep(states[k - 1], events[k - 1]);
    }
  }

  lemma ViewsStep<T>(s: Delivery<T>, e: Event<T>)
    requires Enabled(s, e)
    ensures var t := Step(s, e);
            && t.contents == (if e.Call? then s.contents + [e.content] else s.contents)
            && t.views.Keys == (if e.Mount? then s.views.Keys + {e.mounted}
                                else if e.Unmount? then s.views.Keys - {e.unmounted} else s.views.Keys)
  {}

  /** As many resumes as calls are settled leave none settled. */
  lemma {:induction false} ResumesEmpty<T>(states: seq<Delivery<T>>, events: seq<Event<T>>, k: nat, n: nat)
    requires IsRun(states, events) && k + n < |states| && states[k].listening == []
    requires forall i | k <= i < k + n :: events[i].Resume?
    ensures |states[k + n].settled| == |states[k].settled| - n && states[k + n].listening == []
    ensures states[k + n].contents == states[k].contents && states[k + n].rejected == states[k].rejected
    ensures states[k + n].views.Keys == states[k].views.Keys
    ensures forall v | v in states[k].views :: states[k + n].views[v].joined == states[k].views[v].joined
  {
    if n > 0 { ResumesEmpty(states, events, k, n - 1); }
  }

  /**
   * An answer without an error reaches the views: once the settled calls have
   * resumed no call is pending, and a view that was mounted shows the newest call
   * if that waited for the answer.
   */
  lemma AnsweredCallIsShown<T>(states: seq<Delivery<T>>, events: seq<Event<T>>, k: nat, n: nat, v: ViewId)
    requires IsRun(states, events) && k < |events| && events[k] == Answer(false)
    requires n == |states[k].settled| + |states[k].listening| && k + 1 + n < |states|
    requires forall i | k < i < k + 1 + n :: events[i].Resume?
    requires v in states[k].views && states[k].listening != []
    ensures states[k + 1 + n].Quiet()
    ensures v in states[k + 1 + n].views && states[k + 1 + n].views[v].Shown() == Some(states[k].Newest())
  {
    AnswerSettles(states, events, k);
    RunKeeps(states, events, k);
    var s := states[k];
    assert ViewIsSound(s, s.views[v]);
    ResumesEmpty(states, events, k + 1, n);
    ShowsNewest(states, events, k + 1 + n, v);
  }

  /**
   * What an error costs: a call that an error answered, not resumed yet when
   * a view mounts, keeps that view from the content delivered before.
   */
  lemma RejectedCallHidesReplay<T>(s: Delivery<T>, u: ViewId, v: ViewId, content: T)
    requires Inv(s) && s.Quiet() && s.delivered.Some? && s.views.Keys == {u}
    ensures Step(Step(s, Unmount(u)), Mount(v)).views[v].Shown() == s.delivered
    ensures var asked := Step(s, Call(content));
            var left := Step(asked, Unmount(u));
            var failed := Step(left, Answer(true));
            var mounted := Step(failed, Mount(v));
            Enabled(mounted, Resume) && Step(mounted, Resume).Quiet() && Step(mounted, Resume).views[v].Shown() == None
  {
    var left := Step(s, Unmount(u));
    assert left.views.Keys == {};
    var failed := Step(Step(Step(s, Call(content)), Unmount(u)), Answer(true));
    assert failed.views.Keys == {};
    assert failed.settled == [Settlement(s.Newest() + 1, false)];
    var mounted := Step(failed, Mount(v));
    assert mounted.settled == failed.settled;
  }
}
