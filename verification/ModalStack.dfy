/**
 * The stack of open dialogs that `PgView` keeps
 * (`client-v2/src/utils/view.ts`): who waits for which answer, how many hosts
 * show the dialogs, and the timers that close a dialog no host shows.
 */
module ModalStack {
  import opened Options

  type ModalId = nat
  type HostId = nat

  /** How long, in milliseconds, a dialog may wait for a host */
  const MODAL_HOST_WAIT: nat := 5000

  /** A wait armed by `closeIfNoHost`, with the attach count it saw */
  datatype Timer = Timer(id: ModalId, attaches: nat, due: nat)

  /** What a dialog's caller was answered; no data is `null` */
  datatype Answer<D> = Answer(id: ModalId, data: Option<D>)

  datatype Modals<D> = Modals(
    openModals: seq<ModalId>,      // bottom first
    modalAnswers: set<ModalId>,    // whose callers wait
    modalHosts: int,
    hostAttaches: nat,
    attached: set<HostId>,         // hosts that were not disposed of yet
    timers: seq<Timer>,
    now: nat,
    answered: seq<Answer<D>>,      // every answer given, oldest first
    handedOut: set<ModalId>,          // every id handed out
    hostedUntil: Option<nat>       // the last moment that a host was mounted
  )

  datatype Event<D> =
    | Open(newId: ModalId)
    | Close(data: Option<D>, id: ModalId)
    | CloseTop(topData: Option<D>)
    | Attach(host: HostId)
    | Dispose(disposed: HostId)
    | Fire(timer: nat)
    | Tick(ms: nat)

  function Init<D>(): Modals<D> {
    Modals([], {}, 0, 0, {}, [], 0, [], {}, None)
  }

  /** Ids are unique, and a timer fires when its time has come, or later. */
  predicate Enabled<D>(s: Modals<D>, e: Event<D>) {
    match e
    case Open(id) => id !in s.handedOut
    case Attach(host) => host !in s.attached
    case Fire(k) => k < |s.timers| && s.timers[k].due <= s.now
    case _ => true
  }

  /** The other dialogs, in place and in order */
  function Without(ids: seq<ModalId>, id: ModalId): (r: seq<ModalId>)
    ensures forall x :: x in r <==> x in ids && x != id
  {
    if ids == [] then []
    else
      assert ids == [ids[0]] + ids[1..];
      if ids[0] == id then Without(ids[1..], id) else [ids[0]] + Without(ids[1..], id)
  }

  function Arm(ids: seq<ModalId>, attaches: nat, now: nat): (r: seq<Timer>)
    ensures |r| == |ids|
    ensures forall i | 0 <= i < |ids| :: r[i] == Timer(ids[i], attaches, now + MODAL_HOST_WAIT)
  {
    seq(|ids|, i requires 0 <= i < |ids| => Timer(ids[i], attaches, now + MODAL_HOST_WAIT))
  }

  /** `closeModal(data, id)` */
  function Closed<D>(s: Modals<D>, data: Option<D>, id: ModalId): Modals<D> {
    if id !in s.modalAnswers then s
    else
      s.(modalAnswers := s.modalAnswers - {id}, openModals := Without(s.openModals, id),
         answered := s.answered + [Answer(id, data)])
  }

  /** Whether the timer finds its wait still on */
  predicate StillWaits<D>(s: Modals<D>, timer: Timer) {
    !(s.modalHosts > 0 || s.hostAttaches != timer.attaches) && timer.id in s.openModals
  }

  function Step<D>(s: Modals<D>, e: Event<D>): Modals<D>
    requires Enabled(s, e)
  {
    match e
    case Open(id) =>
      s.(openModals := s.openModals + [id], modalAnswers := s.modalAnswers + {id}, handedOut := s.handedOut + {id},
         timers := if s.modalHosts == 0 then s.timers + Arm([id], s.hostAttaches, s.now) else s.timers)
    case Close(data, id) =>
      Closed(s, data, id)
    case CloseTop(data) =>
      if s.openModals == [] then s else Closed(s, data, s.openModals[|s.openModals| - 1])
    case Attach(host) =>
      s.(modalHosts := s.modalHosts + 1, hostAttaches := s.hostAttaches + 1, attached := s.attached + {host},
         hostedUntil := Some(s.now))
    case Dispose(host) =>
      if host !in s.attached then s
      else
        var hosts := s.modalHosts - 1;
        s.(modalHosts := hosts, attached := s.attached - {host},
           timers := if hosts == 0 then s.timers + Arm(s.openModals, s.hostAttaches, s.now) else s.timers)
    case Fire(k) =>
      var timer := s.timers[k];
      var rest := s.(timers := s.timers[..k] + s.timers[k + 1..]);
      if StillWaits(s, timer) then Closed(rest, None, timer.id) else rest
    case Tick(ms) =>
      s.(now := s.now + ms, hostedUntil := if s.modalHosts > 0 then Some(s.now + ms) else s.hostedUntil)
  }

  ghost predicate IsRun<D>(states: seq<Modals<D>>, events: seq<Event<D>>) {
    && |states| == |events| + 1
    && states[0] == Init()
    && (forall k | 0 <= k < |events| :: Enabled(states[k], events[k]))
    && (forall k | 0 <= k < |events| :: states[k + 1] == Step(states[k], events[k]))
  }

  // -- What every step keeps -------------------------------------------------

  ghost predicate NoDuplicates(ids: seq<ModalId>) {
    forall i, j | 0 <= i < j < |ids| :: ids[i] != ids[j]
  }

  /** The open dialogs are those whose callers wait, each once. */
  ghost predicate CallersWait<D>(s: Modals<D>) {
    && NoDuplicates(s.openModals)
    && forall id :: id in s.openModals <==> id in s.modalAnswers
  }

  /** Every dialog opened is either open or answered, and answered once. */
  ghost predicate AnsweredOnce<D>(s: Modals<D>) {
    && s.modalAnswers <= s.handedOut
    && (forall id | id in s.handedOut && id !in s.modalAnswers ::
          exists i :: 0 <= i < |s.answered| && s.answered[i].id == id)
    && (forall i | 0 <= i < |s.answered| :: s.answered[i].id in s.handedOut && s.answered[i].id !in s.modalAnswers)
    && forall i, j | 0 <= i < j < |s.answered| :: s.answered[i].id != s.answered[j].id
  }

  ghost predicate HostsCounted<D>(s: Modals<D>) {
    && s.modalHosts == |s.attached|
    && (s.modalHosts > 0 ==> s.hostedUntil == Some(s.now))
    && (s.hostedUntil.Some? ==> s.hostedUntil.value <= s.now)
  }

  /** A timer of the current attach count was armed after the last host went. */
  ghost predicate TimerIsSound<D>(s: Modals<D>, timer: Timer) {
    && timer.attaches <= s.hostAttaches
    && timer.due <= s.now + MODAL_HOST_WAIT
    && (timer.attaches == s.hostAttaches ==>
          && s.modalHosts == 0
          && (s.hostedUntil.Some? ==> s.hostedUntil.value + MODAL_HOST_WAIT <= timer.due))
  }

  ghost predicate TimersAreSound<D>(s: Modals<D>) {
    forall k | 0 <= k < |s.timers| :: TimerIsSound(s, s.timers[k])
  }

  ghost predicate HasTimer<D>(s: Modals<D>, id: ModalId) {
    exists k :: 0 <= k < |s.timers| && s.timers[k].id == id && s.timers[k].attaches == s.hostAttaches
  }

  ghost predicate NoneIsStranded<D>(s: Modals<D>) {
    s.modalHosts == 0 ==> forall id | id in s.openModals :: HasTimer(s, id)
  }

  ghost predicate Inv<D>(s: Modals<D>) {
    CallersWait(s) && AnsweredOnce(s) && HostsCounted(s) && TimersAreSound(s) && NoneIsStranded(s)
  }

  lemma {:induction false} WithoutKeepsDistinct(ids: seq<ModalId>, id: ModalId)
    requires NoDuplicates(ids)
    ensures NoDuplicates(Without(ids, id))
  {
    if ids != [] {
      WithoutKeepsDistinct(ids[1..], id);
      assert ids[0] !in ids[1..];
    }
  }

  lemma ClosedKeeps<D>(s: Modals<D>, data: Option<D>, id: ModalId)
    requires CallersWait(s) && AnsweredOnce(s)
    ensures CallersWait(Closed(s, data, id)) && AnsweredOnce(Closed(s, data, id))
  {
    var t := Closed(s, data, id);
    if id in s.modalAnswers {
      WithoutKeepsDistinct(s.openModals, id);
      forall x | x in t.handedOut && x !in t.modalAnswers
        ensures exists i :: 0 <= i < |t.answered| && t.answered[i].id == x
      {
        if x == id {
          assert t.answered[|s.answered|].id == x;
        } else {
          var i :| 0 <= i < |s.answered| && s.answered[i].id == x;
          assert t.answered[i].id == x;
        }
      }
    }
  }

  lemma ClosingKeeps<D>(s: Modals<D>, data: Option<D>, id: ModalId)
    requires Inv(s)
    ensures Inv(Closed(s, data, id))
  {
    hide CallersWait, AnsweredOnce;
    var t := Closed(s, data, id);
    ClosedKeeps(s, data, id);
    forall k | 0 <= k < |t.timers| ensures TimerIsSound(t, t.timers[k]) {
      assert TimerIsSound(s, s.timers[k]);
    }
    forall x | t.modalHosts == 0 && x in t.openModals ensures HasTimer(t, x) {
      assert HasTimer(s, x);
    }
  }

  lemma OpenKeeps<D>(s: Modals<D>, id: ModalId)
    requires Inv(s) && Enabled(s, Open(id))
    ensures Inv(Step(s, Open(id)))
  {
    var t := Step(s, Open(id));
    forall k | 0 <= k < |t.timers| ensures TimerIsSound(t, t.timers[k]) {
      if k < |s.timers| { assert TimerIsSound(s, s.timers[k]); }
    }
    forall x | t.modalHosts == 0 && x in t.openModals ensures HasTimer(t, x) {
      if x == id {
        assert t.timers[|s.timers|].id == id;
      } else {
        var k :| 0 <= k < |s.timers| && s.timers[k].id == x && s.timers[k].attaches == s.hostAttaches;
        assert t.timers[k] == s.timers[k];
      }
    }
  }

  lemma AttachKeeps<D>(s: Modals<D>, host: HostId)
    requires Inv(s) && Enabled(s, Attach(host))
    ensures Inv(Step(s, Attach(host)))
  {}

  lemma DisposeKeeps<D>(s: Modals<D>, host: HostId)
    requires Inv(s)
    ensures Inv(Step(s, Dispose(host)))
  {
    if host in s.attached {
      var t := Step(s, Dispose(host));
      assert |s.attached| == |t.attached| + 1;
      forall k | 0 <= k < |t.timers| ensures TimerIsSound(t, t.timers[k]) {
        if k < |s.timers| { assert TimerIsSound(s, s.timers[k]); }
      }
      forall x | t.modalHosts == 0 && x in t.openModals ensures HasTimer(t, x) {
        var i :| 0 <= i < |s.openModals| && s.openModals[i] == x;
        assert t.timers[|s.timers| + i].id == x;
      }
    }
  }

  lemma FireKeepsAnswers<D>(s: Modals<D>, k: nat)
    requires Inv(s) && Enabled(s, Fire(k))
    ensures CallersWait(Step(s, Fire(k))) && AnsweredOnce(Step(s, Fire(k)))
  {
    ClosedKeeps(s.(timers := s.timers[..k] + s.timers[k + 1..]), None, s.timers[k].id);
  }

  lemma FireKeepsTimers<D>(s: Modals<D>, k: nat)
    requires TimersAreSound(s) && Enabled(s, Fire(k))
    ensures TimersAreSound(Step(s, Fire(k)))
  {}

  /** A timer that is over leaves no dialog without one. */
  lemma FireStrandsNone<D>(s: Modals<D>, k: nat)
    requires CallersWait(s) && NoneIsStranded(s) && Enabled(s, Fire(k))
    ensures NoneIsStranded(Step(s, Fire(k)))
  {
    var t := Step(s, Fire(k));
    forall x | t.modalHosts == 0 && x in t.openModals ensures HasTimer(t, x) {
      var j :| 0 <= j < |s.timers| && s.timers[j].id == x && s.timers[j].attaches == s.hostAttaches;
      assert t.timers[if j < k then j else j - 1] == s.timers[j];
    }
  }

  lemma FireKeeps<D>(s: Modals<D>, k: nat)
    requires Inv(s) && Enabled(s, Fire(k))
    ensures Inv(Step(s, Fire(k)))
  {
    hide CallersWait, AnsweredOnce, TimersAreSound, NoneIsStranded;
    FireKeepsAnswers(s, k);
    FireKeepsTimers(s, k);
    FireStrandsNone(s, k);
  }

  lemma TickKeeps<D>(s: Modals<D>, ms: nat)
    requires Inv(s)
    ensures Inv(Step(s, Tick(ms)))
  {}

  lemma StepKeeps<D>(s: Modals<D>, e: Event<D>)
    requires Inv(s) && Enabled(s, e)
    ensures Inv(Step(s, e))
  {
    hide Inv, Closed;
    match e
    case Open(id) => OpenKeeps(s, id);
    case Close(data, id) => ClosingKeeps(s, data, id);
    case CloseTop(data) => if s.openModals != [] { ClosingKeeps(s, data, s.openModals[|s.openModals| - 1]); }
    case Attach(host) => AttachKeeps(s, host);
    case Dispose(host) => DisposeKeeps(s, host);
    case Fire(k) => FireKeeps(s, k);
    case Tick(ms) => TickKeeps(s, ms);
  }

  lemma {:induction false} RunKeeps<D>(states: seq<Modals<D>>, events: seq<Event<D>>, k: nat)
    requires IsRun(states, events) && k < |states|
    ensures Inv(states[k])
  {
    if k > 0 {
      RunKeeps(states, events, k - 1);
      StepKeeps(states[k - 1], events[k - 1]);
    }
  }

  // -- The theorems ----------------------------------------------------------

  /** A timer that still waits stays armed until it fires, a host comes or its dialog closes. */
  lemma TimerStays<D>(s: Modals<D>, e: Event<D>, timer: Timer)
    requires Inv(s) && Enabled(s, e) && !e.Attach?
    requires timer in s.timers && StillWaits(s, timer) && timer.id in Step(s, e).openModals
    ensures timer in Step(s, e).timers && StillWaits(Step(s, e), timer)
  {
    hide AnsweredOnce, TimersAreSound, NoneIsStranded, NoDuplicates;
    var k :| 0 <= k < |s.timers| && s.timers[k] == timer;
    if e.Fire? {
      var rest := s.timers[..e.timer] + s.timers[e.timer + 1..];
      assert e.timer != k;
      assert rest[if k < e.timer then k else k - 1] == timer;
    }
  }

  lemma {:induction false} TimerStaysArmed<D>(states: seq<Modals<D>>, events: seq<Event<D>>, n: nat, m: nat,
                                              timer: Timer)
    requires IsRun(states, events) && n <= m < |states|
    requires timer in states[n].timers && StillWaits(states[n], timer)
    requires forall i | n <= i < m :: !events[i].Attach?
    requires timer.id in states[m].openModals
    ensures timer in states[m].timers && StillWaits(states[m], timer)
    decreases m
  {
    hide Inv;
    if n < m {
      RunKeeps(states, events, m - 1);
      StaysOpenUntil(states, events, n, m, timer.id);
      TimerStaysArmed(states, events, n, m - 1, timer);
      TimerStays(states[m - 1], events[m - 1], timer);
    }
  }

  /** A dialog that was open and is open was open in between. */
  lemma StaysOpenUntil<D>(states: seq<Modals<D>>, events: seq<Event<D>>, n: nat, m: nat, id: ModalId)
    requires IsRun(states, events) && n < m < |states|
    requires id in states[n].openModals && id in states[m].openModals
    ensures id in states[m - 1].openModals
  {
    hide TimersAreSound, NoneIsStranded, NoDuplicates;
    RunKeeps(states, events, n);
    HandedOutGrows(states, events, n, m - 1, id);
    assert Enabled(states[m - 1], events[m - 1]);
  }

  lemma {:induction false} HandedOutGrows<D>(states: seq<Modals<D>>, events: seq<Event<D>>, n: nat, m: nat, id: ModalId)
    requires IsRun(states, events) && n <= m < |states| && id in states[n].handedOut
    ensures id in states[m].handedOut
    decreases m
  {
    if n < m { HandedOutGrows(states, events, n, m - 1, id); }
  }

  /**
   * No dialog is stranded: one that is open with no host mounted has a timer,
   * due within the wait. However the run goes on, as long as no host comes and
   * the dialog stays open, that timer stays armed; it may fire once the wait is
   * over, and whenever it fires it closes the dialog and answers its caller.
   */
  lemma NoModalIsStranded<D>(states: seq<Modals<D>>, events: seq<Event<D>>, n: nat, m: nat, id: ModalId)
    returns (k: nat)
    requires IsRun(states, events) && n <= m < |states|
    requires states[n].modalHosts == 0 && id in states[n].openModals
    requires (forall i | n <= i < m :: !events[i].Attach?) && id in states[m].openModals
    ensures var s, t := states[n], states[m];
            && k < |t.timers| && t.timers[k].id == id && t.timers[k].due <= s.now + MODAL_HOST_WAIT
            && StillWaits(t, t.timers[k])
            && (s.now + MODAL_HOST_WAIT <= t.now ==> Enabled(t, Fire(k)))
            && (Enabled(t, Fire(k)) ==>
                  && id !in Step(t, Fire(k)).openModals
                  && Step(t, Fire(k)).answered == t.answered + [Answer(id, None)])
  {
    hide AnsweredOnce, NoDuplicates;
    RunKeeps(states, events, n);
    RunKeeps(states, events, m);
    var s, t := states[n], states[m];
    assert HasTimer(s, id);
    var j :| 0 <= j < |s.timers| && s.timers[j].id == id && s.timers[j].attaches == s.hostAttaches;
    assert TimerIsSound(s, s.timers[j]);
    TimerStaysArmed(states, events, n, m, s.timers[j]);
    k :| 0 <= k < |t.timers| && t.timers[k] == s.timers[j];
  }

  lemma {:induction false} HostsWereSeen<D>(states: seq<Modals<D>>, events: seq<Event<D>>, i: nat, n: nat)
    requires IsRun(states, events) && i <= n < |states| && states[i].modalHosts > 0
    ensures states[n].hostedUntil.Some? && states[i].now <= states[n].hostedUntil.value
  {
    RunKeeps(states, events, n);
    if i < n {
      HostsWereSeen(states, events, i, n - 1);
      RunKeeps(states, events, n - 1);
    }
  }

  /**
   * No dialog is closed early: when a timer closes one, no host was mounted
   * at any moment of the whole wait before it.
   */
  lemma NoModalIsClosedEarly<D>(states: seq<Modals<D>>, events: seq<Event<D>>, n: nat, i: nat)
    requires IsRun(states, events) && n < |events| && events[n].Fire?
    requires states[n + 1].openModals != states[n].openModals
    requires i <= n && states[i].now + MODAL_HOST_WAIT > states[n].now
    ensures states[i].modalHosts == 0
  {
    RunKeeps(states, events, n);
    RunKeeps(states, events, i);
    var s := states[n];
    assert TimerIsSound(s, s.timers[events[n].timer]);
    if states[i].modalHosts > 0 { HostsWereSeen(states, events, i, n); }
  }

  /** The attach count alone tells a timer that its wait is over. */
  lemma AttachCountSuffices<D>(states: seq<Modals<D>>, events: seq<Event<D>>, n: nat, k: nat)
    requires IsRun(states, events) && n < |states| && k < |states[n].timers|
    ensures states[n].timers[k].attaches == states[n].hostAttaches ==> states[n].modalHosts == 0
  {
    RunKeeps(states, events, n);
    assert TimerIsSound(states[n], states[n].timers[k]);
  }

  /** The open dialogs are distinct, and exactly those whose callers wait. */
  lemma OpenModalsAwaitAnswers<D>(states: seq<Modals<D>>, events: seq<Event<D>>, n: nat)
    requires IsRun(states, events) && n < |states|
    ensures NoDuplicates(states[n].openModals)
    ensures forall id :: id in states[n].openModals <==> id in states[n].modalAnswers
    ensures forall i, j | 0 <= i < j < |states[n].answered| :: states[n].answered[i].id != states[n].answered[j].id
    ensures forall id | id in states[n].handedOut ::
              id in states[n].modalAnswers <==>
              forall i | 0 <= i < |states[n].answered| :: states[n].answered[i].id != id
  {
    RunKeeps(states, events, n);
  }

  lemma {:induction false} WithoutOne(ids: seq<ModalId>, i: nat)
    requires NoDuplicates(ids) && i < |ids|
    ensures Without(ids, ids[i]) == ids[..i] + ids[i + 1..]
  {
    if i == 0 {
      WithoutAbsent(ids[1..], ids[0]);
    } else {
      WithoutOne(ids[1..], i - 1);
      assert ids[1..][..i - 1] == ids[1..i];
      assert ids[..i] == [ids[0]] + ids[1..i];
    }
  }

  lemma {:induction false} WithoutAbsent(ids: seq<ModalId>, id: ModalId)
    requires id !in ids
    ensures Without(ids, id) == ids
  {
    if ids != [] { WithoutAbsent(ids[1..], id); }
  }

  /** The id and data of a close that the event can make */
  ghost predicate Closes<D>(s: Modals<D>, e: Event<D>, answer: Answer<D>) {
    match e
    case Close(data, id) => answer == Answer(id, data)
    case CloseTop(data) => s.openModals != [] && answer == Answer(s.openModals[|s.openModals| - 1], data)
    case Fire(k) => k < |s.timers| && answer == Answer(s.timers[k].id, None)
    case _ => false
  }

  /**
   * A step answers at most one caller, only by a close that names its dialog,
   * and takes that dialog alone out of the stack.
   */
  lemma StepAnswersItsOwn<D>(states: seq<Modals<D>>, events: seq<Event<D>>, n: nat) returns (i: nat)
    requires IsRun(states, events) && n < |events| && states[n + 1].answered != states[n].answered
    ensures var s, t := states[n], states[n + 1];
            && |t.answered| == |s.answered| + 1 && t.answered[..|s.answered|] == s.answered
            && Closes(s, events[n], t.answered[|s.answered|])
            && i < |s.openModals| && s.openModals[i] == t.answered[|s.answered|].id
            && t.openModals == s.openModals[..i] + s.openModals[i + 1..]
  {
    RunKeeps(states, events, n);
    var s, t := states[n], states[n + 1];
    var id := t.answered[|s.answered|].id;
    assert id in s.openModals;
    i :| 0 <= i < |s.openModals| && s.openModals[i] == id;
    WithoutOne(s.openModals, i);
  }

  // -- What each event does --------------------------------------------------

  /** `t` is `s` with the dialog at `i` closed: it alone is gone, and its caller alone was answered. */
  ghost predicate IsClosedAt<D>(s: Modals<D>, t: Modals<D>, i: nat, data: Option<D>)
    requires i < |s.openModals|
  {
    && t.openModals == s.openModals[..i] + s.openModals[i + 1..]
    && t.modalAnswers == s.modalAnswers - {s.openModals[i]}
    && t.answered == s.answered + [Answer(s.openModals[i], data)]
    && t.handedOut == s.handedOut
  }

  ghost predicate SameDialogs<D>(s: Modals<D>, t: Modals<D>) {
    && t.openModals == s.openModals && t.modalAnswers == s.modalAnswers
    && t.answered == s.answered && t.handedOut == s.handedOut
  }

  ghost predicate SameHosts<D>(s: Modals<D>, t: Modals<D>) {
    && t.modalHosts == s.modalHosts && t.hostAttaches == s.hostAttaches && t.attached == s.attached
    && t.now == s.now
  }

  /** Opening puts the dialog on top and its caller among those that wait; it arms a timer exactly with no host. */
  lemma OpenOpens<D>(states: seq<Modals<D>>, events: seq<Event<D>>, n: nat)
    requires IsRun(states, events) && n < |events| && events[n].Open?
    ensures var s, t, id := states[n], states[n + 1], events[n].newId;
            && id !in s.openModals
            && t.openModals == s.openModals + [id]
            && t.modalAnswers == s.modalAnswers + {id}
            && t.answered == s.answered
            && SameHosts(s, t)
            && t.timers == if s.attached == {} then s.timers + [Timer(id, s.hostAttaches, s.now + 5000)] else s.timers
  {
    RunKeeps(states, events, n);
  }

  lemma ClosedIsClosedAt<D>(s: Modals<D>, data: Option<D>, i: nat)
    requires CallersWait(s) && i < |s.openModals|
    ensures IsClosedAt(s, Closed(s, data, s.openModals[i]), i, data)
  {
    WithoutOne(s.openModals, i);
  }

  /** Closing an open dialog closes it and answers its caller with the data; closing any other id changes nothing. */
  lemma CloseCloses<D>(states: seq<Modals<D>>, events: seq<Event<D>>, n: nat)
    requires IsRun(states, events) && n < |events| && events[n].Close?
    ensures var s, t, id := states[n], states[n + 1], events[n].id;
            && (id !in s.openModals ==> t == s)
            && (forall i | 0 <= i < |s.openModals| && s.openModals[i] == id :: IsClosedAt(s, t, i, events[n].data))
            && SameHosts(s, t) && t.timers == s.timers
  {
    RunKeeps(states, events, n);
    var s, id := states[n], events[n].id;
    forall i | 0 <= i < |s.openModals|
        && s.openModals[i] == id ensures IsClosedAt(s, states[n + 1], i, events[n].data) {
      ClosedIsClosedAt(s, events[n].data, i);
    }
  }

  /** Closing the top closes the dialog opened last of those open, and with none open changes nothing. */
  lemma CloseTopCloses<D>(states: seq<Modals<D>>, events: seq<Event<D>>, n: nat)
    requires IsRun(states, events) && n < |events| && events[n].CloseTop?
    ensures var s, t := states[n], states[n + 1];
            && (s.openModals == [] ==> t == s)
            && (s.openModals != [] ==> IsClosedAt(s, t, |s.openModals| - 1, events[n].topData))
            && SameHosts(s, t) && t.timers == s.timers
  {
    RunKeeps(states, events, n);
    var s := states[n];
    if s.openModals != [] { ClosedIsClosedAt(s, events[n].topData, |s.openModals| - 1); }
  }

  /**
   * A timer goes when it fires, and closes its dialog, unanswered, exactly if
   * that is open, unhosted since it was armed.
   */
  lemma FireCloses<D>(states: seq<Modals<D>>, events: seq<Event<D>>, n: nat)
    requires IsRun(states, events) && n < |events| && events[n].Fire?
    ensures var s, t, k := states[n], states[n + 1], events[n].timer;
            && k < |s.timers| && s.timers[k].due <= s.now
            && t.timers == s.timers[..k] + s.timers[k + 1..]
            && SameHosts(s, t)
            && (if s.attached == {} && s.hostAttaches == s.timers[k].attaches && s.timers[k].id in s.openModals
                then exists i ::
                    0 <= i < |s.openModals| && s.openModals[i] == s.timers[k].id && IsClosedAt(s, t, i, None)
                else SameDialogs(s, t))
  {
    RunKeeps(states, events, n);
    var s, k := states[n], events[n].timer;
    assert Enabled(s, events[n]);
    if StillWaits(s, s.timers[k]) {
      var i :| 0 <= i < |s.openModals| && s.openModals[i] == s.timers[k].id;
      ClosedIsClosedAt(s.(timers := s.timers[..k] + s.timers[k + 1..]), None, i);
      assert IsClosedAt(s, states[n + 1], i, None);
    }
  }

  /** A host that goes for the first time arms, if it is the last, one timer for each open dialog, in order. */
  lemma DisposeArms<D>(states: seq<Modals<D>>, events: seq<Event<D>>, n: nat)
    requires IsRun(states, events) && n < |events| && events[n].Dispose?
    ensures var s, t, host := states[n], states[n + 1], events[n].disposed;
            && SameDialogs(s, t) && t.now == s.now
            && (s.attached != {host} ==> t.timers == s.timers)
            && (s.attached == {host} ==>
                  && |t.timers| == |s.timers| + |s.openModals| && t.timers[..|s.timers|] == s.timers
                  && forall i | 0 <= i < |s.openModals| ::
                       t.timers[|s.timers| + i] == Timer(s.openModals[i], s.hostAttaches, s.now + 5000))
  {
    RunKeeps(states, events, n);
    var s, t, host := states[n], states[n + 1], events[n].disposed;
    if host in s.attached {
      assert s.attached == (s.attached - {host}) + {host};
      assert |s.attached| == |s.attached - {host}| + 1;
    }
  }

  // -- Hosts and time, by the events -----------------------------------------

  /** The hosts that came and did not go yet */
  ghost function Mounted<D>(events: seq<Event<D>>): set<HostId> {
    if events == [] then {}
    else
      var before, e := Mounted(events[..|events| - 1]), events[|events| - 1];
      if e.Attach? then before + {e.host} else if e.Dispose? then before - {e.disposed} else before
  }

  ghost function Attaches<D>(events: seq<Event<D>>): nat {
    if events == [] then 0
    else Attaches(events[..|events| - 1]) + if events[|events| - 1].Attach? then 1 else 0
  }

  /** The time that went by */
  ghost function Elapsed<D>(events: seq<Event<D>>): nat {
    if events == [] then 0
    else Elapsed(events[..|events| - 1]) + if events[|events| - 1].Tick? then events[|events| - 1].ms else 0
  }

  /** The counters are what the events make them: the hosts mounted now, all that ever came, and the time. */
  lemma {:induction false} CountersFollowEvents<D>(states: seq<Modals<D>>, events: seq<Event<D>>, n: nat)
    requires IsRun(states, events) && n < |states|
    ensures states[n].attached == Mounted(events[..n])
    ensures states[n].modalHosts == |Mounted(events[..n])|
    ensures states[n].hostAttaches == Attaches(events[..n])
    ensures states[n].now == Elapsed(events[..n])
  {
    RunKeeps(states, events, n);
    if n > 0 {
      CountersFollowEvents(states, events, n - 1);
      assert events[..n][..n - 1] == events[..n - 1];
      CountersStep(states[n - 1], events[n - 1]);
    }
  }

  lemma CountersStep<D>(s: Modals<D>, e: Event<D>)
    requires Enabled(s, e)
    ensures var t := Step(s, e);
            && t.attached == (if e.Attach? then s.attached + {e.host}
                              else if e.Dispose? then s.attached - {e.disposed} else s.attached)
            && t.hostAttaches == s.hostAttaches + (if e.Attach? then 1 else 0)
            && t.now == s.now + (if e.Tick? then e.ms else 0)
  {
    if e.Dispose? && e.disposed !in s.attached { assert s.attached - {e.disposed} == s.attached; }
  }

  // -- The module's variables ------------------------------------------------

  class Stack<D> {
    var openModals: seq<ModalId>
    var modalAnswers: set<ModalId>
    var modalHosts: int
    var hostAttaches: nat
    var attached: set<HostId>
    var timers: seq<Timer>
    var now: nat
    ghost var answered: seq<Answer<D>>
    ghost var handedOut: set<ModalId>
    ghost var hostedUntil: Option<nat>

    ghost function State(): Modals<D>
      reads this
    {
      Modals(openModals, modalAnswers, modalHosts, hostAttaches, attached, timers, now, answered, handedOut,
             hostedUntil)
    }

    constructor ()
      ensures State() == Init() && Inv(State())
    {
      openModals, modalAnswers, modalHosts, hostAttaches, attached := [], {}, 0, 0, {};
      timers, now := [], 0;
      answered, handedOut, hostedUntil := [], {}, None;
    }

    /** `closeIfNoHost(id)`, up to its timer */
    method CloseIfNoHost(id: ModalId)
      modifies this`timers
      ensures timers == old(timers) + Arm([id], hostAttaches, now)
    {
      timers := timers + [Timer(id, hostAttaches, now + MODAL_HOST_WAIT)];
    }

    method OpenModal(id: ModalId)
      requires Inv(State()) && Enabled(State(), Open(id))
      modifies this
      ensures Inv(State()) && State() == Step(old(State()), Open(id))
    {
      hide Inv;
      OpenKeeps(State(), id);
      modalAnswers := modalAnswers + {id};
      openModals := openModals + [id];
      handedOut := handedOut + {id};
      if modalHosts == 0 { CloseIfNoHost(id); }
    }

    method FilterOpenModals(id: ModalId) returns (others: seq<ModalId>)
      ensures others == Without(openModals, id)
    {
      others := [];
      for i := 0 to |openModals|
        invariant others + Without(openModals[i..], id) == Without(openModals, id)
      {
        assert openModals[i..][1..] == openModals[i + 1..];
        if openModals[i] != id { others := others + [openModals[i]]; }
      }
    }

    method CloseModal(data: Option<D>, id: ModalId)
      requires Inv(State())
      modifies this
      ensures Inv(State()) && State() == Step(old(State()), Close(data, id))
    {
      hide Inv;
      ClosingKeeps(State(), data, id);
      if id !in modalAnswers { return; }
      modalAnswers := modalAnswers - {id};
      openModals := FilterOpenModals(id);
      answered := answered + [Answer(id, data)];
    }

    method CloseTopModal(data: Option<D>)
      requires Inv(State())
      modifies this
      ensures Inv(State()) && State() == Step(old(State()), CloseTop(data))
    {
      hide Inv;
      if |openModals| > 0 { CloseModal(data, openModals[|openModals| - 1]); }
    }

    method AttachModalHost(host: HostId)
      requires Inv(State()) && Enabled(State(), Attach(host))
      modifies this
      ensures Inv(State()) && State() == Step(old(State()), Attach(host))
    {
      hide Inv;
      AttachKeeps(State(), host);
      modalHosts := modalHosts + 1;
      hostAttaches := hostAttaches + 1;
      attached := attached + {host};
      hostedUntil := Some(now);
    }

    /** The `dispose` that `attachModalHost` returned; a second call does nothing. */
    method DisposeOfHost(host: HostId)
      requires Inv(State())
      modifies this
      ensures Inv(State()) && State() == Step(old(State()), Dispose(host))
    {
      hide Inv;
      DisposeKeeps(State(), host);
      if host !in attached { return; }
      attached := attached - {host};
      modalHosts := modalHosts - 1;
      if modalHosts == 0 {
        var ids, armed := openModals, timers;
        for i := 0 to |ids|
          invariant State() == old(State()).(attached := attached, modalHosts := modalHosts, timers := timers)
          invariant attached == old(attached) - {host} && modalHosts == old(modalHosts) - 1
          invariant timers == armed + Arm(ids[..i], hostAttaches, now)
        {
          CloseIfNoHost(ids[i]);
          assert ids[..i + 1] == ids[..i] + [ids[i]];
        }
        assert ids[..|ids|] == ids;
      }
    }

    /** The timer at `k` runs. */
    method FireTimer(k: nat)
      requires Inv(State()) && Enabled(State(), Fire(k))
      modifies this
      ensures Inv(State()) && State() == Step(old(State()), Fire(k))
    {
      hide Inv;
      FireKeeps(State(), k);
      var timer := timers[k];
      timers := timers[..k] + timers[k + 1..];
      if modalHosts > 0 || hostAttaches != timer.attaches { return; }
      if timer.id !in openModals { return; }
      if timer.id !in modalAnswers { return; }
      modalAnswers := modalAnswers - {timer.id};
      openModals := FilterOpenModals(timer.id);
      answered := answered + [Answer(timer.id, None)];
    }
  }
}
