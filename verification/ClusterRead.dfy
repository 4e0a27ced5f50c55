/**
 * Reading the selected endpoint's cluster while the endpoint changes and reads
 * overlap (`readCluster` in `client-v2/src/utils/connection.ts`).
 */
module ClusterRead {
  import opened Options

  type Endpoint = string
  type Cluster = string

  /** A call of `readCluster` that waits for the answer of the endpoint it asked. */
  datatype Read = Read(
    asked: Endpoint,
    retries: nat,        // times it has called itself
    startedAt: nat       // endpoint changes made before it started
  )

  datatype Connection = Connection(
    selected: Endpoint,
    clusterEndpoint: Option<Endpoint>,
    cluster: Option<Cluster>,  // what the last read that returned gave
    pending: seq<Read>,          // in flight
    changes: nat,              // times the selected endpoint became another
    failed: bool               // a read of the selected endpoint threw since it was selected
  )

  datatype Event =
    | Select(endpoint: Endpoint)     // also starts a read: the derived value listens to the setting
    | StartRead
    | Answer(read: nat, ok: bool)

  function NewRead(s: Connection): Read {
    Read(s.selected, 0, s.changes)
  }

  /** The value is derived once when it is created. */
  function Init(endpoint: Endpoint): Connection {
    Connection(endpoint, None, None, [Read(endpoint, 0, 0)], 0, false)
  }

  predicate Enabled(s: Connection, e: Event) {
    e.Answer? ==> e.read < |s.pending|
  }

  function Without(pending: seq<Read>, i: nat): (r: seq<Read>)
    requires i < |pending|
    ensures |r| == |pending| - 1
    ensures forall j | 0 <= j < |r| :: r[j] == pending[if j < i then j else j + 1]
  {
    pending[..i] + pending[i + 1..]
  }

  function Selecting(s: Connection, endpoint: Endpoint): Connection {
    var changed := endpoint != s.selected;
    s.(selected := endpoint,
       changes := if changed then s.changes + 1 else s.changes,
       failed := s.failed && !changed)
  }

  function Step(clusterOf: Endpoint -> Cluster, s: Connection, e: Event): Connection
    requires Enabled(s, e)
  {
    match e
    case Select(endpoint) =>
      var t := Selecting(s, endpoint);
      t.(pending := t.pending + [NewRead(t)])
    case StartRead => s.(pending := s.pending + [NewRead(s)])
    case Answer(i, ok) =>
      var read := s.pending[i];
      if read.asked != s.selected then
        s.(pending := s.pending[i := Read(s.selected, read.retries + 1, read.startedAt)])
      else if ok then
        s.(pending := Without(s.pending, i), clusterEndpoint := Some(read.asked),
           cluster := Some(clusterOf(read.asked)))
      else
        s.(pending := Without(s.pending, i), failed := true)
  }

  /** `clusterIsStale` */
  predicate IsStale(s: Connection) {
    s.clusterEndpoint != Some(s.selected)
  }

  ghost predicate IsRun(clusterOf: Endpoint -> Cluster, states: seq<Connection>, events: seq<Event>) {
    && |states| == |events| + 1
    && states[0] == Init(states[0].selected)
    && (forall k | 0 <= k < |events| :: Enabled(states[k], events[k]))
    && (forall k | 0 <= k < |events| :: states[k + 1] == Step(clusterOf, states[k], events[k]))
  }

  // -- What every step keeps -------------------------------------------------

  ghost function Missed(s: Connection, read: Read): nat {
    if read.asked != s.selected then 1 else 0
  }

  ghost predicate Inv(clusterOf: Endpoint -> Cluster, s: Connection) {
    && (s.clusterEndpoint.None? ==> s.cluster.None?)
    && (s.clusterEndpoint.Some? ==> s.cluster == Some(clusterOf(s.clusterEndpoint.value)))
    && (IsStale(s) ==> s.pending != [] || s.failed)
    && (forall i | 0 <= i < |s.pending| ::
        s.pending[i].startedAt + s.pending[i].retries + Missed(s, s.pending[i]) <= s.changes)
  }

  lemma StepKeeps(clusterOf: Endpoint -> Cluster, s: Connection, e: Event)
    requires Inv(clusterOf, s) && Enabled(s, e)
    ensures Inv(clusterOf, Step(clusterOf, s, e))
  {
    var t := Step(clusterOf, s, e);
    match e
    case Select(endpoint) =>
      forall i | 0 <= i < |t.pending|
        ensures t.pending[i].startedAt + t.pending[i].retries + Missed(t, t.pending[i]) <= t.changes
      {
        if i < |s.pending| { assert t.pending[i] == s.pending[i]; }
      }
    case StartRead =>
    case Answer(_, _) =>
  }

  lemma {:induction false} RunKeeps(clusterOf: Endpoint -> Cluster, states: seq<Connection>, events: seq<Event>, k: nat)
    requires IsRun(clusterOf, states, events) && k < |states|
    ensures Inv(clusterOf, states[k])
  {
    if k > 0 {
      RunKeeps(clusterOf, states, events, k - 1);
      StepKeeps(clusterOf, states[k - 1], events[k - 1]);
    }
  }

  // -- What holds over every run ---------------------------------------------

  /** The cluster last returned is that of `_clusterEndpoint`, so one that is not stale names the selected endpoint. */
  lemma FreshNamesTheSelected(clusterOf: Endpoint -> Cluster, states: seq<Connection>, events: seq<Event>, k: nat)
    requires IsRun(clusterOf, states, events) && k < |states|
    ensures states[k].cluster.Some? <==> states[k].clusterEndpoint.Some?
    ensures states[k].cluster.Some? ==> states[k].cluster == Some(clusterOf(states[k].clusterEndpoint.value))
    ensures !IsStale(states[k]) ==> states[k].cluster == Some(clusterOf(states[k].selected))
  {
    RunKeeps(clusterOf, states, events, k);
  }

  /**
   * With no read in flight the cluster is stale only if a read of the selected
   * endpoint itself failed, since it was selected.
   */
  lemma QuietAndStaleMeansFailed(clusterOf: Endpoint -> Cluster, states: seq<Connection>, events: seq<Event>, k: nat)
    returns (j: nat)
    requires IsRun(clusterOf, states, events) && k < |states| && states[k].pending == [] && IsStale(states[k])
    ensures j < k && Fails(states[j], events[j])
    ensures forall i | j <= i <= k :: states[i].selected == states[k].selected
  {
    RunKeeps(clusterOf, states, events, k);
    j := FailedSinceSelected(clusterOf, states, events, k);
  }

  /** A read calls itself again at most as often as the endpoint changed while it was in flight. */
  lemma RetriesAreChanges(clusterOf: Endpoint -> Cluster, states: seq<Connection>, events: seq<Event>, k: nat, i: nat)
    requires IsRun(clusterOf, states, events) && k < |states| && i < |states[k].pending|
    ensures states[k].pending[i].retries <= states[k].changes - states[k].pending[i].startedAt
  {
    RunKeeps(clusterOf, states, events, k);
  }

  /** `changes` is the number of selections so far that named another endpoint than the one before. */
  ghost function ChangesIn(states: seq<Connection>): nat {
    if |states| < 2 then 0
    else
      var n := |states| - 1;
      ChangesIn(states[..n]) + (if states[n].selected != states[n - 1].selected then 1 else 0)
  }

  lemma {:induction false} ChangesCount(clusterOf: Endpoint -> Cluster, states: seq<Connection>, events: seq<Event>,
                                        k: nat)
    requires IsRun(clusterOf, states, events) && k < |states|
    ensures states[k].changes == ChangesIn(states[..k + 1])
  {
    if k > 0 {
      ChangesCount(clusterOf, states, events, k - 1);
      assert states[..k + 1][..k] == states[..k];
    }
  }

  /** A read of the selected endpoint returns its cluster. */
  predicate Returns(s: Connection, e: Event) {
    e.Answer? && e.ok && e.read < |s.pending| && s.pending[e.read].asked == s.selected
  }

  /**
   * The cluster was returned by a read of the endpoint selected at that moment,
   * and no read has returned since.
   */
  lemma {:induction false} ReturnedWhenSelected(clusterOf: Endpoint -> Cluster, states: seq<Connection>,
                                                events: seq<Event>, k: nat)
    returns (j: nat)
    requires IsRun(clusterOf, states, events) && k < |states| && states[k].cluster.Some?
    ensures j < k && Returns(states[j], events[j])
    ensures states[k].cluster == Some(clusterOf(states[j].selected))
    ensures forall i | j < i < k :: !Returns(states[i], events[i])
  {
    var s, e := states[k - 1], events[k - 1];
    if Returns(s, e) {
      j := k - 1;
    } else {
      j := ReturnedWhenSelected(clusterOf, states, events, k - 1);
    }
  }

  // -- What each event does --------------------------------------------------

  /** A selection makes the endpoint the selected one and asks it in a new read, behind those under way. */
  lemma SelectAsks(clusterOf: Endpoint -> Cluster, states: seq<Connection>, events: seq<Event>, k: nat)
    requires IsRun(clusterOf, states, events) && k < |events| && events[k].Select?
    ensures var s, t := states[k], states[k + 1];
            && t.selected == events[k].endpoint
            && |t.pending| == |s.pending| + 1 && t.pending[..|s.pending|] == s.pending
            && t.pending[|s.pending|].asked == events[k].endpoint && t.pending[|s.pending|].retries == 0
            && t.cluster == s.cluster && t.clusterEndpoint == s.clusterEndpoint
  {}

  /** A read that starts asks the selected endpoint. */
  lemma ReadAsks(clusterOf: Endpoint -> Cluster, states: seq<Connection>, events: seq<Event>, k: nat)
    requires IsRun(clusterOf, states, events) && k < |events| && events[k].StartRead?
    ensures var s, t := states[k], states[k + 1];
            && t.selected == s.selected
            && |t.pending| == |s.pending| + 1 && t.pending[..|s.pending|] == s.pending
            && t.pending[|s.pending|].asked == s.selected && t.pending[|s.pending|].retries == 0
            && t.cluster == s.cluster && t.clusterEndpoint == s.clusterEndpoint
  {}

  /**
   * An answer, or a failure, of an endpoint that is not selected any more makes
   * its read ask the selected one; any other ends its read, and publishes the
   * cluster exactly if it is no failure. The other reads go on.
   */
  lemma AnswerEndsOrAsksAgain(clusterOf: Endpoint -> Cluster, states: seq<Connection>, events: seq<Event>, k: nat)
    requires IsRun(clusterOf, states, events) && k < |events| && events[k].Answer?
    ensures var s, t, i := states[k], states[k + 1], events[k].read;
            && i < |s.pending| && t.selected == s.selected
            && (if s.pending[i].asked != s.selected
                then && |t.pending| == |s.pending|
                     && t.pending[i].asked == s.selected && t.pending[i].retries == s.pending[i].retries + 1
                     && (forall j | 0 <= j < |s.pending| && j != i :: t.pending[j] == s.pending[j])
                else t.pending == s.pending[..i] + s.pending[i + 1..])
            && (if s.pending[i].asked == s.selected && events[k].ok
                then t.clusterEndpoint == Some(s.selected) && t.cluster == Some(clusterOf(s.selected))
                else t.clusterEndpoint == s.clusterEndpoint && t.cluster == s.cluster)
  {
    assert Enabled(states[k], events[k]);
  }

  /** A read of the selected endpoint fails. */
  predicate Fails(s: Connection, e: Event) {
    e.Answer? && !e.ok && e.read < |s.pending| && s.pending[e.read].asked == s.selected
  }

  /** What is noted as failed is a read of the selected endpoint since it was selected. */
  lemma {:induction false} FailedSinceSelected(clusterOf: Endpoint -> Cluster, states: seq<Connection>,
                                               events: seq<Event>,
                                               k: nat) returns (j: nat)
    requires IsRun(clusterOf, states, events) && k < |states| && states[k].failed
    ensures j < k && Fails(states[j], events[j])
    ensures forall i | j <= i <= k :: states[i].selected == states[k].selected
  {
    var s, e := states[k - 1], events[k - 1];
    if Fails(s, e) {
      j := k - 1;
    } else {
      j := FailedSinceSelected(clusterOf, states, events, k - 1);
    }
  }

  // -- The connection --------------------------------------------------------

  class Reader {
    var selected: Endpoint
    var clusterEndpoint: Option<Endpoint>
    var cluster: Option<Cluster>
    var pending: seq<Read>
    var changes: nat           // bookkeeping, with the counts of each read
    ghost var failed: bool

    ghost function State(): Connection
      reads this
    {
      Connection(selected, clusterEndpoint, cluster, pending, changes, failed)
    }

    constructor (endpoint: Endpoint)
      ensures State() == Init(endpoint)
    {
      selected, clusterEndpoint, cluster := endpoint, None, None;
      pending := [Read(endpoint, 0, 0)];
      changes, failed := 0, false;
    }

    /** The setting changes, and the derived value is read again. */
    method SelectEndpoint(ghost clusterOf: Endpoint -> Cluster, endpoint: Endpoint)
      requires Inv(clusterOf, State())
      modifies this
      ensures Inv(clusterOf, State()) && State() == Step(clusterOf, old(State()), Select(endpoint))
    {
      StepKeeps(clusterOf, State(), Select(endpoint));
      if endpoint != selected { changes, failed := changes + 1, false; }
      selected := endpoint;
      pending := pending + [Read(selected, 0, changes)];
    }

    /** `readCluster` up to its await */
    method StartReading(ghost clusterOf: Endpoint -> Cluster)
      requires Inv(clusterOf, State())
      modifies this`pending
      ensures Inv(clusterOf, State()) && State() == Step(clusterOf, old(State()), StartRead)
    {
      StepKeeps(clusterOf, State(), StartRead);
      pending := pending + [Read(selected, 0, changes)];
    }

    /** `readCluster` from its await: `answer` is what the endpoint asked gave, nothing if it failed. */
    method OnAnswer(ghost clusterOf: Endpoint -> Cluster, i: nat, answer: Option<Cluster>)
      requires Inv(clusterOf, State()) && i < |pending|
      requires answer.Some? ==> answer.value == clusterOf(pending[i].asked)
      modifies this
      ensures Inv(clusterOf, State()) && State() == Step(clusterOf, old(State()), Answer(i, answer.Some?))
    {
      StepKeeps(clusterOf, State(), Answer(i, answer.Some?));
      var read := pending[i];
      if read.asked != selected {
        pending := pending[i := Read(selected, read.retries + 1, read.startedAt)];
      } else {
        pending := pending[..i] + pending[i + 1..];
        match answer
        case None => failed := true;
        case Some(name) => clusterEndpoint, cluster := Some(read.asked), Some(name);
      }
    }
  }
}
