/** The forwarding loop as a step system: a bounded queue feeds a receive loop that deduplicates, broadcasts,
    takes a permit and spawns one task per accepted transaction; a task calls every endpoint in turn and then
    releases its permit. The steps of the senders, the loop and the tasks interleave arbitrarily. */
module Forwarder {
  import opened Recency
  import opened LruMap
  import opened Types
  import opened Dedup

  datatype Tx = Tx(hash: B256, rawTx: seq<byte>)

  datatype Config = Config(endpoints: seq<string>, maxConcurrent: nat, bufferSize: nat, cacheSize: nat,
                           wsBroadcaster: bool)
  {
    /** What the channel and the deduplicator demand at start-up. */
    predicate Valid() {
      1 <= bufferSize && 1 <= cacheSize
    }
  }

  /** How one call to an endpoint ended. */
  datatype Outcome = Forwarded | AlreadyKnown | Rejected | BadResponse | SendFailed

  /** Where the receive loop stands, with the transaction in hand. */
  datatype Stage = Receiving | Checking(tx: Tx) | Broadcasting(tx: Tx) | Acquiring(tx: Tx) | Stopped

  /** A spawned task: the next endpoint to call, and whether it still holds its permit. */
  datatype Task = Task(id: nat, tx: Tx, next: nat, holding: bool)

  datatype Attempt = Attempt(id: nat, tx: Tx, endpoint: string, outcome: Outcome)

  /** `pending` are the arrivals not yet queued and `received` those taken from the queue; the senders are gone
      once nothing is pending. */
  datatype State = State(
    pending: seq<Tx>, queue: seq<Tx>, received: seq<Tx>, stage: Stage, seen: Seen,
    broadcasts: seq<Tx>, idCounter: nat, permits: nat, tasks: seq<Task>, log: seq<Attempt>)

  datatype Event =
    | Send | Receive | DedupCheck | Broadcast | Acquire
    | Call(task: nat, outcome: Outcome)
    | Release(task: nat)

  function Init(c: Config, arrivals: seq<Tx>): State {
    State(arrivals, [], [], Receiving, Fresh(c.cacheSize), [], 0, c.maxConcurrent, [], [])
  }

  predicate Enabled(c: Config, s: State, e: Event) {
    match e
    case Send => s.pending != [] && |s.queue| < c.bufferSize
    case Receive => s.stage.Receiving? && (s.queue != [] || s.pending == [])
    case DedupCheck => s.stage.Checking?
    case Broadcast => s.stage.Broadcasting?
    case Acquire => s.stage.Acquiring? && s.permits > 0
    case Call(t, _) => t < |s.tasks| && s.tasks[t].holding && s.tasks[t].next < |c.endpoints|
    case Release(t) => t < |s.tasks| && s.tasks[t].holding && s.tasks[t].next >= |c.endpoints|
  }

  function Next(c: Config, s: State, e: Event): State
    requires Enabled(c, s, e)
  {
    match e
    case Send => s.(pending := s.pending[1..], queue := s.queue + [s.pending[0]])
    case Receive =>
      if s.queue == [] then s.(stage := Stopped)
      else s.(queue := s.queue[1..], received := s.received + [s.queue[0]], stage := Checking(s.queue[0]))
    case DedupCheck =>
      var tx := s.stage.tx;
      s.(stage := if IsNew(s.seen, tx.hash) then Broadcasting(tx) else Receiving, seen := Dedup.Check(s.seen, tx.hash))
    case Broadcast =>
      s.(stage := if c.endpoints == [] then Receiving else Acquiring(s.stage.tx),
         broadcasts := s.broadcasts + if c.wsBroadcaster then [s.stage.tx] else [])
    case Acquire =>
      s.(stage := Receiving, permits := s.permits - 1, idCounter := s.idCounter + 1,
         tasks := s.tasks + [Task(s.idCounter + 1, s.stage.tx, 0, true)])
    case Call(t, outcome) =>
      var task := s.tasks[t];
      s.(tasks := s.tasks[t := task.(next := task.next + 1)],
         log := s.log + [Attempt(task.id, task.tx, c.endpoints[task.next], outcome)])
    case Release(t) => s.(tasks := s.tasks[t := s.tasks[t].(holding := false)], permits := s.permits + 1)
  }

  /** The state after a sequence of events, if each was enabled in its turn. */
  function Run(c: Config, s: State, events: seq<Event>): Option<State> {
    if events == [] then Some(s)
    else
      match Run(c, s, events[..|events| - 1])
      case None => None
      case Some(t) => if Enabled(c, t, events[|events| - 1]) then Some(Next(c, t, events[|events| - 1])) else None
  }

  predicate Complete(s: State) {
    s.stage.Stopped? && forall i :: 0 <= i < |s.tasks| ==> !s.tasks[i].holding
  }

  // ---------- what the state records ----------

  function HashesOf(txs: seq<Tx>): seq<B256> {
    if txs == [] then [] else HashesOf(txs[..|txs| - 1]) + [txs[|txs| - 1].hash]
  }

  /** The transactions the deduplicator accepts out of a sequence of arrivals. */
  function AcceptedTxs(cap: nat, txs: seq<Tx>): seq<Tx> {
    if txs == [] then []
    else
      var g, tx := txs[..|txs| - 1], txs[|txs| - 1];
      AcceptedTxs(cap, g) + if IsNew(SeenAfter(cap, HashesOf(g)), tx.hash) then [tx] else []
  }

  /** The received transactions whose dedup check is done. */
  function Checked(s: State): seq<Tx> {
    if s.stage.Checking? && s.received != [] then s.received[..|s.received| - 1] else s.received
  }

  function InHand(stage: Stage): seq<Tx> {
    match stage
    case Broadcasting(tx) => [tx]
    case Acquiring(tx) => [tx]
    case _ => []
  }

  function TaskTxs(tasks: seq<Task>): seq<Tx> {
    if tasks == [] then [] else TaskTxs(tasks[..|tasks| - 1]) + [tasks[|tasks| - 1].tx]
  }

  function Holding(tasks: seq<Task>): nat {
    if tasks == [] then 0 else Holding(tasks[..|tasks| - 1]) + if tasks[|tasks| - 1].holding then 1 else 0
  }

  /** The endpoints called for a request id, in order. */
  function Called(log: seq<Attempt>, id: nat): seq<string> {
    if log == [] then []
    else Called(log[..|log| - 1], id) + if log[|log| - 1].id == id then [log[|log| - 1].endpoint] else []
  }

  lemma {:induction false} TaskTxsUpdate(tasks: seq<Task>, i: nat, t: Task)
    requires i < |tasks| && t.tx == tasks[i].tx
    ensures TaskTxs(tasks[i := t]) == TaskTxs(tasks)
  {
    var n := |tasks| - 1;
    if i < n {
      assert tasks[i := t][..n] == tasks[..n][i := t];
      TaskTxsUpdate(tasks[..n], i, t);
    } else {
      assert tasks[i := t][..n] == tasks[..n];
    }
  }

  lemma {:induction false} HoldingUpdate(tasks: seq<Task>, i: nat, t: Task)
    requires i < |tasks|
    ensures Holding(tasks[i := t]) == Holding(tasks) - (if tasks[i].holding then 1 else 0)
            + (if t.holding then 1 else 0)
  {
    var n := |tasks| - 1;
    if i < n {
      assert tasks[i := t][..n] == tasks[..n][i := t];
      HoldingUpdate(tasks[..n], i, t);
    } else {
      assert tasks[i := t][..n] == tasks[..n];
    }
  }

  lemma {:induction false} SomeoneHolds(tasks: seq<Task>) returns (i: nat)
    requires Holding(tasks) > 0
    ensures i < |tasks| && tasks[i].holding
  {
    if tasks[|tasks| - 1].holding {
      i := |tasks| - 1;
    } else {
      i := SomeoneHolds(tasks[..|tasks| - 1]);
    }
  }

  // ---------- invariant ----------

  /** First in, first out: received, queued and pending make up the arrivals. */
  ghost predicate Conserved(arrivals: seq<Tx>, s: State) {
    && s.received + s.queue + s.pending == arrivals
    && (s.stage.Checking? ==> s.received != [] && s.received[|s.received| - 1] == s.stage.tx)
    && (s.stage.Stopped? ==> s.queue == [] && s.pending == [])
  }

  /** The accepted transaction in hand that is still to be broadcast. */
  function Unannounced(stage: Stage): seq<Tx> {
    if stage.Broadcasting? then [stage.tx] else []
  }

  /** Dedup, broadcasts and tasks follow the accepted subsequence of the arrivals checked so far. */
  ghost predicate FollowsAccepted(c: Config, s: State) {
    && s.seen == SeenAfter(c.cacheSize, HashesOf(Checked(s)))
    && Announces(c, s, AcceptedTxs(c.cacheSize, Checked(s)))
    && Spawns(c, s, AcceptedTxs(c.cacheSize, Checked(s)))
  }

  ghost predicate Announces(c: Config, s: State, accepted: seq<Tx>) {
    if c.wsBroadcaster then accepted == s.broadcasts + Unannounced(s.stage) else s.broadcasts == []
  }

  ghost predicate Spawns(c: Config, s: State, accepted: seq<Tx>) {
    if c.endpoints == [] then s.tasks == [] && !s.stage.Acquiring?
    else accepted == TaskTxs(s.tasks) + InHand(s.stage)
  }

  /** Permits are conserved, and the queue is bounded, and ids count the tasks in order. */
  ghost predicate Counted(c: Config, s: State) {
    && s.permits + Holding(s.tasks) == c.maxConcurrent
    && |s.queue| <= c.bufferSize
    && s.idCounter == |s.tasks|
    && forall i :: 0 <= i < |s.tasks| ==>
         && s.tasks[i].id == i + 1
         && s.tasks[i].next <= |c.endpoints|
         && (!s.tasks[i].holding ==> s.tasks[i].next == |c.endpoints|)
  }

  /** The attempts of each task are the endpoints in list order up to its position, whatever the outcomes. */
  ghost predicate Attempted(c: Config, s: State) {
    && (forall i :: 0 <= i < |s.tasks| && s.tasks[i].next <= |c.endpoints| ==>
          Called(s.log, i + 1) == c.endpoints[..s.tasks[i].next])
    && (forall id :: id > |s.tasks| ==> Called(s.log, id) == [])
    && (forall a :: a in s.log ==> 1 <= a.id <= |s.tasks| && a.tx == s.tasks[a.id - 1].tx)
  }

  ghost predicate Inv(c: Config, arrivals: seq<Tx>, s: State) {
    Conserved(arrivals, s) && FollowsAccepted(c, s) && Counted(c, s) && Attempted(c, s)
  }

  lemma NextConserved(c: Config, arrivals: seq<Tx>, s: State, e: Event)
    requires Conserved(arrivals, s) && Enabled(c, s, e)
    ensures Conserved(arrivals, Next(c, s, e))
  {
    if e.Receive? && s.queue != [] {
      assert s.received + s.queue == (s.received + [s.queue[0]]) + s.queue[1..];
    } else if e.Send? {
      assert s.queue + s.pending == (s.queue + [s.pending[0]]) + s.pending[1..];
      assert s.received + s.queue + s.pending == s.received + (s.queue + s.pending);
      assert s.received + ((s.queue + [s.pending[0]]) + s.pending[1..])
             == s.received + (s.queue + [s.pending[0]]) + s.pending[1..];
    }
  }

  lemma NextCounted(c: Config, s: State, e: Event)
    requires Counted(c, s) && Enabled(c, s, e)
    ensures Counted(c, Next(c, s, e))
  {
    match e
    case Call(t, o) => HoldingUpdate(s.tasks, t, Next(c, s, e).tasks[t]);
    case Release(t) => HoldingUpdate(s.tasks, t, Next(c, s, e).tasks[t]);
    case Acquire => assert Next(c, s, e).tasks[..|s.tasks|] == s.tasks;
    case _ =>
  }

  /** Task k called its next endpoint and nothing else happened: its attempts are one endpoint further. */
  lemma AttemptedAt(endpoints: seq<string>, tasks: seq<Task>, log: seq<Attempt>, k: nat, a: Attempt, i: nat)
    requires k < |tasks| && i < |tasks| && tasks[k].next < |endpoints| && tasks[i].next <= |endpoints|
    requires a.id == k + 1 && a.endpoint == endpoints[tasks[k].next]
    requires Called(log, i + 1) == endpoints[..tasks[i].next]
    ensures Called(log + [a], i + 1) == endpoints[..if i == k then tasks[i].next + 1 else tasks[i].next]
  {
    CalledStep(log, a, i + 1);
    hide Called;
    if i == k {
      assert endpoints[..tasks[k].next + 1] == endpoints[..tasks[k].next] + [a.endpoint];
    } else {
      assert endpoints[..tasks[i].next] + [] == endpoints[..tasks[i].next];
    }
  }

  lemma CallAttempted(c: Config, s: State, k: nat, o: Outcome)
    requires Counted(c, s) && Attempted(c, s) && Enabled(c, s, Call(k, o))
    ensures Attempted(c, Next(c, s, Call(k, o)))
  {
    hide Called, Holding;
    var t, task := Next(c, s, Call(k, o)), s.tasks[k];
    var a := Attempt(k + 1, task.tx, c.endpoints[task.next], o);
    assert t.tasks == s.tasks[k := task.(next := task.next + 1)] && t.log == s.log + [a];
    hide Next;
    forall i | 0 <= i < |t.tasks| && t.tasks[i].next <= |c.endpoints|
      ensures Called(t.log, i + 1) == c.endpoints[..t.tasks[i].next]
    {
      AttemptedAt(c.endpoints, s.tasks, s.log, k, a, i);
    }
    forall id | id > |t.tasks| ensures Called(t.log, id) == [] {
      CalledStep(s.log, a, id);
    }
  }

  lemma CalledStep(log: seq<Attempt>, a: Attempt, id: nat)
    ensures Called(log + [a], id) == Called(log, id) + if a.id == id then [a.endpoint] else []
  {
    assert (log + [a])[..|log|] == log;
  }

  lemma AcquireAttempted(c: Config, s: State)
    requires Counted(c, s) && Attempted(c, s) && Enabled(c, s, Acquire)
    ensures Attempted(c, Next(c, s, Acquire))
  {
    hide Called;
    assert c.endpoints[..0] == [];
    assert Called(s.log, |s.tasks| + 1) == [];
  }

  lemma NextAttempted(c: Config, s: State, e: Event)
    requires Counted(c, s) && Attempted(c, s) && Enabled(c, s, e)
    ensures Attempted(c, Next(c, s, e))
  {
    match e
    case Call(k, o) => CallAttempted(c, s, k, o);
    case Acquire => AcquireAttempted(c, s);
    case _ =>
      hide Called;
  }

  lemma AcceptedStep(cap: nat, g: seq<Tx>, tx: Tx)
    ensures var seen := SeenAfter(cap, HashesOf(g));
            && SeenAfter(cap, HashesOf(g + [tx])) == Dedup.Check(seen, tx.hash)
            && AcceptedTxs(cap, g + [tx]) == AcceptedTxs(cap, g) + if IsNew(seen, tx.hash) then [tx] else []
  {
    assert (g + [tx])[..|g|] == g;
    assert (HashesOf(g) + [tx.hash])[..|HashesOf(g)|] == HashesOf(g);
  }

  /** What a step adds to the accepted transactions. */
  function NewlyAccepted(s: State, e: Event): seq<Tx>
    requires e.DedupCheck? ==> s.stage.Checking?
  {
    if e.DedupCheck? && IsNew(s.seen, s.stage.tx.hash) then [s.stage.tx] else []
  }

  lemma NextAnnounces(c: Config, s: State, e: Event, accepted: seq<Tx>)
    requires Enabled(c, s, e) && Announces(c, s, accepted)
    ensures Announces(c, Next(c, s, e), accepted + NewlyAccepted(s, e))
  {
    hide IsNew, Dedup.Check;
    assert accepted + [] == accepted && s.broadcasts + [] == s.broadcasts;
  }

  /** A step moves an accepted transaction from the check through the loop's hand into a task. */
  lemma HandAfter(c: Config, s: State, e: Event)
    requires Enabled(c, s, e)
    ensures var t := Next(c, s, e);
            && InHand(t.stage) == (if e.Acquire? || (e.Broadcast? && c.endpoints == []) then []
                                   else InHand(s.stage) + NewlyAccepted(s, e))
            && (e.Acquire? ==> InHand(s.stage) == [s.stage.tx] && NewlyAccepted(s, e) == [])
            && (c.endpoints == [] && !s.stage.Acquiring? ==>
                  !t.stage.Acquiring? && !e.Acquire? && |t.tasks| == |s.tasks|)
  {
    hide IsNew, Dedup.Check;
  }

  lemma NextSpawns(c: Config, s: State, e: Event, accepted: seq<Tx>)
    requires Enabled(c, s, e) && Spawns(c, s, accepted)
    ensures Spawns(c, Next(c, s, e), accepted + NewlyAccepted(s, e))
  {
    hide IsNew, Dedup.Check, TaskTxs, Next, InHand, NewlyAccepted;
    TasksStay(c, s, e);
    HandAfter(c, s, e);
    if c.endpoints != [] && e.Acquire? {
      assert accepted + [] == accepted;
      assert (TaskTxs(s.tasks) + [s.stage.tx]) + [] == TaskTxs(s.tasks) + [s.stage.tx];
    } else if c.endpoints != [] {
      assert TaskTxs(s.tasks) + [] == TaskTxs(s.tasks);
      assert TaskTxs(s.tasks) + (InHand(s.stage) + NewlyAccepted(s, e)) == accepted + NewlyAccepted(s, e);
    }
  }

  lemma NextFollows(c: Config, arrivals: seq<Tx>, s: State, e: Event)
    requires Conserved(arrivals, s) && FollowsAccepted(c, s) && Enabled(c, s, e)
    ensures FollowsAccepted(c, Next(c, s, e))
  {
    var accepted := AcceptedTxs(c.cacheSize, Checked(s));
    NextAnnounces(c, s, e, accepted);
    NextSpawns(c, s, e, accepted);
    CheckedGrows(c, s, e);
    hide Announces, Spawns, AcceptedTxs, SeenAfter, HashesOf, IsNew, Dedup.Check, Checked;
    if e.DedupCheck? {
      AcceptedStep(c.cacheSize, Checked(s), s.stage.tx);
    } else {
      assert accepted + [] == accepted && Checked(s) + [] == Checked(s);
    }
  }

  lemma CheckedGrows(c: Config, s: State, e: Event)
    requires Enabled(c, s, e)
    requires s.stage.Checking? ==> s.received != [] && s.received[|s.received| - 1] == s.stage.tx
    ensures Checked(Next(c, s, e)) == Checked(s) + if e.DedupCheck? then [s.stage.tx] else []
  {
    if e.Receive? && s.queue != [] {
      assert (s.received + [s.queue[0]])[..|s.received|] == s.received;
    }
  }

  lemma TasksStay(c: Config, s: State, e: Event)
    requires Enabled(c, s, e)
    ensures TaskTxs(Next(c, s, e).tasks) == TaskTxs(s.tasks) + if e.Acquire? then [s.stage.tx] else []
  {
    var t := Next(c, s, e);
    match e
    case Acquire => assert t.tasks[..|s.tasks|] == s.tasks;
    case Call(k, _) => TaskTxsUpdate(s.tasks, k, t.tasks[k]);
    case Release(k) => TaskTxsUpdate(s.tasks, k, t.tasks[k]);
    case _ =>
  }

  lemma NextKeepsInv(c: Config, arrivals: seq<Tx>, s: State, e: Event)
    requires Inv(c, arrivals, s) && Enabled(c, s, e)
    ensures Inv(c, arrivals, Next(c, s, e))
  {
    hide Conserved, Counted, Attempted, FollowsAccepted, Next, Enabled;
    NextConserved(c, arrivals, s, e);
    NextCounted(c, s, e);
    NextAttempted(c, s, e);
    NextFollows(c, arrivals, s, e);
  }

  lemma InitInv(c: Config, arrivals: seq<Tx>)
    ensures Inv(c, arrivals, Init(c, arrivals))
  {
  }

  lemma {:induction false} RunKeepsInv(c: Config, arrivals: seq<Tx>, events: seq<Event>)
    ensures var r := Run(c, Init(c, arrivals), events);
            r.Some? ==> Inv(c, arrivals, r.value)
  {
    hide Inv, Next, Enabled, Init;
    if events == [] {
      InitInv(c, arrivals);
    } else {
      var g := events[..|events| - 1];
      RunKeepsInv(c, arrivals, g);
      var r := Run(c, Init(c, arrivals), g);
      if r.Some? && Enabled(c, r.value, events[|events| - 1]) {
        NextKeepsInv(c, arrivals, r.value, events[|events| - 1]);
      }
    }
  }

  // ---------- termination ----------

  /** Steps still owed for n arrivals at k steps each. */
  function Times(n: nat, k: nat): nat {
    if n == 0 then 0 else Times(n - 1, k) + k
  }

  function TaskWork(c: Config, t: Task): nat {
    if !t.holding then 0 else if t.next < |c.endpoints| then |c.endpoints| - t.next + 1 else 1
  }

  function TasksWork(c: Config, tasks: seq<Task>): nat {
    if tasks == [] then 0 else TasksWork(c, tasks[..|tasks| - 1]) + TaskWork(c, tasks[|tasks| - 1])
  }

  function StageWork(c: Config, stage: Stage): nat {
    match stage
    case Receiving => 1
    case Checking(_) => |c.endpoints| + 5
    case Broadcasting(_) => |c.endpoints| + 4
    case Acquiring(_) => |c.endpoints| + 3
    case Stopped => 0
  }

  /** Queued work, loop stage and remaining endpoint calls. */
  function Measure(c: Config, s: State): nat {
    Times(|s.pending|, |c.endpoints| + 6) + Times(|s.queue|, |c.endpoints| + 5) + StageWork(c, s.stage)
      + TasksWork(c, s.tasks)
  }

  lemma {:induction false} TasksWorkUpdate(c: Config, tasks: seq<Task>, i: nat, t: Task)
    requires i < |tasks|
    ensures TasksWork(c, tasks[i := t]) == TasksWork(c, tasks) - TaskWork(c, tasks[i]) + TaskWork(c, t)
  {
    var n := |tasks| - 1;
    if i < n {
      assert tasks[i := t][..n] == tasks[..n][i := t];
      TasksWorkUpdate(c, tasks[..n], i, t);
    } else {
      assert tasks[i := t][..n] == tasks[..n];
    }
  }

  /** Every step of every interleaving lowers the measure. */
  lemma NextLowersMeasure(c: Config, s: State, e: Event)
    requires Enabled(c, s, e)
    ensures Measure(c, Next(c, s, e)) < Measure(c, s)
  {
    var t := Next(c, s, e);
    match e
    case Call(k, _) => TasksWorkUpdate(c, s.tasks, k, t.tasks[k]);
    case Release(k) => TasksWorkUpdate(c, s.tasks, k, t.tasks[k]);
    case Acquire => assert t.tasks[..|s.tasks|] == s.tasks;
    case _ =>
  }

  // ---------- main results ----------

  /** Safety in every interleaving: permits are conserved, ids are 1, 2, 3, ... in acceptance order, the queue
      is first in first out, and broadcasts and tasks are the accepted subsequence of the arrivals. */
  lemma ForwarderSafety(c: Config, arrivals: seq<Tx>, events: seq<Event>)
    requires Run(c, Init(c, arrivals), events).Some?
    ensures var s := Run(c, Init(c, arrivals), events).value;
            && s.received + s.queue + s.pending == arrivals
            && s.permits + Holding(s.tasks) == c.maxConcurrent
            && |s.queue| <= c.bufferSize
            && (forall i :: 0 <= i < |s.tasks| ==> s.tasks[i].id == i + 1)
            && Announces(c, s, AcceptedTxs(c.cacheSize, Checked(s)))
            && Spawns(c, s, AcceptedTxs(c.cacheSize, Checked(s)))
  {
    RunKeepsInv(c, arrivals, events);
  }

  /** Every run is at most as long as the measure of its start. */
  lemma {:induction false} RunsAreBounded(c: Config, s: State, events: seq<Event>)
    ensures Run(c, s, events).Some? ==> |events| + Measure(c, Run(c, s, events).value) <= Measure(c, s)
  {
    if events != [] {
      hide Measure, Next, Enabled;
      RunsAreBounded(c, s, events[..|events| - 1]);
      var r := Run(c, s, events[..|events| - 1]);
      if r.Some? && Enabled(c, r.value, events[|events| - 1]) {
        NextLowersMeasure(c, r.value, events[|events| - 1]);
      }
    }
  }

  /** A permit is missing for ever, and no sender can move either. */
  ghost predicate Starved(c: Config, s: State) {
    c.maxConcurrent == 0 && s.stage.Acquiring? && !Enabled(c, s, Send)
  }

  /** Before completion a state has a next step, unless it is starved. */
  lemma NextStep(c: Config, arrivals: seq<Tx>, s: State) returns (e: Event)
    requires c.Valid() && Inv(c, arrivals, s) && !Complete(s) && !Starved(c, s)
    ensures Enabled(c, s, e)
  {
    match s.stage
    case Receiving => e := if s.queue != [] || s.pending == [] then Receive else Send;
    case Checking(_) => e := DedupCheck;
    case Broadcasting(_) => e := Broadcast;
    case Acquiring(_) =>
      if s.permits > 0 {
        e := Acquire;
      } else if c.maxConcurrent == 0 {
        e := Send;
      } else {
        var i := SomeoneHolds(s.tasks);
        e := TaskStep(c, s, i);
      }
    case Stopped =>
      var i :| 0 <= i < |s.tasks| && s.tasks[i].holding;
      e := TaskStep(c, s, i);
  }

  /** Before completion a reachable state is stuck exactly when the semaphore has no permits at all and the loop
      waits for one while no sender can move; so with at least one permit no reachable state is stuck. */
  lemma StuckIffStarved(c: Config, arrivals: seq<Tx>, events: seq<Event>)
    requires c.Valid() && Run(c, Init(c, arrivals), events).Some?
    requires !Complete(Run(c, Init(c, arrivals), events).value)
    ensures var s := Run(c, Init(c, arrivals), events).value;
            (forall e :: !Enabled(c, s, e)) <==> Starved(c, s)
  {
    RunKeepsInv(c, arrivals, events);
    var s := Run(c, Init(c, arrivals), events).value;
    if Starved(c, s) {
      NobodyCanMove(c, s);
    } else {
      var e := NextStep(c, arrivals, s);
    }
  }

  lemma NobodyCanMove(c: Config, s: State)
    requires Counted(c, s) && Starved(c, s)
    ensures forall e :: !Enabled(c, s, e)
  {
    forall i | 0 <= i < |s.tasks| ensures !s.tasks[i].holding {
      HolderCounts(s.tasks, i);
    }
  }

  lemma {:induction false} HolderCounts(tasks: seq<Task>, i: nat)
    requires i < |tasks|
    ensures tasks[i].holding ==> Holding(tasks) > 0
  {
    if i < |tasks| - 1 {
      HolderCounts(tasks[..|tasks| - 1], i);
    }
  }

  function TaskStep(c: Config, s: State, i: nat): (e: Event)
    requires i < |s.tasks| && s.tasks[i].holding
    ensures Enabled(c, s, e)
  {
    if s.tasks[i].next < |c.endpoints| then Call(i, Forwarded) else Release(i)
  }

  /** Everything that arrived was received, each accepted transaction was broadcast once, in order, and request
      id i was attempted at every endpoint exactly once, in list order, with the i-th accepted transaction. */
  ghost predicate Delivered(c: Config, arrivals: seq<Tx>, s: State) {
    var accepted := AcceptedTxs(c.cacheSize, arrivals);
    && s.received == arrivals
    && s.broadcasts == (if c.wsBroadcaster then accepted else [])
    && s.permits == c.maxConcurrent
    && (c.endpoints != [] ==>
          && |s.tasks| == |accepted|
          && (forall i :: 1 <= i <= |accepted| ==> Called(s.log, i) == c.endpoints)
          && (forall a :: a in s.log ==> 1 <= a.id <= |accepted| && a.tx == accepted[a.id - 1]))
    && (c.endpoints == [] ==> s.log == [])
  }

  /** At completion everything is delivered, whatever the outcomes of the calls. */
  lemma CompleteDelivery(c: Config, arrivals: seq<Tx>, events: seq<Event>)
    requires Run(c, Init(c, arrivals), events).Some? && Complete(Run(c, Init(c, arrivals), events).value)
    ensures Delivered(c, arrivals, Run(c, Init(c, arrivals), events).value)
  {
    RunKeepsInv(c, arrivals, events);
    var s := Run(c, Init(c, arrivals), events).value;
    CompleteReceived(arrivals, s);
    CompleteCounts(c, s, AcceptedTxs(c.cacheSize, arrivals));
    CompleteCalls(c, s, AcceptedTxs(c.cacheSize, arrivals));
  }

  lemma CompleteReceived(arrivals: seq<Tx>, s: State)
    requires Conserved(arrivals, s) && s.stage.Stopped?
    ensures s.received == arrivals == Checked(s)
  {
    assert s.received + [] + [] == s.received;
  }

  lemma CompleteCounts(c: Config, s: State, accepted: seq<Tx>)
    requires Counted(c, s) && Announces(c, s, accepted) && Complete(s)
    ensures s.permits == c.maxConcurrent && s.broadcasts == (if c.wsBroadcaster then accepted else [])
  {
    NobodyHolds(s.tasks);
    assert s.broadcasts + [] == s.broadcasts;
  }

  lemma CompleteCalls(c: Config, s: State, accepted: seq<Tx>)
    requires Counted(c, s) && Attempted(c, s) && Spawns(c, s, accepted) && Complete(s)
    ensures c.endpoints != [] ==>
              && |s.tasks| == |accepted|
              && (forall i :: 1 <= i <= |accepted| ==> Called(s.log, i) == c.endpoints)
              && (forall a :: a in s.log ==> 1 <= a.id <= |accepted| && a.tx == accepted[a.id - 1])
    ensures c.endpoints == [] ==> s.log == []
  {
    hide Called, TaskTxs, Holding;
    TaskTxsAt(s.tasks);
    assert c.endpoints[..|c.endpoints|] == c.endpoints;
    if c.endpoints == [] {
      ElemsNonEmpty(s.log);
    } else {
      assert TaskTxs(s.tasks) + [] == TaskTxs(s.tasks);
      forall i | 1 <= i <= |accepted| ensures Called(s.log, i) == c.endpoints {
        assert s.tasks[i - 1].next == |c.endpoints|;
      }
    }
  }

  lemma {:induction false} TaskTxsAt(tasks: seq<Task>)
    ensures |TaskTxs(tasks)| == |tasks| && forall i :: 0 <= i < |tasks| ==> TaskTxs(tasks)[i] == tasks[i].tx
  {
    if tasks != [] {
      TaskTxsAt(tasks[..|tasks| - 1]);
    }
  }

  lemma {:induction false} NobodyHolds(tasks: seq<Task>)
    requires forall i :: 0 <= i < |tasks| ==> !tasks[i].holding
    ensures Holding(tasks) == 0
  {
    if tasks != [] {
      NobodyHolds(tasks[..|tasks| - 1]);
    }
  }

  lemma {:induction false} AcceptedHashes(cap: nat, txs: seq<Tx>)
    ensures HashesOf(AcceptedTxs(cap, txs)) == Accepted(cap, HashesOf(txs))
  {
    if txs != [] {
      var g, tx := txs[..|txs| - 1], txs[|txs| - 1];
      AcceptedHashes(cap, g);
      assert HashesOf(txs)[..|HashesOf(g)|] == HashesOf(g);
      var a := AcceptedTxs(cap, g);
      assert (a + [tx])[..|a|] == a && a + [] == a;
    }
  }

  /** With at most cacheSize distinct hashes among the arrivals, each distinct hash is accepted exactly once, in
      first-arrival order. */
  lemma EachHashForwardedOnce(c: Config, arrivals: seq<Tx>)
    requires c.Valid() && |Elems(HashesOf(arrivals))| <= c.cacheSize
    ensures var hashes := HashesOf(AcceptedTxs(c.cacheSize, arrivals));
            && hashes == FirstArrivals(HashesOf(arrivals))
            && NoDup(hashes) && Elems(hashes) == Elems(HashesOf(arrivals))
  {
    AcceptedHashes(c.cacheSize, arrivals);
    FewHashesAcceptedOnce(c.cacheSize, HashesOf(arrivals));
    FirstArrivalsAreDistinct(HashesOf(arrivals));
  }

  /** Without permits nothing accepted is ever delivered: the loop waits for a permit for ever. */
  lemma NoPermitsNoCompletion(c: Config, arrivals: seq<Tx>, events: seq<Event>)
    requires c.maxConcurrent == 0 && c.endpoints != [] && AcceptedTxs(c.cacheSize, arrivals) != []
    requires Run(c, Init(c, arrivals), events).Some?
    ensures !Complete(Run(c, Init(c, arrivals), events).value)
  {
    NoPermitsNoTasks(c, arrivals, events);
    if Complete(Run(c, Init(c, arrivals), events).value) {
      CompleteDelivery(c, arrivals, events);
    }
  }

  lemma NoPermitsNoSpawn(c: Config, s: State, e: Event)
    requires c.maxConcurrent == 0 && Counted(c, s) && s.tasks == [] && Enabled(c, s, e)
    ensures Next(c, s, e).tasks == []
  {
  }

  lemma {:induction false} NoPermitsNoTasks(c: Config, arrivals: seq<Tx>, events: seq<Event>)
    requires c.maxConcurrent == 0 && Run(c, Init(c, arrivals), events).Some?
    ensures Run(c, Init(c, arrivals), events).value.tasks == []
  {
    hide Next, Enabled, Counted, Attempted, FollowsAccepted, Conserved;
    if events != [] {
      var g := events[..|events| - 1];
      NoPermitsNoTasks(c, arrivals, g);
      RunKeepsInv(c, arrivals, g);
      NoPermitsNoSpawn(c, Run(c, Init(c, arrivals), g).value, events[|events| - 1]);
    }
  }

  lemma RunStep(c: Config, s0: State, events: seq<Event>, s: State, e: Event)
    requires Run(c, s0, events) == Some(s) && Enabled(c, s, e)
    ensures Run(c, s0, events + [e]) == Some(Next(c, s, e))
  {
    assert (events + [e])[..|events|] == events;
  }

  // ---------- no step waits without need ----------

  /** A sender can queue whenever the buffer has room; the loop can take what is queued, and stops only when the
      senders are gone; it checks and broadcasts without waiting; it gets a permit at once while fewer than
      maxConcurrent tasks hold one; a task can call its next endpoint, with any outcome, and give its permit back
      after the last, whatever else goes on. */
  lemma StepsNeverWait(c: Config, arrivals: seq<Tx>, events: seq<Event>, s: State)
    requires Run(c, Init(c, arrivals), events) == Some(s)
    ensures s.pending != [] && |s.queue| < c.bufferSize ==>
              Run(c, Init(c, arrivals), events + [Send])
              == Some(s.(pending := s.pending[1..], queue := s.queue + [s.pending[0]]))
    ensures s.stage.Receiving? && s.queue != [] ==>
              Run(c, Init(c, arrivals), events + [Receive])
              == Some(s.(queue := s.queue[1..], received := s.received + [s.queue[0]], stage := Checking(s.queue[0])))
    ensures s.stage.Receiving? && s.queue == [] && s.pending == [] ==>
              Run(c, Init(c, arrivals), events + [Receive]) == Some(s.(stage := Stopped))
    ensures s.stage.Checking? ==>
              match Run(c, Init(c, arrivals), events + [DedupCheck])
              case None => false
              case Some(t) => t.stage == Broadcasting(s.stage.tx) || t.stage == Receiving
    ensures s.stage.Broadcasting? ==>
              match Run(c, Init(c, arrivals), events + [Broadcast])
              case None => false
              case Some(t) =>
                && t.stage == (if c.endpoints == [] then Receiving else Acquiring(s.stage.tx))
                && t.broadcasts == s.broadcasts + if c.wsBroadcaster then [s.stage.tx] else []
    ensures s.stage.Acquiring? && Holding(s.tasks) < c.maxConcurrent ==>
              match Run(c, Init(c, arrivals), events + [Acquire])
              case None => false
              case Some(t) =>
                && Holding(t.tasks) == Holding(s.tasks) + 1 && t.stage == Receiving
                && t.tasks == s.tasks + [Task(|s.tasks| + 1, s.stage.tx, 0, true)]
    ensures forall i, outcome :: 0 <= i < |s.tasks| && s.tasks[i].holding && s.tasks[i].next < |c.endpoints| ==>
              match Run(c, Init(c, arrivals), events + [Call(i, outcome)])
              case None => false
              case Some(t) =>
                t.log == s.log + [Attempt(i + 1, s.tasks[i].tx, c.endpoints[s.tasks[i].next], outcome)]
    ensures forall i :: 0 <= i < |s.tasks| && s.tasks[i].holding && s.tasks[i].next == |c.endpoints| ==>
              match Run(c, Init(c, arrivals), events + [Release(i)])
              case None => false
              case Some(t) => Holding(t.tasks) == Holding(s.tasks) - 1
  {
    RunKeepsInv(c, arrivals, events);
    hide Run, Init, AcceptedTxs, Announces, Spawns, Attempted, Conserved, Holding;
    CanDo(c, arrivals, events, s, Send);
    CanDo(c, arrivals, events, s, Receive);
    CanDo(c, arrivals, events, s, DedupCheck);
    CanDo(c, arrivals, events, s, Broadcast);
    CanDo(c, arrivals, events, s, Acquire);
    if s.stage.Acquiring? && Holding(s.tasks) < c.maxConcurrent {
      HoldingOneMore(s.tasks, Task(s.idCounter + 1, s.stage.tx, 0, true));
    }
    forall i, outcome | 0 <= i < |s.tasks| && s.tasks[i].holding && s.tasks[i].next < |c.endpoints|
      ensures match Run(c, Init(c, arrivals), events + [Call(i, outcome)])
              case None => false
              case Some(t) =>
                t.log == s.log + [Attempt(i + 1, s.tasks[i].tx, c.endpoints[s.tasks[i].next], outcome)]
    {
      CanDo(c, arrivals, events, s, Call(i, outcome));
    }
    forall i | 0 <= i < |s.tasks| && s.tasks[i].holding && s.tasks[i].next == |c.endpoints|
      ensures match Run(c, Init(c, arrivals), events + [Release(i)])
              case None => false
              case Some(t) => Holding(t.tasks) == Holding(s.tasks) - 1
    {
      CanDo(c, arrivals, events, s, Release(i));
      HoldingUpdate(s.tasks, i, s.tasks[i].(holding := false));
    }
  }

  lemma CanDo(c: Config, arrivals: seq<Tx>, events: seq<Event>, s: State, e: Event)
    requires Run(c, Init(c, arrivals), events) == Some(s)
    ensures Enabled(c, s, e) ==> Run(c, Init(c, arrivals), events + [e]) == Some(Next(c, s, e))
  {
    if Enabled(c, s, e) {
      RunStep(c, Init(c, arrivals), events, s, e);
    }
  }

  lemma HoldingOneMore(tasks: seq<Task>, task: Task)
    ensures Holding(tasks + [task]) == Holding(tasks) + if task.holding then 1 else 0
  {
    assert (tasks + [task])[..|tasks|] == tasks;
  }

  lemma {:induction false} AllHold(tasks: seq<Task>)
    requires forall i :: 0 <= i < |tasks| ==> tasks[i].holding
    ensures Holding(tasks) == |tasks|
  {
    if tasks != [] {
      AllHold(tasks[..|tasks| - 1]);
    }
  }

  /** The loop's next step while no task makes one; None when it stopped or must wait for a permit. */
  function LoopStep(s: State): Option<Event> {
    match s.stage
    case Receiving => Some(if s.queue == [] && s.pending != [] then Send else Receive)
    case Checking(_) => Some(DedupCheck)
    case Broadcasting(_) => Some(Broadcast)
    case Acquiring(_) => if s.permits > 0 then Some(Acquire) else None
    case Stopped => None
  }

  lemma {:induction false} LoopRuns(c: Config, arrivals: seq<Tx>, events: seq<Event>, s: State)
    returns (more: seq<Event>, t: State)
    requires c.Valid() && Run(c, Init(c, arrivals), events) == Some(s)
    requires forall i :: 0 <= i < |s.tasks| ==> s.tasks[i].holding
    ensures Run(c, Init(c, arrivals), more) == Some(t) && LoopStep(t).None?
    ensures forall i :: 0 <= i < |t.tasks| ==> t.tasks[i].holding
    decreases Measure(c, s)
  {
    if LoopStep(s).None? {
      more, t := events, s;
    } else {
      var e := LoopStep(s).value;
      RunStep(c, Init(c, arrivals), events, s, e);
      NextLowersMeasure(c, s, e);
      more, t := LoopRuns(c, arrivals, events + [e], Next(c, s, e));
    }
  }

  lemma PrefixSize(c: Config, arrivals: seq<Tx>, s: State)
    requires Conserved(arrivals, s)
    ensures |AcceptedTxs(c.cacheSize, Checked(s))| <= |AcceptedTxs(c.cacheSize, arrivals)|
    ensures s.stage.Stopped? ==> Checked(s) == arrivals
  {
    var rest := arrivals[|Checked(s)|..];
    assert arrivals == s.received + (s.queue + s.pending);
    assert Checked(s) + rest == arrivals;
    AcceptedPrefix(c.cacheSize, Checked(s), rest);
  }

  /** The permits can all be in use at once: some run has as many tasks holding one as there are permits, or as there
      are accepted transactions when these are fewer. */
  lemma AllPermitsInUse(c: Config, arrivals: seq<Tx>) returns (events: seq<Event>, s: State)
    requires c.Valid() && c.endpoints != []
    ensures Run(c, Init(c, arrivals), events) == Some(s)
    ensures var accepted := |AcceptedTxs(c.cacheSize, arrivals)|;
            Holding(s.tasks) == if c.maxConcurrent <= accepted then c.maxConcurrent else accepted
  {
    RunNothing(c, Init(c, arrivals));
    events, s := LoopRuns(c, arrivals, [], Init(c, arrivals));
    hide Run, Init, AcceptedTxs, Announces, Attempted, Holding, TaskTxs;
    RunKeepsInv(c, arrivals, events);
    AllHold(s.tasks);
    TaskTxsAt(s.tasks);
    PrefixSize(c, arrivals, s);
    assert |AcceptedTxs(c.cacheSize, Checked(s))| == |s.tasks| + |InHand(s.stage)|;
    hide Checked, InHand, Conserved;
  }

  // ---------- what the log says of the outcomes ----------

  function LoggedOutcomes(log: seq<Attempt>): seq<Outcome> {
    if log == [] then [] else LoggedOutcomes(log[..|log| - 1]) + [log[|log| - 1].outcome]
  }

  function CallOutcomes(events: seq<Event>): seq<Outcome> {
    if events == [] then []
    else CallOutcomes(events[..|events| - 1])
         + if events[|events| - 1].Call? then [events[|events| - 1].outcome] else []
  }

  /** Every call is logged with its own outcome, in the order of the calls. */
  lemma {:induction false} LogRecordsOutcomes(c: Config, arrivals: seq<Tx>, events: seq<Event>)
    ensures var r := Run(c, Init(c, arrivals), events);
            r.Some? ==> LoggedOutcomes(r.value.log) == CallOutcomes(events)
  {
    if events != [] {
      hide Init, Enabled, IsNew, Dedup.Check;
      var g := events[..|events| - 1];
      LogRecordsOutcomes(c, arrivals, g);
      var r := Run(c, Init(c, arrivals), g);
      if r.Some? && Enabled(c, r.value, events[|g|]) {
        LoggedNext(c, r.value, events[|g|]);
      }
    }
  }

  lemma LoggedNext(c: Config, s: State, e: Event)
    requires Enabled(c, s, e)
    ensures LoggedOutcomes(Next(c, s, e).log) == LoggedOutcomes(s.log) + if e.Call? then [e.outcome] else []
  {
    if e.Call? {
      var t := Next(c, s, e);
      assert t.log[..|s.log|] == s.log;
    } else {
      assert LoggedOutcomes(s.log) + [] == LoggedOutcomes(s.log);
    }
  }

  // ---------- which configurations complete ----------

  ghost predicate Stuck(c: Config, s: State) {
    forall e :: !Enabled(c, s, e)
  }

  /** Every run can be continued until no step is left. */
  lemma {:induction false} RunToStuck(c: Config, s0: State, events: seq<Event>, s: State)
    returns (more: seq<Event>, t: State)
    requires Run(c, s0, events) == Some(s)
    ensures Run(c, s0, more) == Some(t) && Stuck(c, t)
    decreases Measure(c, s)
  {
    if e :| Enabled(c, s, e) {
      RunStep(c, s0, events, s, e);
      NextLowersMeasure(c, s, e);
      more, t := RunToStuck(c, s0, events + [e], Next(c, s, e));
    } else {
      more, t := events, s;
    }
  }

  lemma {:induction false} AcceptedPrefix(cap: nat, txs: seq<Tx>, more: seq<Tx>)
    ensures AcceptedTxs(cap, txs) <= AcceptedTxs(cap, txs + more)
  {
    if more == [] {
      assert txs + more == txs;
    } else {
      var g, tx := more[..|more| - 1], more[|more| - 1];
      assert txs + more == (txs + g) + [tx];
      AcceptedPrefix(cap, txs, g);
      AcceptedStep(cap, txs + g, tx);
    }
  }

  /** A starved loop holds an accepted transaction, and there are endpoints to send it to. */
  lemma StarvedHasAccepted(c: Config, arrivals: seq<Tx>, s: State)
    requires Inv(c, arrivals, s) && Starved(c, s)
    ensures c.endpoints != [] && AcceptedTxs(c.cacheSize, arrivals) != []
  {
    hide AcceptedTxs, TaskTxs, Counted, Attempted, Enabled, Announces, SeenAfter, HashesOf;
    assert arrivals == s.received + (s.queue + s.pending);
    AcceptedPrefix(c.cacheSize, s.received, s.queue + s.pending);
    assert Checked(s) == s.received && InHand(s.stage) == [s.stage.tx];
    hide Checked, InHand;
  }

  /** All runs from these arrivals end complete if and only if there is a permit, or no endpoint, or nothing among
      the arrivals to accept. */
  lemma CompletesIff(c: Config, arrivals: seq<Tx>)
    requires c.Valid()
    ensures (forall events :: var r := Run(c, Init(c, arrivals), events);
                              r.Some? && Stuck(c, r.value) ==> Complete(r.value))
            <==> c.maxConcurrent >= 1 || c.endpoints == [] || AcceptedTxs(c.cacheSize, arrivals) == []
  {
    hide Run, Init, Next, Enabled, Inv, Complete, AcceptedTxs, Measure;
    if c.maxConcurrent >= 1 || c.endpoints == [] || AcceptedTxs(c.cacheSize, arrivals) == [] {
      forall events | Run(c, Init(c, arrivals), events).Some? && Stuck(c, Run(c, Init(c, arrivals), events).value)
        ensures Complete(Run(c, Init(c, arrivals), events).value)
      {
        var s := Run(c, Init(c, arrivals), events).value;
        RunKeepsInv(c, arrivals, events);
        if Starved(c, s) {
          StarvedHasAccepted(c, arrivals, s);
        } else if !Complete(s) {
          var e := NextStep(c, arrivals, s);
        }
      }
    } else {
      RunNothing(c, Init(c, arrivals));
      var more, t := RunToStuck(c, Init(c, arrivals), [], Init(c, arrivals));
      NoPermitsNoCompletion(c, arrivals, more);
    }
  }

  lemma RunNothing(c: Config, s: State)
    ensures Run(c, s, []) == Some(s)
  {
  }

  /** From position k on, each step is the one the scheduler names for it, whenever that one can be taken. */
  ghost predicate Obeys(c: Config, s0: State, events: seq<Event>, k: nat, schedule: nat -> Event) {
    forall i :: k <= i < |events| ==>
                  match Run(c, s0, events[..i])
                  case None => false
                  case Some(s) => Enabled(c, s, schedule(i - k)) ==> events[i] == schedule(i - k)
  }

  lemma ObeysNothing(c: Config, s0: State, events: seq<Event>, schedule: nat -> Event)
    ensures Obeys(c, s0, events, |events|, schedule)
  {
  }

  lemma ObeysStep(c: Config, s0: State, events: seq<Event>, k: nat, schedule: nat -> Event, s: State, e: Event)
    requires k <= |events| && Obeys(c, s0, events, k, schedule) && Run(c, s0, events) == Some(s)
    requires Enabled(c, s, schedule(|events| - k)) ==> e == schedule(|events| - k)
    ensures Obeys(c, s0, events + [e], k, schedule)
  {
    hide Run, Enabled;
    forall i | k <= i < |events| + 1
      ensures match Run(c, s0, (events + [e])[..i])
              case None => false
              case Some(t) => Enabled(c, t, schedule(i - k)) ==> (events + [e])[i] == schedule(i - k)
    {
      assert (events + [e])[..i] == events[..i];
      assert events[..|events|] == events;
    }
  }

  lemma AllPermitsBack(c: Config, arrivals: seq<Tx>, events: seq<Event>, s: State)
    requires Run(c, Init(c, arrivals), events) == Some(s) && forall i :: 0 <= i < |s.tasks| ==> !s.tasks[i].holding
    ensures s.permits == c.maxConcurrent
  {
    RunKeepsInv(c, arrivals, events);
    NobodyHolds(s.tasks);
  }

  // ---------- the forwarder object ----------

  /** The state of the loop, its queue and its tasks, changed in place one step at a time; `events` are the steps
      taken since the start. */
  class TxForwarder {
    const config: Config
    const dedup: TxDedup
    var pending: seq<Tx>
    var queue: seq<Tx>
    var stage: Stage
    var broadcasts: seq<Tx>
    var idCounter: nat
    var permits: nat
    var tasks: seq<Task>
    var log: seq<Attempt>
    ghost const arrivals: seq<Tx>
    ghost var received: seq<Tx>
    ghost var events: seq<Event>

    /** The object stands where the steps taken so far lead from its arrivals. */
    ghost predicate Valid()
      reads this, dedup, dedup.cache
    {
      && config.Valid()
      && dedup.Valid() && dedup.cache.cap == config.cacheSize
      && Run(config, Init(config, arrivals), events) == Some(View())
    }

    ghost function View(): State
      reads this, dedup.cache
    {
      State(pending, queue, received, stage, dedup.cache.View(), broadcasts, idCounter, permits, tasks, log)
    }

    constructor (config: Config, arrivals: seq<Tx>)
      requires config.Valid()
      ensures Valid() && fresh(dedup) && fresh(dedup.cache) && this.config == config && this.arrivals == arrivals
      ensures View() == Init(config, arrivals)
    {
      this.config, this.arrivals := config, arrivals;
      dedup := new TxDedup(config.cacheSize);
      pending, queue, stage := arrivals, [], Receiving;
      broadcasts, idCounter, permits, tasks, log := [], 0, config.maxConcurrent, [], [];
      received, events := [], [];
    }

    /** A sender queues its transaction. */
    method QueueNext()
      requires Valid() && Enabled(config, View(), Send)
      modifies this
      ensures Valid() && View() == Next(config, old(View()), Send) && events == old(events) + [Send]
    {
      hide Run, Init;
      RunStep(config, Init(config, arrivals), events, View(), Send);
      events := events + [Send];
      queue := queue + [pending[0]];
      pending := pending[1..];
    }

    /** The loop takes the next transaction, or stops when the senders are gone and the queue is empty. */
    method TakeNext()
      requires Valid() && Enabled(config, View(), Receive)
      modifies this
      ensures Valid() && View() == Next(config, old(View()), Receive) && events == old(events) + [Receive]
    {
      hide Run, Init;
      RunStep(config, Init(config, arrivals), events, View(), Receive);
      events := events + [Receive];
      if queue == [] {
        stage := Stopped;
      } else {
        received := received + [queue[0]];
        stage := Checking(queue[0]);
        queue := queue[1..];
      }
    }

    /** The loop skips a duplicate and goes on with a new transaction. */
    method Deduplicate()
      requires Valid() && Enabled(config, View(), DedupCheck)
      modifies this, dedup, dedup.cache
      ensures Valid() && View() == Next(config, old(View()), DedupCheck) && events == old(events) + [DedupCheck]
    {
      hide Run, Init, IsNew, Dedup.Check, SeenAfter, Since, Dedup.Accepted, TxDedup.Valid;
      RunStep(config, Init(config, arrivals), events, View(), DedupCheck);
      var tx := stage.tx;
      var isNew := dedup.CheckAndInsert(tx.hash);
      stage := if isNew then Broadcasting(tx) else Receiving;
      events := events + [DedupCheck];
    }

    method BroadcastTx()
      requires Valid() && Enabled(config, View(), Broadcast)
      modifies this
      ensures Valid() && View() == Next(config, old(View()), Broadcast) && events == old(events) + [Broadcast]
    {
      hide Run, Init;
      RunStep(config, Init(config, arrivals), events, View(), Broadcast);
      events := events + [Broadcast];
      var tx := stage.tx;
      assert broadcasts + [] == broadcasts;
      if config.wsBroadcaster {
        broadcasts := broadcasts + [tx];
      }
      if config.endpoints == [] {
        stage := Receiving;
      } else {
        stage := Acquiring(tx);
      }
    }

    /** The loop takes a permit, numbers the request and spawns its task. */
    method AcquireAndSpawn()
      requires Valid() && Enabled(config, View(), Acquire)
      modifies this
      ensures Valid() && View() == Next(config, old(View()), Acquire) && events == old(events) + [Acquire]
    {
      hide Run, Init;
      RunStep(config, Init(config, arrivals), events, View(), Acquire);
      events := events + [Acquire];
      permits := permits - 1;
      idCounter := idCounter + 1;
      tasks := tasks + [Task(idCounter, stage.tx, 0, true)];
      stage := Receiving;
    }

    /** Task t calls its next endpoint; the outcome is only logged. */
    method CallEndpoint(t: nat, outcome: Outcome)
      requires Valid() && Enabled(config, View(), Call(t, outcome))
      modifies this
      ensures Valid() && View() == Next(config, old(View()), Call(t, outcome))
              && events == old(events) + [Call(t, outcome)]
    {
      hide Run, Init;
      RunStep(config, Init(config, arrivals), events, View(), Call(t, outcome));
      events := events + [Call(t, outcome)];
      var task := tasks[t];
      log := log + [Attempt(task.id, task.tx, config.endpoints[task.next], outcome)];
      tasks := tasks[t := task.(next := task.next + 1)];
    }

    /** Task t is past the last endpoint and drops its permit. */
    method DropPermit(t: nat)
      requires Valid() && Enabled(config, View(), Release(t))
      modifies this
      ensures Valid() && View() == Next(config, old(View()), Release(t)) && events == old(events) + [Release(t)]
    {
      hide Run, Init;
      RunStep(config, Init(config, arrivals), events, View(), Release(t));
      events := events + [Release(t)];
      tasks := tasks[t := tasks[t].(holding := false)];
      permits := permits + 1;
    }

    method CanTake(e: Event) returns (b: bool)
      ensures b == Enabled(config, View(), e)
    {
      match e
      case Send => b := pending != [] && |queue| < config.bufferSize;
      case Receive => b := stage.Receiving? && (queue != [] || pending == []);
      case DedupCheck => b := stage.Checking?;
      case Broadcast => b := stage.Broadcasting?;
      case Acquire => b := stage.Acquiring? && permits > 0;
      case Call(t, _) => b := t < |tasks| && tasks[t].holding && tasks[t].next < |config.endpoints|;
      case Release(t) => b := t < |tasks| && tasks[t].holding && tasks[t].next >= |config.endpoints|;
    }

    method Take(e: Event)
      requires Valid() && Enabled(config, View(), e)
      modifies this, dedup, dedup.cache
      ensures Valid() && View() == Next(config, old(View()), e) && events == old(events) + [e]
    {
      match e
      case Send => QueueNext();
      case Receive => TakeNext();
      case DedupCheck => Deduplicate();
      case Broadcast => BroadcastTx();
      case Acquire => AcquireAndSpawn();
      case Call(t, outcome) => CallEndpoint(t, outcome);
      case Release(t) => DropPermit(t);
    }

    /** Some step that can be taken, if there is one. */
    method FindStep() returns (e: Option<Event>)
      requires Valid()
      ensures e.Some? ==> Enabled(config, View(), e.value)
      ensures e.None? ==> Complete(View()) || Starved(config, View())
    {
      hide Run, Init;
      var i := 0;
      while i < |tasks| && !tasks[i].holding
        invariant i <= |tasks| && forall j :: 0 <= j < i ==> !tasks[j].holding
      {
        i := i + 1;
      }
      if i < |tasks| {
        e := Some(if tasks[i].next < |config.endpoints| then Call(i, Forwarded) else Release(i));
        return;
      }
      AllPermitsBack(config, arrivals, events, View());
      match stage
      case Receiving => e := Some(if queue != [] || pending == [] then Receive else Send);
      case Checking(_) => e := Some(DedupCheck);
      case Broadcasting(_) => e := Some(Broadcast);
      case Acquiring(_) =>
        e := if permits > 0 then Some(Acquire)
             else if pending != [] && |queue| < config.bufferSize then Some(Send)
             else None;
      case Stopped => e := None;
    }

    /** Takes the preferred step if it can be taken, and the other one if not. */
    method TakeEither(preferred: Event, other: Event) returns (e: Event)
      requires Valid() && Enabled(config, View(), other)
      modifies this, dedup, dedup.cache
      ensures Valid() && events == old(events) + [e]
      ensures Enabled(config, old(View()), e) && (Enabled(config, old(View()), preferred) ==> e == preferred)
      ensures View() == Next(config, old(View()), e)
    {
      hide Run, Init, Next, Enabled;
      var ok := CanTake(preferred);
      e := if ok then preferred else other;
      Take(e);
    }

    /** Runs to the end under any scheduler and any outcomes of the calls: a step the scheduler names is taken when
        it can be, and another one otherwise. The run ends, and with at least one permit it ends complete. */
    method ForwardAll(schedule: nat -> Event)
      requires Valid()
      modifies this, dedup, dedup.cache
      ensures Valid() && old(events) <= events
      ensures Obeys(config, Init(config, arrivals), events, |old(events)|, schedule)
      ensures if config.maxConcurrent >= 1 then Complete(View()) else Complete(View()) || Starved(config, View())
      ensures Complete(View()) ==> Delivered(config, arrivals, View())
    {
      hide Run, Init, Inv, Measure, Next, Enabled, Complete, Delivered, Obeys;
      RunKeepsInv(config, arrivals, events);
      ObeysNothing(config, Init(config, arrivals), events, schedule);
      var n: nat := 0;
      var next := FindStep();
      while next.Some?
        invariant Valid() && Inv(config, arrivals, View()) && old(events) <= events
        invariant n == |events| - |old(events)|
        invariant Obeys(config, Init(config, arrivals), events, |old(events)|, schedule)
        invariant if next.Some? then Enabled(config, View(), next.value)
                  else Complete(View()) || Starved(config, View())
        decreases Measure(config, View())
      {
        ghost var s, before := View(), events;
        var e := TakeEither(schedule(n), next.value);
        NextLowersMeasure(config, s, e);
        NextKeepsInv(config, arrivals, s, e);
        ObeysStep(config, Init(config, arrivals), before, |old(events)|, schedule, s, e);
        n := n + 1;
        next := FindStep();
      }
      if Complete(View()) {
        CompleteDelivery(config, arrivals, events);
      }
    }
  }
}
