/** Transaction deduplication: an LRU set of hashes and three counters. */
module Dedup {
  import opened Recency
  import opened LruMap
  import opened Types

  type Seen = Lru<B256, ()>

  predicate IsNew(c: Seen, h: B256) {
    h !in c.vals
  }

  /** The locked section of one call. */
  function Check(c: Seen, h: B256): Seen {
    if h in c.vals then c.Touch(h) else c.Push(h, ())
  }

  function SeenAfter(cap: nat, history: seq<B256>): Seen {
    if history == [] then Fresh(cap)
    else Check(SeenAfter(cap, history[..|history| - 1]), history[|history| - 1])
  }

  /** The arrivals answered "new", in order. */
  function Accepted(cap: nat, history: seq<B256>): seq<B256> {
    if history == [] then []
    else
      var g, h := history[..|history| - 1], history[|history| - 1];
      Accepted(cap, g) + if IsNew(SeenAfter(cap, g), h) then [h] else []
  }

  /** The cache is always the last cap distinct hashes in recency order. */
  lemma {:induction false} SeenIsRecent(cap: nat, history: seq<B256>)
    requires 1 <= cap
    ensures SeenAfter(cap, history).Valid() && SeenAfter(cap, history).cap == cap
    ensures SeenAfter(cap, history).order == Take(Recent(history), cap)
  {
    if history != [] {
      var g, h := history[..|history| - 1], history[|history| - 1];
      SeenIsRecent(cap, g);
      RecentIsHistory(g);
      TakeBump(Recent(g), cap, h);
      var c := SeenAfter(cap, g);
      if h in c.vals {
        TouchFacts(c, h);
      } else {
        PushValid(c, h, ());
      }
    }
  }

  /** A call answers "new" iff its hash never occurred, or at least cap distinct other hashes followed
      its last occurrence. */
  lemma NewIffStackDistance(cap: nat, history: seq<B256>, h: B256)
    requires 1 <= cap
    ensures IsNew(SeenAfter(cap, history), h) <==> h !in history || |Since(history, h)| >= cap
  {
    var c := SeenAfter(cap, history);
    SeenIsRecent(cap, history);
    StackDistance(history, cap, h);
    assert h in Elems(c.order) <==> h in c.vals;
  }

  /** Inclusion: a smaller cache holds a recency prefix of a larger one, so it accepts every arrival the
      larger one accepts and its unique count is never smaller. */
  lemma {:induction false} SmallerCacheAcceptsMore(small: nat, large: nat, history: seq<B256>)
    requires 1 <= small <= large
    ensures SeenAfter(small, history).order <= SeenAfter(large, history).order
    ensures forall h :: IsNew(SeenAfter(large, history), h) ==> IsNew(SeenAfter(small, history), h)
    ensures |Accepted(large, history)| <= |Accepted(small, history)|
  {
    SeenIsRecent(small, history);
    SeenIsRecent(large, history);
    var s, l := SeenAfter(small, history), SeenAfter(large, history);
    forall h | IsNew(l, h) ensures IsNew(s, h) {
      assert h in s.vals <==> h in Elems(s.order);
      assert h in l.vals <==> h in Elems(l.order);
    }
    if history != [] {
      SmallerCacheAcceptsMore(small, large, history[..|history| - 1]);
    }
  }

  function FirstArrivals(history: seq<B256>): seq<B256> {
    if history == [] then []
    else
      var g, h := history[..|history| - 1], history[|history| - 1];
      FirstArrivals(g) + if h in g then [] else [h]
  }

  /** With at most cap distinct hashes in all, exactly the first arrivals are accepted. */
  lemma {:induction false} FewHashesAcceptedOnce(cap: nat, history: seq<B256>)
    requires 1 <= cap && |Elems(history)| <= cap
    ensures Accepted(cap, history) == FirstArrivals(history)
  {
    if history != [] {
      var g, h := history[..|history| - 1], history[|history| - 1];
      assert history == g + [h];
      SubsetCard(Elems(g), Elems(history));
      FewHashesAcceptedOnce(cap, g);
      NewIffStackDistance(cap, g, h);
      if h in g {
        assert Since(g, h) <= Elems(history) - {h};
        SubsetCard(Since(g, h), Elems(history) - {h});
      }
    }
  }

  lemma {:induction false} FirstArrivalsAreDistinct(history: seq<B256>)
    ensures NoDup(FirstArrivals(history)) && Elems(FirstArrivals(history)) == Elems(history)
  {
    if history != [] {
      var g, h := history[..|history| - 1], history[|history| - 1];
      FirstArrivalsAreDistinct(g);
      assert history == g + [h];
      assert h in g <==> h in Elems(FirstArrivals(g));
      assert Elems(history) == Elems(g) + {h};
    }
  }

  /** The deduplicator. `history` records the hashes of all calls so far. */
  class TxDedup {
    const cache: LruCache<B256, ()>
    var total: nat
    var duplicates: nat
    var unique: nat
    ghost var history: seq<B256>

    ghost predicate Valid()
      reads this, cache
    {
      && cache.Valid()
      && cache.View() == SeenAfter(cache.cap, history)
      && total == |history| == unique + duplicates
      && unique == |Accepted(cache.cap, history)|
    }

    constructor (cacheSize: nat)
      requires cacheSize > 0
      ensures Valid() && fresh(cache) && history == [] && cache.cap == cacheSize
    {
      cache := new LruCache(cacheSize);
      total, duplicates, unique := 0, 0, 0;
      history := [];
    }

    method CheckAndInsert(hash: B256) returns (isNew: bool)
      requires Valid()
      modifies this, cache
      ensures Valid() && history == old(history) + [hash]
      ensures isNew <==> hash !in old(history) || |Since(old(history), hash)| >= cache.cap
      ensures isNew == IsNew(old(cache.View()), hash) && cache.View() == Check(old(cache.View()), hash)
      ensures unique == old(unique) + (if isNew then 1 else 0)
      ensures duplicates == old(duplicates) + (if isNew then 0 else 1)
    {
      NewIffStackDistance(cache.cap, history, hash);
      total := total + 1;
      var seen := cache.Contains(hash);
      if seen {
        cache.Promote(hash);
        isNew := false;
      } else {
        cache.Push(hash, ());
        isNew := true;
      }
      if isNew {
        unique := unique + 1;
      } else {
        duplicates := duplicates + 1;
      }
      history := history + [hash];
      assert history[..|history| - 1] == old(history);
    }
  }
}

/** Many concurrent calls of CheckAndInsert, interleaved at its atomic steps. */
module DedupConcurrency {
  import opened Recency
  import opened LruMap
  import opened Types
  import opened Dedup

  /** Where one call stands: not begun, counted in total, answered by the locked section, or returned. */
  datatype Call =
    | Ready(hash: B256)
    | Counted(hash: B256)
    | Answered(hash: B256, isNew: bool)
    | Returned(hash: B256, isNew: bool)

  /** One locked section: which call ran it, for which hash, and its answer. */
  datatype Section = Section(call: nat, hash: B256, isNew: bool)

  /** The shared state; `log` lists the locked sections in the order they ran. */
  datatype State = State(calls: seq<Call>, cache: Seen, total: nat, unique: nat, duplicates: nat, log: seq<Section>)

  function Start(cap: nat, hashes: seq<B256>): State {
    State(seq(|hashes|, i requires 0 <= i < |hashes| => Ready(hashes[i])), Fresh(cap), 0, 0, 0, [])
  }

  /** The next atomic step of call i; a returned call does nothing more. */
  function Step(s: State, i: nat): State {
    if i >= |s.calls| then s else
    match s.calls[i]
    case Ready(h) => s.(calls := s.calls[i := Counted(h)], total := s.total + 1)
    case Counted(h) =>
      var isNew := IsNew(s.cache, h);
      s.(calls := s.calls[i := Answered(h, isNew)], cache := Check(s.cache, h), log := s.log + [Section(i, h, isNew)])
    case Answered(h, true) => s.(calls := s.calls[i := Returned(h, true)], unique := s.unique + 1)
    case Answered(h, false) => s.(calls := s.calls[i := Returned(h, false)], duplicates := s.duplicates + 1)
    case Returned(_, _) => s
  }

  function Run(s: State, schedule: seq<nat>): State {
    if schedule == [] then s else Step(Run(s, schedule[..|schedule| - 1]), schedule[|schedule| - 1])
  }

  predicate Locked(c: Call) {
    c.Answered? || c.Returned?
  }

  /** How many calls stand where p says. */
  function CountIf(calls: seq<Call>, p: Call -> bool): nat {
    if calls == [] then 0 else CountIf(calls[..|calls| - 1], p) + if p(calls[|calls| - 1]) then 1 else 0
  }

  function InFlight(): Call -> bool {
    (c: Call) => c.Counted? || c.Answered?
  }

  function Returns(isNew: bool): Call -> bool {
    (c: Call) => c.Returned? && c.isNew == isNew
  }

  function Answers(isNew: bool): Call -> bool {
    (c: Call) => Locked(c) && c.isNew == isNew
  }

  function Flying(calls: seq<Call>): nat {
    CountIf(calls, InFlight())
  }

  /** The calls that returned this answer. */
  function ReturnedWith(calls: seq<Call>, isNew: bool): nat {
    CountIf(calls, Returns(isNew))
  }

  /** The calls answered with this, returned or not. */
  function AnsweredWith(calls: seq<Call>, isNew: bool): nat {
    CountIf(calls, Answers(isNew))
  }

  lemma {:induction false} CountUpdate(calls: seq<Call>, i: nat, c: Call, p: Call -> bool)
    requires i < |calls|
    ensures CountIf(calls[i := c], p) == CountIf(calls, p) - (if p(calls[i]) then 1 else 0) + (if p(c) then 1 else 0)
  {
    var n := |calls| - 1;
    if i < n {
      assert calls[i := c][..n] == calls[..n][i := c];
      CountUpdate(calls[..n], i, c, p);
    } else {
      assert calls[i := c][..n] == calls[..n];
    }
  }

  lemma {:induction false} CountNone(calls: seq<Call>, p: Call -> bool)
    requires forall c :: c in calls ==> !p(c)
    ensures CountIf(calls, p) == 0
  {
    if calls != [] {
      assert calls[|calls| - 1] in calls;
      CountNone(calls[..|calls| - 1], p);
    }
  }

  /** With nothing in flight every answered call has returned. */
  lemma {:induction false} LandedCalls(calls: seq<Call>, isNew: bool)
    ensures AnsweredWith(calls, isNew) <= ReturnedWith(calls, isNew) + Flying(calls)
    ensures ReturnedWith(calls, isNew) <= AnsweredWith(calls, isNew)
  {
    if calls != [] {
      LandedCalls(calls[..|calls| - 1], isNew);
    }
  }

  function Hashes(log: seq<Section>): (r: seq<B256>)
    ensures |r| == |log|
  {
    seq(|log|, p requires 0 <= p < |log| => log[p].hash)
  }

  /** Every answer in the log is the sequential one for its place in the log. */
  ghost predicate Sequential(cap: nat, log: seq<Section>) {
    forall p :: 0 <= p < |log| ==> (log[p].isNew <==> IsNew(SeenAfter(cap, Hashes(log)[..p]), log[p].hash))
  }

  /** The log holds exactly the calls whose locked section has run, each once and with its answer. */
  ghost predicate LogMatches(calls: seq<Call>, log: seq<Section>) {
    && (forall p :: 0 <= p < |log| ==>
          && log[p].call < |calls|
          && Locked(calls[log[p].call])
          && calls[log[p].call].hash == log[p].hash
          && calls[log[p].call].isNew == log[p].isNew)
    && (forall p, q :: 0 <= p < q < |log| ==> log[p].call != log[q].call)
    && (forall i :: 0 <= i < |calls| && Locked(calls[i]) ==> exists p :: 0 <= p < |log| && log[p].call == i)
  }

  /** The sections that answered "new". */
  function NewSections(log: seq<Section>): nat {
    if log == [] then 0 else NewSections(log[..|log| - 1]) + if log[|log| - 1].isNew then 1 else 0
  }

  /** Each counter counts the calls that got there. */
  ghost predicate Tallied(s: State) {
    && s.unique == ReturnedWith(s.calls, true)
    && s.duplicates == ReturnedWith(s.calls, false)
    && s.total == s.unique + s.duplicates + Flying(s.calls)
    && NewSections(s.log) == AnsweredWith(s.calls, true)
  }

  lemma StepTallied(s: State, i: nat)
    requires Tallied(s) && i < |s.calls|
    ensures Tallied(Step(s, i))
  {
    var c, t := s.calls[i], Step(s, i);
    assert t.calls == s.calls[i := t.calls[i]];
    CountUpdate(s.calls, i, t.calls[i], InFlight());
    CountUpdate(s.calls, i, t.calls[i], Returns(true));
    CountUpdate(s.calls, i, t.calls[i], Returns(false));
    CountUpdate(s.calls, i, t.calls[i], Answers(true));
    hide CountIf, IsNew, Check;
    assert c.Counted? ==> t.log[..|s.log|] == s.log;
  }

  lemma {:induction false} AcceptedSections(cap: nat, log: seq<Section>)
    requires Sequential(cap, log)
    ensures |Accepted(cap, Hashes(log))| == NewSections(log)
  {
    if log != [] {
      var n := |log| - 1;
      var g := log[..n];
      assert Hashes(log)[..n] == Hashes(g);
      forall p | 0 <= p < n ensures g[p].isNew <==> IsNew(SeenAfter(cap, Hashes(g)[..p]), g[p].hash) {
        assert Hashes(g)[..p] == Hashes(log)[..p];
      }
      AcceptedSections(cap, g);
    }
  }

  ghost predicate Inv(cap: nat, hashes: seq<B256>, s: State) {
    && |s.calls| == |hashes|
    && (forall i :: 0 <= i < |hashes| ==> s.calls[i].hash == hashes[i])
    && Tallied(s)
    && LogMatches(s.calls, s.log)
    && s.cache == SeenAfter(cap, Hashes(s.log))
    && Sequential(cap, s.log)
  }

  lemma LockKeepsSequential(cap: nat, log: seq<Section>, e: Section)
    requires Sequential(cap, log) && (e.isNew <==> IsNew(SeenAfter(cap, Hashes(log)), e.hash))
    ensures Sequential(cap, log + [e])
    ensures SeenAfter(cap, Hashes(log + [e])) == Check(SeenAfter(cap, Hashes(log)), e.hash)
  {
    var hs := Hashes(log + [e]);
    assert hs == Hashes(log) + [e.hash];
    assert hs[..|log|] == Hashes(log);
    forall p | 0 <= p < |log|
      ensures log[p].isNew <==> IsNew(SeenAfter(cap, hs[..p]), log[p].hash)
    {
      assert hs[..p] == Hashes(log)[..p];
    }
  }

  lemma LockKeepsMatch(calls: seq<Call>, log: seq<Section>, i: nat, isNew: bool)
    requires LogMatches(calls, log) && i < |calls| && calls[i].Counted?
    ensures LogMatches(calls[i := Answered(calls[i].hash, isNew)], log + [Section(i, calls[i].hash, isNew)])
  {
    var log2 := log + [Section(i, calls[i].hash, isNew)];
    assert log2[|log|].call == i;
    forall j | 0 <= j < |calls| && Locked(calls[j]) ensures exists p :: 0 <= p < |log2| && log2[p].call == j {
      var p :| 0 <= p < |log| && log[p].call == j;
      assert log2[p].call == j;
    }
  }

  lemma QuietStepKeepsMatch(calls: seq<Call>, log: seq<Section>, i: nat, c: Call)
    requires LogMatches(calls, log) && i < |calls|
    requires Locked(c) == Locked(calls[i]) && c.hash == calls[i].hash
    requires Locked(c) ==> c.isNew == calls[i].isNew
    ensures LogMatches(calls[i := c], log)
  {
  }

  lemma StepKeepsInv(cap: nat, hashes: seq<B256>, s: State, i: nat)
    requires Inv(cap, hashes, s)
    ensures Inv(cap, hashes, Step(s, i))
  {
    if i < |s.calls| {
      var c := s.calls[i];
      StepTallied(s, i);
      match c
      case Ready(h) => QuietStepKeepsMatch(s.calls, s.log, i, Counted(h));
      case Counted(h) =>
        LockKeepsSequential(cap, s.log, Section(i, h, IsNew(s.cache, h)));
        LockKeepsMatch(s.calls, s.log, i, IsNew(s.cache, h));
      case Answered(h, b) => QuietStepKeepsMatch(s.calls, s.log, i, Returned(h, b));
      case Returned(_, _) =>
    }
  }

  lemma {:induction false} RunKeepsInv(cap: nat, hashes: seq<B256>, schedule: seq<nat>)
    ensures Inv(cap, hashes, Run(Start(cap, hashes), schedule))
  {
    if schedule == [] {
      var calls := Start(cap, hashes).calls;
      assert forall c :: c in calls ==> c.Ready?;
      CountNone(calls, InFlight());
      CountNone(calls, Returns(true));
      CountNone(calls, Returns(false));
      CountNone(calls, Answers(true));
    } else {
      RunKeepsInv(cap, hashes, schedule[..|schedule| - 1]);
      StepKeepsInv(cap, hashes, Run(Start(cap, hashes), schedule[..|schedule| - 1]), schedule[|schedule| - 1]);
    }
  }

  /** In every interleaving: unique counts the calls that returned "new" and duplicates those that returned "seen",
      total = unique + duplicates + calls in flight, and the answers given are those of the calls made one after
      another in the order of their locked sections. With no call in flight unique is the number of hashes those
      calls accept. */
  lemma CountersAndAnswers(cap: nat, hashes: seq<B256>, schedule: seq<nat>)
    requires 1 <= cap
    ensures var s := Run(Start(cap, hashes), schedule);
            && s.unique == ReturnedWith(s.calls, true) && s.duplicates == ReturnedWith(s.calls, false)
            && s.total == s.unique + s.duplicates + Flying(s.calls)
            && (Flying(s.calls) == 0 ==> s.unique == |Accepted(cap, Hashes(s.log))|)
            && |s.calls| == |hashes|
            && (forall i :: 0 <= i < |hashes| ==> s.calls[i].hash == hashes[i])
            && LogMatches(s.calls, s.log)
            && forall p :: 0 <= p < |s.log| ==>
                 var before := Hashes(s.log)[..p];
                 s.log[p].isNew <==> s.log[p].hash !in before || |Since(before, s.log[p].hash)| >= cap
  {
    RunKeepsInv(cap, hashes, schedule);
    var s := Run(Start(cap, hashes), schedule);
    AcceptedSections(cap, s.log);
    LandedCalls(s.calls, true);
    forall p | 0 <= p < |s.log|
      ensures var before := Hashes(s.log)[..p];
              s.log[p].isNew <==> s.log[p].hash !in before || |Since(before, s.log[p].hash)| >= cap
    {
      NewIffStackDistance(cap, Hashes(s.log)[..p], s.log[p].hash);
    }
  }

  /** The own steps a call still needs. */
  function StepsLeft(c: Call): nat {
    match c
    case Ready(_) => 3
    case Counted(_) => 2
    case Answered(_, _) => 1
    case Returned(_, _) => 0
  }

  function OwnSteps(schedule: seq<nat>, i: nat): nat {
    if schedule == [] then 0
    else OwnSteps(schedule[..|schedule| - 1], i) + if schedule[|schedule| - 1] == i then 1 else 0
  }

  /** Every call returns with its third step, whatever the others do in between. */
  lemma {:induction false} EveryCallReturns(cap: nat, hashes: seq<B256>, schedule: seq<nat>, i: nat)
    requires i < |hashes|
    ensures var calls := Run(Start(cap, hashes), schedule).calls;
            && |calls| == |hashes|
            && StepsLeft(calls[i]) == (if OwnSteps(schedule, i) <= 3 then 3 - OwnSteps(schedule, i) else 0)
            && (OwnSteps(schedule, i) >= 3 ==> calls[i].Returned? && calls[i].hash == hashes[i])
  {
    RunKeepsInv(cap, hashes, schedule);
    hide Inv, IsNew, Check;
    if schedule != [] {
      EveryCallReturns(cap, hashes, schedule[..|schedule| - 1], i);
    }
    CallsKept(cap, hashes, Run(Start(cap, hashes), schedule));
  }

  lemma CallsKept(cap: nat, hashes: seq<B256>, s: State)
    requires Inv(cap, hashes, s)
    ensures |s.calls| == |hashes| && forall i :: 0 <= i < |hashes| ==> s.calls[i].hash == hashes[i]
  {
  }
}
