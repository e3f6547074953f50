/** The whole GetBlockBodies branch: the first resolve, then the filter, fetch and merge. Its steps are the handler's
    locked sections, so block imports can also fall within the resolve and between it and the filter pass. */
module BodyResolve {
  import opened Recency
  import opened LruMap
  import opened Types
  import opened BodyMerge
  import opened BodyAlignment
  import opened BodyRequests

  /** The requested hashes, and the outcome of the network call for a list of missing hashes. */
  datatype Query = Query(request: seq<B256>, peer: seq<B256> -> Option<seq<Body>>)
  {
    function WithPartial(partial: seq<Body>): Job {
      Job(request, peer, partial)
    }
  }

  datatype Branch =
    | Resolving(bodies: Bodies, i: nat, partial: seq<Body>)
    | Answered(bodies: Bodies, response: seq<Body>)
    | Proxying(partial: seq<Body>, inner: Machine)

  function Begin(b: Bodies): Branch {
    Resolving(b, 0, [])
  }

  /** The handler's next step; a request found whole by the resolve is answered at once. */
  function Advance(q: Query, s: Branch): Branch {
    match s
    case Resolving(b, i, partial) =>
      if i < |q.request| then
        var h := q.request[i];
        Resolving(b.Touch(h), i + 1, partial + if h in b.vals then [b.vals[h]] else [])
      else if |partial| == |q.request| && |q.request| > 0 then Answered(b, partial)
      else Proxying(partial, Start(b))
    case Answered(_, _) => s
    case Proxying(partial, m) => Proxying(partial, Handler(q.WithPartial(partial), m))
  }

  function Imports(s: Branch, k: B256, x: Body): Branch {
    match s
    case Resolving(b, i, partial) => Resolving(b.Push(k, x), i, partial)
    case Answered(b, response) => Answered(b.Push(k, x), response)
    case Proxying(partial, m) => Proxying(partial, m.(bodies := m.bodies.Push(k, x)))
  }

  function After(q: Query, s: Branch, steps: seq<Step>): Branch {
    if steps == [] then s
    else
      var t := After(q, s, steps[..|steps| - 1]);
      match steps[|steps| - 1]
      case Handle => Advance(q, t)
      case Import(k, x) => Imports(t, k, x)
  }

  /** The hash a resolve step looks up in vain. */
  function MissedAt(q: Query, s: Branch): seq<B256> {
    if s.Resolving? && s.i < |q.request| && q.request[s.i] !in s.bodies.vals then [q.request[s.i]] else []
  }

  /** The hashes the resolve did not find. */
  function ResolveMisses(q: Query, s: Branch, steps: seq<Step>): seq<B256> {
    if steps == [] then []
    else
      var g := steps[..|steps| - 1];
      ResolveMisses(q, s, g) + if steps[|steps| - 1].Handle? then MissedAt(q, After(q, s, g)) else []
  }

  /** The reply used for the answer, empty when there was no fetch or it failed. */
  function Reply(q: Query, missing: seq<B256>): seq<Body> {
    if missing != [] && q.peer(missing).Some? then q.peer(missing).value else []
  }

  // ---------- the branch left alone ----------

  function Handles(n: nat): (steps: seq<Step>)
    ensures |steps| == n && forall step :: step in steps ==> step == Handle
  {
    if n == 0 then [] else Handles(n - 1) + [Handle]
  }

  lemma HandlesStep(q: Query, s: Branch, n: nat)
    ensures After(q, s, Handles(n + 1)) == Advance(q, After(q, s, Handles(n)))
  {
    assert Handles(n + 1)[..n] == Handles(n);
  }

  lemma {:induction false} ResolveAlone(q: Query, b: Bodies, i: nat)
    requires b.Valid() && i <= |q.request|
    ensures After(q, Begin(b), Handles(i))
            == Resolving(TouchAll(b, q.request[..i]), i, Gather(q.request[..i], LookupIn(b)))
  {
    hide Lru.Touch;
    if i > 0 {
      ResolveAlone(q, b, i - 1);
      HandlesStep(q, Begin(b), i - 1);
      TouchAllFacts(b, q.request[..i - 1]);
      TouchAllStep(b, q.request, i - 1);
      GatherStep(q.request, i - 1, LookupIn(b));
    }
  }

  lemma {:induction false} ProxyAlone(q: Query, partial: seq<Body>, m: Machine, n: nat)
    ensures After(q, Proxying(partial, m), Handles(n))
            == Proxying(partial, BodyMerge.Run(q.WithPartial(partial), m, Handles(n)))
  {
    hide Handler;
    if n > 0 {
      ProxyAlone(q, partial, m, n - 1);
      HandlesStep(q, Proxying(partial, m), n - 1);
      assert Handles(n)[..n - 1] == Handles(n - 1);
    }
  }

  lemma NoHandles(q: Query, s: Branch)
    ensures After(q, s, Handles(0)) == s
  {
  }

  lemma {:induction false} AfterSum(q: Query, s: Branch, i: nat, n: nat)
    ensures After(q, s, Handles(i + n)) == After(q, After(q, s, Handles(i)), Handles(n))
  {
    NoHandles(q, After(q, s, Handles(i)));
    hide After, Handles, Advance;
    if n > 0 {
      AfterSum(q, s, i, n - 1);
      HandlesStep(q, s, i + n - 1);
      HandlesStep(q, After(q, s, Handles(i)), n - 1);
    }
  }

  lemma {:induction false} RunAlone(job: Job, m: Machine, n: nat)
    ensures n >= Measure(job, m) ==> BodyMerge.Run(job, m, Handles(n)) == Finish(job, m)
    ensures Finish(job, BodyMerge.Run(job, m, Handles(n))) == Finish(job, m)
  {
    EnoughHandlesFinish(job, m, Handles(n));
    HandlesCount(n);
    var t := BodyMerge.Run(job, m, Handles(n));
    hide Finish, Measure, Handler;
    if n > 0 {
      RunAlone(job, m, n - 1);
      assert Handles(n)[..n - 1] == Handles(n - 1);
      var u := BodyMerge.Run(job, m, Handles(n - 1));
      if u.phase.Done? {
        DoneStays(job, u);
      } else {
        FinishStep(job, u, t);
      }
    }
    if t.phase.Done? {
      FinishDone(job, t);
    }
  }

  lemma DoneStays(job: Job, m: Machine)
    requires m.phase.Done?
    ensures Handler(job, m) == m
  {
  }

  lemma {:induction false} HandlesCount(n: nat)
    ensures HandleCount(Handles(n)) == n
  {
    if n > 0 {
      HandlesCount(n - 1);
      assert Handles(n)[..n - 1] == Handles(n - 1);
    }
  }

  /** The steps the branch needs when it is left alone. */
  function StepsAlone(q: Query, b: Bodies): nat {
    |q.request| + 1 + Measure(q.WithPartial(Gather(q.request, LookupIn(b))), Start(TouchAll(b, q.request)))
  }

  lemma ResolvedAlone(q: Query, b: Bodies)
    requires b.Valid()
    ensures var b1, partial := TouchAll(b, q.request), Gather(q.request, LookupIn(b));
            After(q, Begin(b), Handles(|q.request| + 1))
            == if |partial| == |q.request| > 0 then Answered(b1, partial) else Proxying(partial, Start(b1))
  {
    assert q.request[..|q.request|] == q.request;
    ResolveAlone(q, b, |q.request|);
    HandlesStep(q, Begin(b), |q.request|);
    hide After, Handles, Gather, TouchAll;
  }

  /** Left alone for enough steps the branch ends as the handler does, for any request, any cache and any outcome of
      the fetch: with the cached bodies when the resolve found them all, and else with the filter, fetch and merge. */
  lemma BranchAlone(q: Query, b: Bodies, n: nat)
    requires b.Valid() && n >= StepsAlone(q, b)
    ensures var b1, partial := TouchAll(b, q.request), Gather(q.request, LookupIn(b));
            After(q, Begin(b), Handles(n))
            == if |partial| == |q.request| > 0 then Answered(b1, partial)
               else Proxying(partial, Finish(q.WithPartial(partial), Start(b1)))
  {
    var r, b1, partial := |q.request|, TouchAll(b, q.request), Gather(q.request, LookupIn(b));
    var rest := n - (r + 1);
    hide After, Handles, Gather, TouchAll, Measure, Finish, Start;
    ResolvedAlone(q, b);
    AfterSum(q, Begin(b), r + 1, rest);
    if |partial| == |q.request| > 0 {
      AnsweredAlone(q, Answered(b1, partial), rest);
    } else {
      ProxyAlone(q, partial, Start(b1), rest);
      RunAlone(q.WithPartial(partial), Start(b1), rest);
    }
  }

  lemma {:induction false} AnsweredAlone(q: Query, s: Branch, n: nat)
    requires s.Answered?
    ensures After(q, s, Handles(n)) == s
  {
    if n > 0 {
      AnsweredAlone(q, s, n - 1);
      HandlesStep(q, s, n - 1);
    }
  }

  // ---------- imports of unrequested hashes ----------

  /** The resolve pass looks like a filter pass that found these hashes missing. */
  function AsFilter(b: Bodies, i: nat, absent: seq<B256>): Machine {
    Machine(b, Filtering, i, absent, [], 0, [])
  }

  /** The bodies of the hashes that were found. */
  function FoundIn(request: seq<B256>, absent: seq<B256>, orig: map<B256, Body>): B256 -> Option<Body> {
    AnswerOf(request, Elems(absent), orig, [])
  }

  /** The handler's state agrees with the resolve's misses: the filter pass misses the same hashes. */
  ghost predicate BranchInv(q: Query, w: set<B256>, orig: map<B256, Body>, s: Branch, absent: seq<B256>) {
    match s
    case Resolving(b, i, partial) =>
      && Inv(q.WithPartial([]), w, orig, AsFilter(b, i, absent))
      && partial == Gather(q.request[..i], FoundIn(q.request, absent, orig))
    case Answered(_, response) =>
      absent == [] && response == Gather(q.request, FoundIn(q.request, [], orig))
    case Proxying(partial, m) =>
      && partial == Gather(q.request, FoundIn(q.request, absent, orig)) && (q.request == [] || absent != [])
      && Inv(q.WithPartial(partial), w, orig, m)
      && if m.phase.Filtering? then FilterAgrees(q, w, orig, m, absent) else m.missing == absent
  }

  ghost predicate FilterAgrees(q: Query, w: set<B256>, orig: map<B256, Body>, m: Machine, absent: seq<B256>) {
    && Inv(q.WithPartial([]), w, orig, AsFilter(m.bodies, |q.request|, absent))
    && m.i <= |q.request| && m.missing == Keep(q.request[..m.i], Elems(absent))
  }

  /** What is filtered stays so when one of the requested hashes is touched. */
  lemma AsFilterTouch(job: Job, w: set<B256>, orig: map<B256, Body>, b: Bodies, absent: seq<B256>, k: B256)
    requires Inv(job, w, orig, AsFilter(b, |job.request|, absent)) && k in w
    ensures Inv(job, w, orig, AsFilter(b.Touch(k), |job.request|, absent))
  {
    TouchFacts(b, k);
    hide Held;
    forall h | h in job.request[..|job.request|] && h !in absent ensures Held(b.Touch(k), h, w, b.vals[h]) {
      HeldTouch(b, h, w, b.vals[h], k);
    }
  }

  lemma FoundStep(job: Job, w: set<B256>, orig: map<B256, Body>, b: Bodies, i: nat, absent: seq<B256>)
    requires Inv(job, w, orig, AsFilter(b, i, absent)) && i < |job.request|
    ensures var h, r := job.request[i], job.request;
            var absent2 := absent + if h in b.vals then [] else [h];
            Gather(r[..i + 1], FoundIn(r, absent2, orig))
            == Gather(r[..i], FoundIn(r, absent, orig)) + if h in b.vals then [b.vals[h]] else []
  {
    var r, h := job.request, job.request[i];
    var absent2 := absent + if h in b.vals then [] else [h];
    hide Held, Keep;
    forall g | g in r[..i] ensures FoundIn(r, absent2, orig)(g) == FoundIn(r, absent, orig)(g) {
      assert g in Elems(absent2) <==> g in Elems(absent);
    }
    GatherSame(r[..i], FoundIn(r, absent2, orig), FoundIn(r, absent, orig));
    GatherStep(r, i, FoundIn(r, absent2, orig));
    assert h in Elems(absent2) <==> h !in b.vals;
  }

  lemma ResolveKeeps(q: Query, w: set<B256>, orig: map<B256, Body>, s: Branch, absent: seq<B256>)
    requires BranchInv(q, w, orig, s, absent) && s.Resolving? && s.i < |q.request|
    ensures BranchInv(q, w, orig, Advance(q, s), absent + MissedAt(q, s))
  {
    var job, m := q.WithPartial([]), AsFilter(s.bodies, s.i, absent);
    FoundStep(job, w, orig, s.bodies, s.i, absent);
    HandlerKeepsInv(job, w, orig, m);
    hide Inv, Gather, FoundIn;
    assert Handler(job, m) == AsFilter(s.bodies.Touch(q.request[s.i]), s.i + 1, absent + MissedAt(q, s));
  }

  lemma {:induction false} GatherFull<V>(keys: seq<B256>, f: B256 -> Option<V>)
    ensures |Gather(keys, f)| <= |keys|
    ensures |Gather(keys, f)| == |keys| <==> forall k :: k in keys ==> f(k).Some?
  {
    if keys != [] {
      var g, l := keys[..|keys| - 1], keys[|keys| - 1];
      assert keys == g + [l];
      GatherFull(g, f);
    }
  }

  lemma FoundWhole(job: Job, w: set<B256>, orig: map<B256, Body>, b: Bodies, absent: seq<B256>)
    requires Inv(job, w, orig, AsFilter(b, |job.request|, absent))
    ensures |Gather(job.request, FoundIn(job.request, absent, orig))| == |job.request| <==> absent == []
  {
    var r, f := job.request, FoundIn(job.request, absent, orig);
    assert r[..|r|] == r;
    GatherFull(r, f);
    hide Held;
    forall h | h in r ensures f(h).Some? <==> h !in absent {
      assert h in Elems(absent) <==> h in absent;
    }
    ElemsNonEmpty(absent);
    assert absent != [] ==> absent[0] in r;
  }

  /** The filter pass starts over in the cache the resolve left. */
  lemma FilterStarts(q: Query, w: set<B256>, orig: map<B256, Body>, b: Bodies, i: nat, absent: seq<B256>,
                     partial: seq<Body>)
    requires Inv(q.WithPartial([]), w, orig, AsFilter(b, i, absent))
    ensures Inv(q.WithPartial(partial), w, orig, Start(b))
  {
    assert q.request[..0] == [];
    hide Held;
  }

  lemma ResolveEnds(q: Query, w: set<B256>, orig: map<B256, Body>, s: Branch, absent: seq<B256>)
    requires BranchInv(q, w, orig, s, absent) && s.Resolving? && s.i >= |q.request|
    ensures BranchInv(q, w, orig, Advance(q, s), absent)
  {
    assert s.i == |q.request| && q.request[..s.i] == q.request && q.request[..0] == [];
    hide Inv, Gather, FoundIn;
    FoundWhole(q.WithPartial([]), w, orig, s.bodies, absent);
    FilterStarts(q, w, orig, s.bodies, s.i, absent, s.partial);
  }

  lemma FilterKeeps(q: Query, w: set<B256>, orig: map<B256, Body>, s: Branch, absent: seq<B256>)
    requires BranchInv(q, w, orig, s, absent) && s.Proxying? && s.inner.phase.Filtering? && s.inner.i < |q.request|
    ensures BranchInv(q, w, orig, Advance(q, s), absent)
  {
    var m := s.inner;
    HandlerKeepsInv(q.WithPartial(s.partial), w, orig, m);
    AgreesStep(q, w, orig, m, absent, s.partial);
    assert Handler(q.WithPartial(s.partial), m).phase.Filtering?;
    hide Inv, Gather, FoundIn, FilterAgrees, Handler;
  }

  lemma AgreesStep(q: Query, w: set<B256>, orig: map<B256, Body>, m: Machine, absent: seq<B256>, partial: seq<Body>)
    requires FilterAgrees(q, w, orig, m, absent) && m.phase.Filtering? && m.i < |q.request|
    ensures FilterAgrees(q, w, orig, Handler(q.WithPartial(partial), m), absent)
  {
    hide Inv, Keep;
    var h, t := q.request[m.i], Handler(q.WithPartial(partial), m);
    assert t == m.(bodies := m.bodies.Touch(h), i := m.i + 1,
                   missing := m.missing + if h in m.bodies.vals then [] else [h]);
    hide Handler;
    FoundIffKept(q.WithPartial([]), w, orig, m.bodies, absent, h);
    AsFilterTouch(q.WithPartial([]), w, orig, m.bodies, absent, h);
    KeepStep(q.request, m.i, Elems(absent));
  }

  lemma FoundIffKept(job: Job, w: set<B256>, orig: map<B256, Body>, b: Bodies, absent: seq<B256>, h: B256)
    requires Inv(job, w, orig, AsFilter(b, |job.request|, absent)) && h in job.request
    ensures h in w && (h in b.vals <==> h !in Elems(absent))
  {
    assert h in Elems(job.request) && job.request[..|job.request|] == job.request;
    hide Held, Keep;
  }

  lemma ProxyKeeps(q: Query, w: set<B256>, orig: map<B256, Body>, s: Branch, absent: seq<B256>)
    requires BranchInv(q, w, orig, s, absent) && s.Proxying? && (s.inner.phase.Filtering? ==> s.inner.i >= |q.request|)
    ensures BranchInv(q, w, orig, Advance(q, s), absent)
  {
    hide Inv, Gather, FoundIn, FilterAgrees;
    HandlerKeepsInv(q.WithPartial(s.partial), w, orig, s.inner);
    if s.inner.phase.Filtering? {
      FilteredAgrees(q, w, orig, s.inner, absent);
    }
  }

  lemma FilteredAgrees(q: Query, w: set<B256>, orig: map<B256, Body>, m: Machine, absent: seq<B256>)
    requires FilterAgrees(q, w, orig, m, absent) && m.i >= |q.request|
    ensures m.missing == absent
  {
    assert q.request[..|q.request|] == q.request;
  }

  lemma AdvanceKeeps(q: Query, w: set<B256>, orig: map<B256, Body>, s: Branch, absent: seq<B256>)
    requires BranchInv(q, w, orig, s, absent)
    ensures BranchInv(q, w, orig, Advance(q, s), absent + MissedAt(q, s))
  {
    hide BranchInv, Advance;
    assert absent + [] == absent;
    if s.Resolving? && s.i < |q.request| {
      ResolveKeeps(q, w, orig, s, absent);
    } else if s.Resolving? {
      ResolveEnds(q, w, orig, s, absent);
    } else if s.Proxying? && s.inner.phase.Filtering? && s.inner.i < |q.request| {
      FilterKeeps(q, w, orig, s, absent);
    } else if s.Proxying? {
      ProxyKeeps(q, w, orig, s, absent);
    } else {
      AnsweredStays(q, s);
    }
  }

  lemma AnsweredStays(q: Query, s: Branch)
    requires s.Answered?
    ensures Advance(q, s) == s
  {
  }

  lemma ImportsKeep(q: Query, w: set<B256>, orig: map<B256, Body>, s: Branch, absent: seq<B256>, k: B256, x: Body)
    requires BranchInv(q, w, orig, s, absent) && k in w && k !in q.request
    ensures BranchInv(q, w, orig, Imports(s, k, x), absent)
  {
    hide Inv, Gather, FoundIn;
    match s
    case Resolving(b, i, _) => ImportKeepsInv(q.WithPartial([]), w, orig, AsFilter(b, i, absent), k, x);
    case Answered(_, _) =>
    case Proxying(partial, m) =>
      ImportKeepsInv(q.WithPartial(partial), w, orig, m, k, x);
      if m.phase.Filtering? {
        ImportKeepsInv(q.WithPartial([]), w, orig, AsFilter(m.bodies, |q.request|, absent), k, x);
      }
  }

  lemma {:induction false} AfterKeeps(q: Query, w: set<B256>, b: Bodies, steps: seq<Step>)
    requires b.Valid() && |w| <= b.cap && Elems(q.request) <= w
    requires Imported(steps) <= w && Imported(steps) !! Elems(q.request)
    ensures BranchInv(q, w, b.vals, After(q, Begin(b), steps), ResolveMisses(q, Begin(b), steps))
  {
    if steps == [] {
      StartInv(q.WithPartial([]), w, b);
    } else {
      hide BranchInv, Advance, Imports, MissedAt;
      var g, step := steps[..|steps| - 1], steps[|steps| - 1];
      assert step in steps && forall x :: x in g ==> x in steps;
      AfterKeeps(q, w, b, g);
      var t, absent := After(q, Begin(b), g), ResolveMisses(q, Begin(b), g);
      assert absent + [] == absent;
      match step
      case Handle => AdvanceKeeps(q, w, b.vals, t, absent);
      case Import(k, x) =>
        assert k in Imported(steps);
        ImportsKeep(q, w, b.vals, t, absent, k, x);
    }
  }

  /** Imports of unrequested hashes at any points, the resolve included, while all fit: the filter pass misses what
      the resolve missed, and every response, fetched or not, is the closed form over those hashes. */
  lemma BranchAnswers(q: Query, b: Bodies, steps: seq<Step>)
    requires b.Valid() && Imported(steps) !! Elems(q.request)
    requires |Elems(q.request)| + |Imported(steps)| <= b.cap
    ensures var absent := ResolveMisses(q, Begin(b), steps);
            match After(q, Begin(b), steps)
            case Resolving(_, _, _) => true
            case Answered(_, response) => absent == [] && response == Gather(q.request, FoundIn(q.request, [], b.vals))
            case Proxying(_, m) =>
              m.phase.Done? ==>
                && m.missing == absent && (q.request == [] || absent != [])
                && m.out == Gather(q.request, AnswerOf(q.request, Elems(absent), b.vals, Reply(q, absent)))
  {
    AfterKeeps(q, Elems(q.request) + Imported(steps), b, steps);
  }

  // ---------- imports of any hashes: when an answer without a fetch is stale ----------

  /** The correct body of each hash outside the list. */
  function TruthBut(absent: seq<B256>, truth: B256 -> Body): B256 -> Option<Body> {
    h => if h in absent then None else Some(truth(h))
  }

  /** Every hash seen and not missed is cached, to stay, with its correct body. */
  ghost predicate FoundHeld(l: Bodies, seen: seq<B256>, absent: seq<B256>, w: set<B256>, truth: B256 -> Body) {
    forall h :: h in seen && h !in absent ==> Held(l, h, w, truth(h))
  }

  lemma KeptTouch(l: Bodies, seen: seq<B256>, absent: seq<B256>, w: set<B256>, truth: B256 -> Body, k: B256)
    requires l.Valid() && k in w && FoundHeld(l, seen, absent, w, truth)
    ensures FoundHeld(l.Touch(k), seen, absent, w, truth)
  {
    hide Held;
    forall h | h in seen && h !in absent ensures Held(l.Touch(k), h, w, truth(h)) {
      HeldTouch(l, h, w, truth(h), k);
    }
  }

  lemma KeptPush(l: Bodies, seen: seq<B256>, absent: seq<B256>, w: set<B256>, truth: B256 -> Body, k: B256)
    requires l.Valid() && |w| <= l.cap && k in w && Elems(seen) <= w && FoundHeld(l, seen, absent, w, truth)
    ensures FoundHeld(l.Push(k, truth(k)), seen, absent, w, truth)
  {
    hide Held;
    forall h | h in seen && h !in absent ensures Held(l.Push(k, truth(k)), h, w, truth(h)) {
      if h == k {
        PushHeld(l, k, w, truth(k));
      } else {
        assert h in Elems(seen);
        HeldPush(l, h, w, truth(h), k, truth(k));
      }
    }
  }

  ghost predicate Roomy(l: Bodies, request: seq<B256>, w: set<B256>) {
    l.Valid() && |w| <= l.cap && Elems(request) <= w
  }

  /** The partial answer is the correct bodies of the hashes the resolve did not miss, and until the filter pass is
      over these stay cached. */
  ghost predicate FreshInv(q: Query, w: set<B256>, truth: B256 -> Body, s: Branch, absent: seq<B256>) {
    match s
    case Resolving(b, i, partial) =>
      && Roomy(b, q.request, w) && Correct(b, truth) && i <= |q.request| && Elems(absent) <= Elems(q.request[..i])
      && FoundHeld(b, q.request[..i], absent, w, truth) && partial == Gather(q.request[..i], TruthBut(absent, truth))
    case Answered(_, _) => true
    case Proxying(partial, m) =>
      && Elems(absent) <= Elems(q.request) && partial == Gather(q.request, TruthBut(absent, truth))
      && ProxyFresh(q.WithPartial(partial), w, truth, m, absent)
  }

  ghost predicate ProxyFresh(job: Job, w: set<B256>, truth: B256 -> Body, m: Machine, absent: seq<B256>) {
    && Elems(m.missing) <= Elems(absent)
    && (m.phase.Filtering? ==> Roomy(m.bodies, job.request, w) && FoundHeld(m.bodies, job.request, absent, w, truth))
    && (!m.phase.Filtering? ==> Merged(job, m.missing) || (m.phase.Done? && m.out == job.partial))
  }

  lemma FreshResolve(q: Query, w: set<B256>, truth: B256 -> Body, s: Branch, absent: seq<B256>)
    requires FreshInv(q, w, truth, s, absent) && NoDup(q.request) && s.Resolving? && s.i < |q.request|
    ensures FreshInv(q, w, truth, Advance(q, s), absent + MissedAt(q, s))
  {
    var b, r, i, h := s.bodies, q.request, s.i, q.request[s.i];
    var absent2 := absent + MissedAt(q, s);
    assert h in Elems(r) && absent + [] == absent;
    assert h !in r[..i];
    PrefixStep(r, i);
    TouchFacts(b, h);
    KeptTouch(b, r[..i], absent, w, truth, h);
    hide Held, NoDup;
    assert h !in Elems(absent);
    GatherSame(r[..i], TruthBut(absent2, truth), TruthBut(absent, truth));
    GatherStep(r, i, TruthBut(absent2, truth));
    if h in b.vals {
      TouchHeld(b, h, w);
    }
    hide Gather, TruthBut;
  }

  lemma FreshResolved(q: Query, w: set<B256>, truth: B256 -> Body, s: Branch, absent: seq<B256>)
    requires FreshInv(q, w, truth, s, absent) && s.Resolving? && s.i == |q.request|
    ensures FreshInv(q, w, truth, Advance(q, s), absent)
  {
    assert q.request[..s.i] == q.request;
    hide Gather, TruthBut, FoundHeld;
  }

  lemma FreshProxy(q: Query, w: set<B256>, truth: B256 -> Body, s: Branch, absent: seq<B256>)
    requires FreshInv(q, w, truth, s, absent) && s.Proxying?
    ensures FreshInv(q, w, truth, Advance(q, s), absent)
  {
    var m := s.inner;
    hide Gather, TruthBut;
    if m.phase.Filtering? && m.i < |q.request| {
      var h := q.request[m.i];
      assert h in Elems(q.request);
      TouchFacts(m.bodies, h);
      assert h !in m.bodies.vals ==> h in absent;
      hide FoundHeld;
      KeptTouch(m.bodies, q.request, absent, w, truth, h);
      ElemsAppend(m.missing, h, {});
    }
  }

  lemma FreshImports(q: Query, w: set<B256>, truth: B256 -> Body, s: Branch, absent: seq<B256>, k: B256)
    requires FreshInv(q, w, truth, s, absent) && k in w
    ensures FreshInv(q, w, truth, Imports(s, k, truth(k)), absent)
  {
    hide Gather, TruthBut, FoundHeld, Correct;
    match s
    case Resolving(b, i, _) =>
      PushValid(b, k, truth(k));
      PushKeepsCorrect(b, k, truth(k), truth);
      assert forall h :: h in q.request[..i] ==> h in q.request;
      KeptPush(b, q.request[..i], absent, w, truth, k);
    case Answered(_, _) =>
    case Proxying(_, m) =>
      if m.phase.Filtering? {
        PushValid(m.bodies, k, truth(k));
        KeptPush(m.bodies, q.request, absent, w, truth, k);
      }
  }

  lemma FreshAdvance(q: Query, w: set<B256>, truth: B256 -> Body, s: Branch, absent: seq<B256>)
    requires FreshInv(q, w, truth, s, absent) && NoDup(q.request)
    ensures FreshInv(q, w, truth, Advance(q, s), absent + MissedAt(q, s))
  {
    assert absent + [] == absent;
    if s.Resolving? {
      if s.i < |q.request| {
        hide FreshInv, Advance;
        FreshResolve(q, w, truth, s, absent);
      } else {
        assert s.i == |q.request|;
        hide FreshInv, Advance;
        FreshResolved(q, w, truth, s, absent);
      }
    } else if s.Proxying? {
      hide FreshInv, Advance;
      FreshProxy(q, w, truth, s, absent);
    }
  }

  lemma {:induction false} AfterFresh(q: Query, w: set<B256>, b: Bodies, steps: seq<Step>, truth: B256 -> Body)
    requires Roomy(b, q.request, w) && Correct(b, truth) && NoDup(q.request)
    requires Imported(steps) <= w && HonestImports(steps, truth)
    ensures FreshInv(q, w, truth, After(q, Begin(b), steps), ResolveMisses(q, Begin(b), steps))
  {
    if steps != [] {
      hide FreshInv, Advance, Imports, MissedAt, Roomy, Correct, NoDup;
      var g, step := steps[..|steps| - 1], steps[|steps| - 1];
      assert step in steps && forall x :: x in g ==> x in steps;
      AfterFresh(q, w, b, g, truth);
      var t, absent := After(q, Begin(b), g), ResolveMisses(q, Begin(b), g);
      assert absent + [] == absent;
      match step
      case Handle => FreshAdvance(q, w, truth, t, absent);
      case Import(k, x) =>
        assert k in Imported(steps);
        FreshImports(q, w, truth, t, absent, k);
    }
  }

  lemma FewerMissesLonger(request: seq<B256>, missing: seq<B256>, absent: seq<B256>, truth: B256 -> Body)
    requires Elems(missing) <= Elems(absent) <= Elems(request)
    ensures Gather(request, TruthBut(absent, truth)) == Gather(request, TruthBut(missing, truth))
            <==> Elems(missing) == Elems(absent)
  {
    var f, g := TruthBut(missing, truth), TruthBut(absent, truth);
    assert forall h :: (h in missing <==> h in Elems(missing)) && (h in absent <==> h in Elems(absent));
    hide Gather;
    if Elems(missing) == Elems(absent) {
      GatherSame(request, f, g);
    } else {
      var h :| h in Elems(absent) && h !in Elems(missing);
      assert h in request && g(h).None? && f(h).Some?;
      GatherLonger(request, f, g);
    }
  }

  /** An answer without a fetched body is the correct bodies of the hashes the resolve found, and the filter pass
      misses no other hash than the resolve did. */
  lemma UnfetchedAnswer(q: Query, b: Bodies, steps: seq<Step>, truth: B256 -> Body)
    requires b.Valid() && Correct(b, truth) && NoDup(q.request) && HonestImports(steps, truth)
    requires |Elems(q.request) + Imported(steps)| <= b.cap
    ensures var s, absent := After(q, Begin(b), steps), ResolveMisses(q, Begin(b), steps);
            s.Proxying? && s.inner.phase.Done? && !Merged(q.WithPartial(s.partial), s.inner.missing) ==>
              && Elems(s.inner.missing) <= Elems(absent) <= Elems(q.request)
              && s.inner.out == Gather(q.request, TruthBut(absent, truth))
  {
    AfterFresh(q, Elems(q.request) + Imported(steps), b, steps, truth);
    hide After, ResolveMisses, Gather, TruthBut;
  }

  // ---------- which imports make it stale ----------

  /** The handler has still to look h up in its filter pass. */
  predicate FilterAhead(q: Query, s: Branch, h: B256) {
    match s
    case Resolving(_, _, _) => true
    case Answered(_, _) => false
    case Proxying(_, m) => m.phase.Filtering? && h !in Take(q.request, m.i)
  }

  /** The hashes imported after the resolve missed them and before the filter pass looks them up. */
  function LateImports(q: Query, s: Branch, steps: seq<Step>): set<B256> {
    if steps == [] then {}
    else
      var g, step := steps[..|steps| - 1], steps[|steps| - 1];
      LateImports(q, s, g)
      + if step.Import? && step.hash in ResolveMisses(q, s, g) && FilterAhead(q, After(q, s, g), step.hash)
        then {step.hash} else {}
  }

  /** Of the missed hashes still to be filtered, those imported late are cached, to stay, and the others absent. */
  ghost predicate Pending(l: Bodies, todo: set<B256>, late: set<B256>, w: set<B256>, truth: B256 -> Body) {
    forall h :: h in todo ==> if h in late then Held(l, h, w, truth(h)) else h !in l.vals
  }

  /** The missed hashes already filtered are missing exactly if they were not imported late. */
  ghost predicate LateInv(q: Query, w: set<B256>, truth: B256 -> Body, s: Branch, absent: set<B256>, late: set<B256>) {
    && late <= absent
    && match s
       case Resolving(b, _, _) => Pending(b, absent, late, w, truth)
       case Answered(_, _) => true
       case Proxying(_, m) =>
         var done := Elems(Take(q.request, m.i));
         if m.phase.Filtering? then
           && m.i <= |q.request| && Elems(m.missing) == absent * done - late
           && Pending(m.bodies, absent - done, late, w, truth)
         else Elems(m.missing) == absent - late
  }

  lemma PendingTouch(l: Bodies, todo: set<B256>, late: set<B256>, w: set<B256>, truth: B256 -> Body, k: B256)
    requires l.Valid() && k in w && Pending(l, todo, late, w, truth)
    ensures Pending(l.Touch(k), todo, late, w, truth)
  {
    hide Held;
    TouchFacts(l, k);
    forall h | h in todo && h in late ensures Held(l.Touch(k), h, w, truth(h)) {
      HeldTouch(l, h, w, truth(h), k);
    }
  }

  lemma PendingPush(l: Bodies, todo: set<B256>, late: set<B256>, w: set<B256>, truth: B256 -> Body, k: B256)
    requires l.Valid() && |w| <= l.cap && k in w && todo <= w && Pending(l, todo, late, w, truth)
    ensures Pending(l.Push(k, truth(k)), todo, late + if k in todo then {k} else {}, w, truth)
  {
    hide Held;
    forall h | h in todo
      ensures if h in late || h == k then Held(l.Push(k, truth(k)), h, w, truth(h)) else h !in l.Push(k, truth(k)).vals
    {
      if h == k {
        PushHeld(l, k, w, truth(k));
      } else if h in late {
        HeldPush(l, h, w, truth(h), k, truth(k));
      } else {
        AbsentPush(l, h, k, truth(k));
      }
    }
  }

  lemma LateResolve(q: Query, w: set<B256>, truth: B256 -> Body, s: Branch, absent: seq<B256>, late: set<B256>)
    requires FreshInv(q, w, truth, s, absent) && LateInv(q, w, truth, s, Elems(absent), late)
    requires NoDup(q.request) && s.Resolving? && s.i < |q.request|
    ensures LateInv(q, w, truth, Advance(q, s), Elems(absent + MissedAt(q, s)), late)
  {
    var b, h := s.bodies, q.request[s.i];
    var absent2 := absent + MissedAt(q, s);
    assert b.Valid() && h in Elems(q.request);
    assert h !in Elems(q.request[..s.i]);
    PendingTouch(b, Elems(absent), late, w, truth, h);
    TouchFacts(b, h);
    assert Advance(q, s).bodies == b.Touch(h);
    assert Elems(absent2) == Elems(absent) + Elems(MissedAt(q, s));
    assert forall g :: g in Elems(MissedAt(q, s)) ==> g == h && h !in b.vals;
    hide FreshInv, Advance, MissedAt, Held, NoDup, Lru.Touch;
  }

  lemma LateFilter(q: Query, w: set<B256>, truth: B256 -> Body, partial: seq<Body>, m: Machine, absent: set<B256>,
                   late: set<B256>)
    requires LateInv(q, w, truth, Proxying(partial, m), absent, late) && m.bodies.Valid() && Elems(q.request) <= w
    requires forall h :: h in q.request && h !in absent ==> h in m.bodies.vals
    requires NoDup(q.request) && m.phase.Filtering? && m.i < |q.request|
    ensures LateInv(q, w, truth, Advance(q, Proxying(partial, m)), absent, late)
  {
    var r, h, t := q.request, q.request[m.i], Handler(q.WithPartial(partial), m);
    var done := Elems(r[..m.i]);
    PrefixStep(r, m.i);
    assert h in Elems(r) && h !in done;
    assert h in absent ==> (h in m.bodies.vals <==> h in late);
    PendingTouch(m.bodies, absent - done, late, w, truth, h);
    assert t == m.(bodies := m.bodies.Touch(h), i := m.i + 1,
                   missing := m.missing + if h in m.bodies.vals then [] else [h]);
    assert Elems(t.missing) == Elems(m.missing) + if h in m.bodies.vals then {} else {h};
    assert Take(r, m.i) == r[..m.i] && Take(r, t.i) == r[..t.i];
    hide Held, Handler, NoDup, Elems, Lru.Touch;
    assert absent - Elems(r[..t.i]) <= absent - done;
    assert Elems(t.missing) == absent * Elems(r[..t.i]) - late;
  }

  lemma LateImport(q: Query, w: set<B256>, truth: B256 -> Body, s: Branch, absent: seq<B256>, late: set<B256>, k: B256)
    requires FreshInv(q, w, truth, s, absent) && LateInv(q, w, truth, s, Elems(absent), late) && k in w
    ensures LateInv(q, w, truth, Imports(s, k, truth(k)), Elems(absent),
                    late + if k in absent && FilterAhead(q, s, k) then {k} else {})
  {
    hide Held, Gather, TruthBut, FoundHeld, Correct;
    var a := Elems(absent);
    assert k in absent <==> k in a;
    assert late + {} == late;
    match s
    case Resolving(b, i, _) =>
      assert forall h :: h in q.request[..i] ==> h in q.request;
      PendingPush(b, a, late, w, truth, k);
    case Answered(_, _) =>
    case Proxying(_, m) =>
      var done := Elems(Take(q.request, m.i));
      assert k in Take(q.request, m.i) <==> k in done;
      if m.phase.Filtering? {
        PendingPush(m.bodies, a - done, late, w, truth, k);
      }
  }

  lemma LateAdvance(q: Query, w: set<B256>, truth: B256 -> Body, s: Branch, absent: seq<B256>, late: set<B256>)
    requires FreshInv(q, w, truth, s, absent) && LateInv(q, w, truth, s, Elems(absent), late) && NoDup(q.request)
    ensures LateInv(q, w, truth, Advance(q, s), Elems(absent + MissedAt(q, s)), late)
  {
    assert absent + [] == absent;
    if s.Resolving? && s.i < |q.request| {
      hide FreshInv, LateInv, Advance;
      LateResolve(q, w, truth, s, absent, late);
    } else if s.Proxying? && s.inner.phase.Filtering? && s.inner.i < |q.request| {
      FreshFound(q, w, truth, s, absent);
      hide FreshInv, LateInv, Advance;
      LateFilter(q, w, truth, s.partial, s.inner, Elems(absent), late);
    } else {
      LateEnds(q, w, truth, s, absent, late);
    }
  }

  lemma FreshFound(q: Query, w: set<B256>, truth: B256 -> Body, s: Branch, absent: seq<B256>)
    requires FreshInv(q, w, truth, s, absent) && s.Proxying? && s.inner.phase.Filtering?
    ensures s.inner.bodies.Valid() && Elems(q.request) <= w
    ensures forall h :: h in q.request && h !in Elems(absent) ==> h in s.inner.bodies.vals
  {
    hide Gather, TruthBut;
    assert forall h :: h !in Elems(absent) ==> h !in absent;
  }

  lemma LateEnds(q: Query, w: set<B256>, truth: B256 -> Body, s: Branch, absent: seq<B256>, late: set<B256>)
    requires FreshInv(q, w, truth, s, absent) && LateInv(q, w, truth, s, Elems(absent), late)
    requires s.Resolving? ==> s.i >= |q.request|
    requires s.Proxying? && s.inner.phase.Filtering? ==> s.inner.i >= |q.request|
    ensures LateInv(q, w, truth, Advance(q, s), Elems(absent), late)
  {
    hide Held, Gather, TruthBut, FoundHeld;
    assert Take(q.request, 0) == [] && Take(q.request, |q.request|) == q.request;
    assert Elems<B256>([]) == {};
  }

  lemma {:induction false} AfterLate(q: Query, w: set<B256>, b: Bodies, steps: seq<Step>, truth: B256 -> Body)
    requires Roomy(b, q.request, w) && Correct(b, truth) && NoDup(q.request)
    requires Imported(steps) <= w && HonestImports(steps, truth)
    ensures LateInv(q, w, truth, After(q, Begin(b), steps), Elems(ResolveMisses(q, Begin(b), steps)),
                    LateImports(q, Begin(b), steps))
  {
    if steps != [] {
      hide FreshInv, LateInv, Advance, Imports, MissedAt, Roomy, Correct, NoDup, FilterAhead;
      var g, step := steps[..|steps| - 1], steps[|steps| - 1];
      assert step in steps && forall x :: x in g ==> x in steps;
      AfterLate(q, w, b, g, truth);
      AfterFresh(q, w, b, g, truth);
      var t, absent, late := After(q, Begin(b), g), ResolveMisses(q, Begin(b), g), LateImports(q, Begin(b), g);
      assert absent + [] == absent && late + {} == late;
      match step
      case Handle => LateAdvance(q, w, truth, t, absent, late);
      case Import(k, x) =>
        assert k in Imported(steps);
        LateImport(q, w, truth, t, absent, late, k);
    }
  }

  /** Pairwise distinct hashes, correct imports of any hashes at any points, room for both: an answer without a
      fetched body has every body the filter pass found if and only if no hash was imported between its miss in the
      resolve and its own lookup in the filter pass. */
  lemma UnfetchedFreshIff(q: Query, b: Bodies, steps: seq<Step>, truth: B256 -> Body)
    requires b.Valid() && Correct(b, truth) && NoDup(q.request) && HonestImports(steps, truth)
    requires |Elems(q.request) + Imported(steps)| <= b.cap
    ensures var s := After(q, Begin(b), steps);
            s.Proxying? && s.inner.phase.Done? && !Merged(q.WithPartial(s.partial), s.inner.missing) ==>
              (s.inner.out == Gather(q.request, TruthBut(s.inner.missing, truth))
               <==> LateImports(q, Begin(b), steps) == {})
  {
    var s, absent := After(q, Begin(b), steps), ResolveMisses(q, Begin(b), steps);
    UnfetchedAnswer(q, b, steps, truth);
    AfterLate(q, Elems(q.request) + Imported(steps), b, steps, truth);
    hide After, ResolveMisses, LateImports, Gather, TruthBut, Pending;
    if s.Proxying? && s.inner.phase.Done? && !Merged(q.WithPartial(s.partial), s.inner.missing) {
      FewerMissesLonger(q.request, s.inner.missing, absent, truth);
    }
  }

  /** A request for one absent hash, up to the filter pass. */
  lemma ResolveOne(q: Query, a: B256)
    requires q.request == [a]
    ensures var b: Bodies := Fresh(8);
            After(q, Begin(b), [Handle, Handle]) == Proxying([], Start(b))
  {
    var b: Bodies := Fresh(8);
    AfterStep(q, Begin(b), [], Handle);
    AfterStep(q, Begin(b), [Handle], Handle);
    assert Advance(q, Begin(b)) == Resolving(b, 1, []);
    assert [] + [Handle] == [Handle] && [Handle] + [Handle] == [Handle, Handle];
  }

  /** The filter pass over one hash that is now cached ends the branch with the partial answer. */
  lemma FilterOne(q: Query, a: B256, l: Bodies, partial: seq<Body>)
    requires q.request == [a] && l.Valid() && a in l.vals
    ensures Advance(q, Advance(q, Proxying(partial, Start(l))))
            == Proxying(partial, Machine(l.Touch(a), Done, 1, [], [], 0, partial))
  {
    TouchFacts(l, a);
  }

  /** Nothing cached, request a, and a imported between the resolve and the filter pass: nothing is fetched, and the
      answer is empty although a is cached. */
  lemma ImportBeforeFilterIsStale(q: Query, a: B256, x: Body)
    requires q.request == [a]
    ensures var s := After(q, Begin(Fresh(8)), [Handle, Handle] + [Import(a, x)] + [Handle] + [Handle]);
            s.Proxying? && s.inner.phase.Done? && s.inner.out == [] && s.inner.bodies.Lookup(a) == Some(x)
  {
    var b: Bodies := Fresh(8);
    var two := [Handle, Handle];
    PushValid(b, a, x);
    TouchFacts(b.Push(a, x), a);
    ResolveOne(q, a);
    FilterOne(q, a, b.Push(a, x), []);
    hide After, Advance, Lru.Push, Lru.Touch;
    AfterStep(q, Begin(b), two, Import(a, x));
    AfterStep(q, Begin(b), two + [Import(a, x)], Handle);
    AfterStep(q, Begin(b), two + [Import(a, x)] + [Handle], Handle);
  }

  lemma AfterStep(q: Query, s: Branch, steps: seq<Step>, step: Step)
    ensures var t := After(q, s, steps);
            After(q, s, steps + [step]) == match step case Handle => Advance(q, t) case Import(k, x) => Imports(t, k, x)
  {
    assert (steps + [step])[..|steps|] == steps;
  }
}
