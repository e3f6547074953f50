/** The merge turn by turn, for any request and any capacity: exactly when every turn answers the right body. */
module BodyTurns {
  import opened Recency
  import opened LruMap
  import opened Types
  import opened BodyMerge
  import opened BodyAlignment
  import opened BodyCapacity

  /** The merge before it looks at position i. */
  function Turn(job: Job, b: Bodies, i: nat): Machine {
    MergeMany(job, MergeStart(job, b), i)
  }

  /** What the merge answers at the position it stands at. */
  function TurnAnswer(job: Job, s: Machine): Option<Body>
    requires s.i < |job.request|
  {
    var h := job.request[s.i];
    if h in s.bodies.vals then Some(s.bodies.vals[h])
    else if s.next < |s.fetched| then Some(s.fetched[s.next]) else None
  }

  function Flatten<V>(answers: seq<Option<V>>): seq<V> {
    if answers == [] then []
    else Flatten(answers[..|answers| - 1]) + match answers[|answers| - 1] case None => [] case Some(v) => [v]
  }

  ghost predicate AtTurn(job: Job, b: Bodies, fetched: seq<Body>, s: Machine, i: nat) {
    && s.phase.Merging? && s.i == i && s.missing == Missing(job.request, b) && s.fetched == fetched
    && s.bodies.Valid() && s.bodies.cap == b.cap
    && Finish(job, s) == Finish(job, Start(b))
  }

  lemma TurnStep(job: Job, s: Machine)
    requires s.phase.Merging? && s.i < |job.request| && s.bodies.Valid()
    ensures var t := MergeOne(job, s);
            && OneMerged(s, t) && t.phase.Merging? && t.bodies.Valid()
            && t.out == s.out + match TurnAnswer(job, s) case None => [] case Some(v) => [v]
  {
    var h := job.request[s.i];
    if h in s.bodies.vals {
      MergeOneHit(job, s);
      TouchFacts(s.bodies, h);
    } else {
      MergeOneMiss(job, s);
      if s.next < |s.fetched| {
        PushValid(s.bodies, h, s.fetched[s.next]);
      }
    }
  }

  lemma {:induction false} TurnForm(job: Job, b: Bodies, fetched: seq<Body>, truth: B256 -> Body, i: nat)
    requires FetchedHonest(job, b, fetched, truth) && i <= |job.request|
    ensures AtTurn(job, b, fetched, Turn(job, b, i), i)
  {
    hide Finish, MergeOne, Missing, MergeStart;
    if i == 0 {
      MergeStartForm(job, b, fetched, truth);
    } else {
      TurnForm(job, b, fetched, truth, i - 1);
      TurnStep(job, Turn(job, b, i - 1));
      FinishMergeOne(job, Turn(job, b, i - 1));
    }
  }

  /** The answers of the first n turns. */
  function TurnAnswers(job: Job, b: Bodies, n: nat): seq<Option<Body>> {
    if n == 0 then []
    else
      var s := Turn(job, b, n - 1);
      TurnAnswers(job, b, n - 1) + [if s.i < |job.request| then TurnAnswer(job, s) else None]
  }

  lemma {:induction false} OutIsTurns(job: Job, b: Bodies, fetched: seq<Body>, truth: B256 -> Body, n: nat)
    requires FetchedHonest(job, b, fetched, truth) && n <= |job.request|
    ensures Turn(job, b, n).out == Flatten(TurnAnswers(job, b, n))
  {
    hide Finish, MergeOne, Missing, MergeStart;
    if n == 0 {
      MergeStartForm(job, b, fetched, truth);
    } else {
      var g := TurnAnswers(job, b, n - 1);
      OutIsTurns(job, b, fetched, truth, n - 1);
      TurnForm(job, b, fetched, truth, n - 1);
      TurnStep(job, Turn(job, b, n - 1));
      assert TurnAnswers(job, b, n)[..|g|] == g;
    }
  }

  /** The response is what the turns answer, in request order. */
  lemma ResponseIsTurns(job: Job, b: Bodies, fetched: seq<Body>, truth: B256 -> Body)
    requires FetchedHonest(job, b, fetched, truth)
    ensures Finish(job, Start(b)).out == Flatten(TurnAnswers(job, b, |job.request|))
  {
    var t := Turn(job, b, |job.request|);
    OutIsTurns(job, b, fetched, truth, |job.request|);
    TurnForm(job, b, fetched, truth, |job.request|);
    hide Finish, Turn;
    FinishStep(job, t, t.(phase := Done));
    FinishDone(job, t.(phase := Done));
  }

  // ---------- when every turn is right ----------

  /** Position i is answered with the correct body if its hash was cached or is covered, and else not at all. */
  ghost predicate RightTurn(job: Job, b: Bodies, fetched: seq<Body>, truth: B256 -> Body, i: nat)
    requires i < |job.request|
  {
    Turn(job, b, i).i == i &&
    TurnAnswer(job, Turn(job, b, i)) == Wanted(Missing(job.request, b), |fetched|, truth)(job.request[i])
  }

  /** A hash absent at its turn is the one the next body of the reply was fetched for, or, when the reply is used
      up, one it does not cover. */
  predicate TakesOwn(job: Job, b: Bodies, n: nat, i: nat)
    requires i < |job.request|
  {
    var s, missing, h := Turn(job, b, i), Missing(job.request, b), job.request[i];
    h !in s.bodies.vals ==>
      if s.next < n then s.next < |missing| && missing[s.next] == h else h in missing && h !in Take(missing, n)
  }

  /** The cache holds correct bodies, and of the missing hashes only covered ones. */
  ghost predicate OnlyCovered(l: Bodies, missing: seq<B256>, n: nat, truth: B256 -> Body) {
    Correct(l, truth) && forall h :: h in l.vals && h in missing ==> h in Take(missing, n)
  }

  lemma PushCovered(l: Bodies, missing: seq<B256>, n: nat, truth: B256 -> Body, k: B256)
    requires l.Valid() && OnlyCovered(l, missing, n, truth) && k in Take(missing, n)
    ensures OnlyCovered(l.Push(k, truth(k)), missing, n, truth)
  {
    PushKeepsCorrect(l, k, truth(k), truth);
    forall h | h in l.Push(k, truth(k)).vals && h in missing ensures h in Take(missing, n) {
      if h != k {
        PushOther(l, k, truth(k), h);
      }
    }
  }

  lemma CoveredAtStart(job: Job, b: Bodies, fetched: seq<Body>, truth: B256 -> Body)
    requires FetchedHonest(job, b, fetched, truth)
    ensures OnlyCovered(Turn(job, b, 0).bodies, Missing(job.request, b), |fetched|, truth)
  {
    MergeStartForm(job, b, fetched, truth);
    MissingFacts(job.request, b);
    var missing := Missing(job.request, b);
    hide Missing, MergeStart, Keep, Firsts;
    assert forall h :: h in missing ==> h in Elems(missing);
  }

  lemma {:induction false} CoveredAt(job: Job, b: Bodies, fetched: seq<Body>, truth: B256 -> Body, i: nat)
    requires FetchedHonest(job, b, fetched, truth) && i <= |job.request|
    requires forall j :: 0 <= j < i ==> TakesOwn(job, b, |fetched|, j)
    ensures OnlyCovered(Turn(job, b, i).bodies, Missing(job.request, b), |fetched|, truth)
  {
    hide TakesOwn, Missing, MergeOne, MergeStart, OnlyCovered, Finish, Correct, PrefixReply;
    if i == 0 {
      CoveredAtStart(job, b, fetched, truth);
    } else {
      CoveredAt(job, b, fetched, truth, i - 1);
      TurnForm(job, b, fetched, truth, i - 1);
      OwnAtTurn(job, b, fetched, i - 1);
      CoveredStep(job, Turn(job, b, i - 1), Missing(job.request, b), |fetched|, truth);
    }
  }

  lemma OwnAtTurn(job: Job, b: Bodies, fetched: seq<Body>, i: nat)
    requires i < |job.request| && TakesOwn(job, b, |fetched|, i)
    ensures var s, missing := Turn(job, b, i), Missing(job.request, b);
            job.request[i] !in s.bodies.vals && s.next < |fetched| ==>
              s.next < |missing| && missing[s.next] == job.request[i]
  {
  }

  lemma CoveredStep(job: Job, s: Machine, missing: seq<B256>, n: nat, truth: B256 -> Body)
    requires s.phase.Merging? && s.i < |job.request| && s.bodies.Valid() && |s.fetched| == n
    requires PrefixReply(s.fetched, missing, truth) && OnlyCovered(s.bodies, missing, n, truth)
    requires job.request[s.i] !in s.bodies.vals && s.next < n ==> missing[s.next] == job.request[s.i]
    ensures OnlyCovered(MergeOne(job, s).bodies, missing, n, truth)
  {
    var h := job.request[s.i];
    if h in s.bodies.vals {
      MergeOneHit(job, s);
      hide MergeOne, OnlyCovered;
      TouchCovered(s.bodies, missing, n, truth, h);
    } else {
      MergeOneMiss(job, s);
      hide MergeOne, OnlyCovered;
      if s.next < n {
        assert Take(missing, n)[s.next] == h;
        PushCovered(s.bodies, missing, n, truth, h);
      }
    }
  }

  lemma TouchCovered(l: Bodies, missing: seq<B256>, n: nat, truth: B256 -> Body, k: B256)
    requires l.Valid() && OnlyCovered(l, missing, n, truth)
    ensures OnlyCovered(l.Touch(k), missing, n, truth)
  {
    TouchFacts(l, k);
  }

  lemma OwnIsRight(job: Job, b: Bodies, fetched: seq<Body>, truth: B256 -> Body, i: nat)
    requires FetchedHonest(job, b, fetched, truth) && i < |job.request|
    requires forall j :: 0 <= j <= i ==> TakesOwn(job, b, |fetched|, j)
    ensures RightTurn(job, b, fetched, truth, i)
  {
    CoveredAt(job, b, fetched, truth, i);
    TurnForm(job, b, fetched, truth, i);
    var s, missing := Turn(job, b, i), Missing(job.request, b);
    hide Missing, Turn, Finish;
    assert TakesOwn(job, b, |fetched|, i);
    if s.next < |fetched| {
      assert Take(missing, |fetched|)[s.next] == missing[s.next];
    }
  }

  lemma RightIsOwn(job: Job, b: Bodies, fetched: seq<Body>, truth: B256 -> Body, i: nat)
    requires FetchedHonest(job, b, fetched, truth) && InjectiveOn(job.request, truth) && i < |job.request|
    requires RightTurn(job, b, fetched, truth, i)
    ensures TakesOwn(job, b, |fetched|, i)
  {
    TurnForm(job, b, fetched, truth, i);
    MissingFacts(job.request, b);
    var s, missing := Turn(job, b, i), Missing(job.request, b);
    hide Missing, Turn, Finish, Firsts;
    if job.request[i] !in s.bodies.vals && s.next < |fetched| {
      assert missing[s.next] in Elems(missing);
    }
  }

  // ---------- the condition in terms of the request and the cached keys ----------

  /** The keys in the order they were last touched when the merge looks at position u of the request: those cached,
      from the oldest on, then the hits of the filter pass, then the request. */
  function History(order: seq<B256>, request: seq<B256>, u: nat): seq<B256>
    requires u <= |request|
  {
    Reversed(order) + Keep(request, Elems(order)) + request[..u]
  }

  /** How many of the first u positions come after cap or more other keys were touched since their hash was. */
  function Misses(order: seq<B256>, cap: nat, request: seq<B256>, u: nat): nat
    requires u <= |request|
  {
    if u == 0 then 0
    else
      Misses(order, cap, request, u - 1)
      + if Recently(History(order, request, u - 1), cap, request[u - 1]) then 0 else 1
  }

  /** The first position, up to i, before which n misses lie, or i. */
  function UsedUp(order: seq<B256>, cap: nat, request: seq<B256>, n: nat, i: nat): (u: nat)
    requires i <= |request|
    ensures u <= i && Misses(order, cap, request, u) <= n
    ensures u < i ==> Misses(order, cap, request, u) == n
  {
    if i == 0 then 0
    else
      var u := UsedUp(order, cap, request, n, i - 1);
      if Misses(order, cap, request, u) >= n then u else i
  }

  /** A hash that came too late to be still cached is the one the next body of the reply was fetched for, or, when
      the reply is used up, one it does not cover. */
  predicate OwnBody(order: seq<B256>, cap: nat, request: seq<B256>, n: nat, i: nat)
    requires i < |request|
  {
    var missing, u := Keep(request, Elems(request) - Elems(order)), UsedUp(order, cap, request, n, i);
    var k := Misses(order, cap, request, u);
    Recently(History(order, request, u), cap, request[i])
    || if k < n then k < |missing| && missing[k] == request[i]
       else request[i] in missing && request[i] !in Take(missing, n)
  }

  lemma HistoryStep(order: seq<B256>, request: seq<B256>, u: nat)
    requires u < |request|
    ensures Recent(History(order, request, u + 1)) == Bump(Recent(History(order, request, u)), request[u])
    ensures NoDup(Recent(History(order, request, u)))
  {
    PrefixStep(request, u);
    assert History(order, request, u + 1) == History(order, request, u) + [request[u]];
    RecentStep(History(order, request, u), request[u]);
    RecentIsHistory(History(order, request, u));
  }

  lemma FilteredNext(job: Job, b: Bodies, i: nat)
    requires b.Valid() && i < |job.request|
    ensures var l, h := Filtered(job, b, i).bodies, job.request[i];
            && Filtered(job, b, i + 1).bodies == l.Touch(h)
            && l.Touch(h).order == if h in b.vals then Bump(l.order, h) else l.order
  {
    FilterAlone(job, b, i);
  }

  /** The filter pass leaves the cached keys in the order of the history before the merge. */
  lemma {:induction false} FilterOrder(job: Job, b: Bodies, i: nat)
    requires b.Valid() && i <= |job.request|
    ensures Filtered(job, b, i).bodies.order == Recent(Reversed(b.order) + Keep(job.request[..i], Elems(b.order)))
  {
    hide Filtered, Keep, Reversed, Recent, Bump, Lru.Touch, NoDup;
    if i == 0 {
      UnfilteredOrder(job, b);
    } else {
      var h, r, kept := job.request[i - 1], Reversed(b.order), Keep(job.request[..i - 1], Elems(b.order));
      FilterOrder(job, b, i - 1);
      FilteredNext(job, b, i - 1);
      KeepStep(job.request, i - 1, Elems(b.order));
      assert h in b.vals <==> h in Elems(b.order);
      RecentStep(r + kept, h);
      assert r + (kept + [h]) == (r + kept) + [h];
    }
  }

  lemma UnfilteredOrder(job: Job, b: Bodies)
    requires b.Valid()
    ensures Filtered(job, b, 0).bodies.order == Recent(Reversed(b.order) + Keep(job.request[..0], Elems(b.order)))
  {
    assert Reversed(b.order) + Keep(job.request[..0], Elems(b.order)) == Reversed(b.order);
    RecentReversed(b.order);
  }

  /** The turn at i agrees with the history up to u. */
  ghost predicate AgreesUpTo(order: seq<B256>, cap: nat, request: seq<B256>, s: Machine, u: nat)
    requires u <= |request|
  {
    && s.next == Misses(order, cap, request, u)
    && s.bodies.vals.Keys == Elems(Take(Recent(History(order, request, u)), cap))
    && (u == s.i ==> s.bodies.order == Take(Recent(History(order, request, u)), cap))
  }

  lemma HeldByHistory(order: seq<B256>, request: seq<B256>, s: Machine, u: nat, cap: nat, h: B256)
    requires u <= |request| && AgreesUpTo(order, cap, request, s, u)
    ensures h in s.bodies.vals <==> Recently(History(order, request, u), cap, h)
  {
    StackDistance(History(order, request, u), cap, h);
    hide Recent, History, Recently, Misses;
    var t := Take(Recent(History(order, request, u)), cap);
    assert h in Elems(t) <==> h in t;
    assert h in s.bodies.vals <==> h in s.bodies.vals.Keys;
  }

  lemma FirstAgrees(job: Job, b: Bodies, fetched: seq<Body>, truth: B256 -> Body)
    requires FetchedHonest(job, b, fetched, truth)
    ensures AgreesUpTo(b.order, b.cap, job.request, Turn(job, b, 0), 0)
  {
    MergeStartForm(job, b, fetched, truth);
    FilterOrder(job, b, |job.request|);
    FilterAlone(job, b, |job.request|);
    assert job.request[..|job.request|] == job.request && job.request[..0] == [];
    var h := Reversed(b.order) + Keep(job.request, Elems(b.order));
    assert History(b.order, job.request, 0) == h + [] == h;
    var l := Turn(job, b, 0).bodies;
    hide Keep, Recent, Filtered, MergeStart, Reversed, Missing;
    assert l.order == Take(l.order, b.cap);
  }

  /** While the reply lasts, a turn touches its hash if it is cached and pushes it if not. */
  lemma TurnAgrees(job: Job, s: Machine, order: seq<B256>)
    requires s.phase.Merging? && s.i < |job.request| && s.bodies.Valid() && s.next < |s.fetched|
    requires AgreesUpTo(order, s.bodies.cap, job.request, s, s.i)
    ensures AgreesUpTo(order, s.bodies.cap, job.request, MergeOne(job, s), s.i + 1)
  {
    var h, l, cap, t := job.request[s.i], s.bodies, s.bodies.cap, MergeOne(job, s);
    var r := Recent(History(order, job.request, s.i));
    HistoryStep(order, job.request, s.i);
    HeldByHistory(order, job.request, s, s.i, cap, h);
    TakeBump(r, cap, h);
    if h in l.vals {
      MergeOneHit(job, s);
      TouchFacts(l, h);
      assert t.bodies.order == Take(Bump(l.order, h), cap);
    } else {
      MergeOneMiss(job, s);
      PushValid(l, h, s.fetched[s.next]);
    }
    hide History, Recent, MergeOne, Recently, Lru.Push, Lru.Touch, Bump, Take;
    assert t.bodies.order == Take(Recent(History(order, job.request, s.i + 1)), cap);
  }

  /** Once the reply is used up nothing is pushed, so what is cached stays the same. */
  lemma TailAgrees(job: Job, s: Machine, order: seq<B256>, u: nat)
    requires s.phase.Merging? && s.i < |job.request| && s.bodies.Valid() && s.next >= |s.fetched| && u <= s.i
    requires AgreesUpTo(order, s.bodies.cap, job.request, s, u)
    ensures AgreesUpTo(order, s.bodies.cap, job.request, MergeOne(job, s), u)
  {
    var h := job.request[s.i];
    if h in s.bodies.vals {
      MergeOneHit(job, s);
      TouchFacts(s.bodies, h);
    } else {
      MergeOneMiss(job, s);
    }
    hide History, Recent, MergeOne, Take, Misses;
  }

  /** What the merge holds and has used at each turn is a matter of the history alone. */
  lemma {:induction false} TurnByHistory(job: Job, b: Bodies, fetched: seq<Body>, truth: B256 -> Body, i: nat)
    requires FetchedHonest(job, b, fetched, truth) && i <= |job.request|
    ensures AgreesUpTo(b.order, b.cap, job.request, Turn(job, b, i),
                       UsedUp(b.order, b.cap, job.request, |fetched|, i))
  {
    hide MergeOne, MergeStart, Missing, Finish, AgreesUpTo, Misses;
    if i == 0 {
      FirstAgrees(job, b, fetched, truth);
    } else {
      var s, u := Turn(job, b, i - 1), UsedUp(b.order, b.cap, job.request, |fetched|, i - 1);
      TurnByHistory(job, b, fetched, truth, i - 1);
      TurnForm(job, b, fetched, truth, i - 1);
      AgreedNext(b.order, b.cap, job.request, s, u);
      if s.next < |fetched| {
        TurnAgrees(job, s, b.order);
      } else {
        TailAgrees(job, s, b.order, u);
      }
    }
  }

  lemma AgreedNext(order: seq<B256>, cap: nat, request: seq<B256>, s: Machine, u: nat)
    requires u <= |request| && AgreesUpTo(order, cap, request, s, u)
    ensures s.next == Misses(order, cap, request, u)
  {
  }

  lemma TakesOwnIffOwnBody(job: Job, b: Bodies, fetched: seq<Body>, truth: B256 -> Body, i: nat)
    requires FetchedHonest(job, b, fetched, truth) && i < |job.request|
    ensures TakesOwn(job, b, |fetched|, i) <==> OwnBody(b.order, b.cap, job.request, |fetched|, i)
  {
    var s, u := Turn(job, b, i), UsedUp(b.order, b.cap, job.request, |fetched|, i);
    TurnByHistory(job, b, fetched, truth, i);
    AgreedNext(b.order, b.cap, job.request, s, u);
    HeldByHistory(b.order, job.request, s, u, b.cap, job.request[i]);
    assert b.vals.Keys == Elems(b.order);
    hide Turn, UsedUp, Misses, Recently, History, Keep, AgreesUpTo, Elems;
  }

  // ---------- main results ----------

  /** For any request, with repeats and in any capacity, and an honest reply: every turn answers the right body if
      and only if no body of the reply is taken at the turn of another hash and none is lacking at the end, which
      the request, the cached keys by recency and the length of the reply decide. */
  lemma EveryTurnRightIff(job: Job, b: Bodies, fetched: seq<Body>, truth: B256 -> Body)
    requires FetchedHonest(job, b, fetched, truth) && InjectiveOn(job.request, truth)
    ensures (forall i :: 0 <= i < |job.request| ==> RightTurn(job, b, fetched, truth, i))
            <==> (forall i :: 0 <= i < |job.request| ==> OwnBody(b.order, b.cap, job.request, |fetched|, i))
  {
    forall i | 0 <= i < |job.request|
      ensures TakesOwn(job, b, |fetched|, i) <==> OwnBody(b.order, b.cap, job.request, |fetched|, i)
      ensures RightTurn(job, b, fetched, truth, i) ==> TakesOwn(job, b, |fetched|, i)
    {
      TakesOwnIffOwnBody(job, b, fetched, truth, i);
      if RightTurn(job, b, fetched, truth, i) {
        RightIsOwn(job, b, fetched, truth, i);
      }
    }
    if forall i :: 0 <= i < |job.request| ==> TakesOwn(job, b, |fetched|, i) {
      forall i | 0 <= i < |job.request| ensures RightTurn(job, b, fetched, truth, i) {
        OwnIsRight(job, b, fetched, truth, i);
      }
    }
  }

  /** Until a turn takes another hash's body or goes without one that is wanted, all turns are right, and that turn is
      the first wrong one. */
  lemma FirstWrongTurn(job: Job, b: Bodies, fetched: seq<Body>, truth: B256 -> Body, p: nat)
    requires FetchedHonest(job, b, fetched, truth) && InjectiveOn(job.request, truth) && p < |job.request|
    requires forall i :: 0 <= i < p ==> OwnBody(b.order, b.cap, job.request, |fetched|, i)
    requires !OwnBody(b.order, b.cap, job.request, |fetched|, p)
    ensures (forall i :: 0 <= i < p ==> RightTurn(job, b, fetched, truth, i)) && !RightTurn(job, b, fetched, truth, p)
  {
    forall i | 0 <= i <= p
      ensures TakesOwn(job, b, |fetched|, i) <==> OwnBody(b.order, b.cap, job.request, |fetched|, i)
    {
      TakesOwnIffOwnBody(job, b, fetched, truth, i);
    }
    forall i | 0 <= i < p ensures RightTurn(job, b, fetched, truth, i) {
      OwnIsRight(job, b, fetched, truth, i);
    }
    if RightTurn(job, b, fetched, truth, p) {
      RightIsOwn(job, b, fetched, truth, p);
    }
  }

  // ---------- the condition depends on keys alone ----------

  ghost predicate SameKeys(l: Bodies, k: Bodies) {
    l.Valid() && k.Valid() && l.cap == k.cap && l.order == k.order
  }

  lemma SameKeysHeld(l: Bodies, k: Bodies, h: B256)
    requires SameKeys(l, k)
    ensures h in l.vals <==> h in k.vals
    ensures SameKeys(l.Touch(h), k.Touch(h))
    ensures forall x, y :: SameKeys(l.Push(h, x), k.Push(h, y))
  {
    assert (h in l.vals <==> h in Elems(l.order)) && (h in k.vals <==> h in Elems(k.order));
    TouchFacts(l, h);
    TouchFacts(k, h);
    forall x, y ensures SameKeys(l.Push(h, x), k.Push(h, y)) {
      PushValid(l, h, x);
      PushValid(k, h, y);
    }
  }

  lemma {:induction false} SameFiltered(job1: Job, b1: Bodies, job2: Job, b2: Bodies, i: nat)
    requires job1.request == job2.request && i <= |job1.request| && SameKeys(b1, b2)
    ensures SameKeys(Filtered(job1, b1, i).bodies, Filtered(job2, b2, i).bodies)
  {
    FilterAlone(job1, b1, i);
    FilterAlone(job2, b2, i);
    if i > 0 {
      FilterAlone(job1, b1, i - 1);
      FilterAlone(job2, b2, i - 1);
      SameFiltered(job1, b1, job2, b2, i - 1);
      SameKeysHeld(Filtered(job1, b1, i - 1).bodies, Filtered(job2, b2, i - 1).bodies, job1.request[i - 1]);
    }
  }

  lemma SameTurn(job1: Job, s: Machine, job2: Job, t: Machine)
    requires job1.request == job2.request && s.phase.Merging? && t.phase.Merging? && s.i == t.i < |job1.request|
    requires SameKeys(s.bodies, t.bodies) && s.next == t.next && |s.fetched| == |t.fetched|
    ensures SameKeys(MergeOne(job1, s).bodies, MergeOne(job2, t).bodies)
    ensures MergeOne(job1, s).next == MergeOne(job2, t).next
  {
    var h := job1.request[s.i];
    SameKeysHeld(s.bodies, t.bodies, h);
    if h in s.bodies.vals {
      MergeOneHit(job1, s);
      MergeOneHit(job2, t);
    } else {
      MergeOneMiss(job1, s);
      MergeOneMiss(job2, t);
    }
    hide MergeOne, SameKeys;
  }

  /** Which turns are hits, and how much of the reply is used at each, depends on the request, the keys cached and
      their order, and the length of the reply, but on no body. */
  lemma {:induction false} TurnsDependOnKeys(job1: Job, b1: Bodies, f1: seq<Body>, truth1: B256 -> Body,
                                             job2: Job, b2: Bodies, f2: seq<Body>, truth2: B256 -> Body, i: nat)
    requires FetchedHonest(job1, b1, f1, truth1) && FetchedHonest(job2, b2, f2, truth2)
    requires job1.request == job2.request && SameKeys(b1, b2) && |f1| == |f2| && i <= |job1.request|
    ensures SameKeys(Turn(job1, b1, i).bodies, Turn(job2, b2, i).bodies)
    ensures Turn(job1, b1, i).next == Turn(job2, b2, i).next
    ensures i < |job1.request| ==> (TakesOwn(job1, b1, |f1|, i) <==> TakesOwn(job2, b2, |f2|, i))
  {
    hide MergeOne, MergeStart, Finish, Missing, SameKeys;
    TurnForm(job1, b1, f1, truth1, i);
    TurnForm(job2, b2, f2, truth2, i);
    if i == 0 {
      MergeStartForm(job1, b1, f1, truth1);
      MergeStartForm(job2, b2, f2, truth2);
      SameFiltered(job1, b1, job2, b2, |job1.request|);
    } else {
      TurnForm(job1, b1, f1, truth1, i - 1);
      TurnForm(job2, b2, f2, truth2, i - 1);
      TurnsDependOnKeys(job1, b1, f1, truth1, job2, b2, f2, truth2, i - 1);
      SameTurn(job1, Turn(job1, b1, i - 1), job2, Turn(job2, b2, i - 1));
    }
    if i < |job1.request| {
      SameMissing(job1.request, b1, b2);
      SameKeysHeld(Turn(job1, b1, i).bodies, Turn(job2, b2, i).bodies, job1.request[i]);
      hide Turn;
    }
  }

  lemma SameMissing(request: seq<B256>, b1: Bodies, b2: Bodies)
    requires SameKeys(b1, b2)
    ensures Missing(request, b1) == Missing(request, b2)
  {
    assert b1.vals.Keys == Elems(b1.order) == b2.vals.Keys;
  }

  // ---------- a wrong turn the response does not show ----------

  /** A full cache of one: what a push leaves. */
  lemma PushOnly(l: Bodies, k: B256, x: Body)
    requires l.Valid() && l.cap == 1
    ensures l.Push(k, x).Valid() && l.Push(k, x).cap == 1 && l.Push(k, x).vals.Keys == {k} && l.Push(k, x).vals[k] == x
  {
    PushValid(l, k, x);
    forall h | h != k ensures h !in l.Push(k, x).vals {
      PushOther(l, k, x, h);
    }
  }

  lemma FilterFour(job: Job, a: B256, c: B256)
    requires job.request == [a, a, c, a]
    ensures var b0: Bodies := Fresh(1);
            Finish(job, Start(b0)) == Finish(job, Machine(b0, Filtering, 4, [a, a, c, a], [], 0, []))
  {
    var b0: Bodies := Fresh(1);
    hide Finish;
    var s1 := Machine(b0, Filtering, 1, [a], [], 0, []);
    var s2 := Machine(b0, Filtering, 2, [a, a], [], 0, []);
    var s3 := Machine(b0, Filtering, 3, [a, a, c], [], 0, []);
    FinishStep(job, Start(b0), s1);
    FinishStep(job, s1, s2);
    FinishStep(job, s2, s3);
    FinishStep(job, s3, Machine(b0, Filtering, 4, [a, a, c, a], [], 0, []));
  }

  /** The last two turns: c takes the body left over and evicts a, which then gets nothing. */
  lemma LastTwoTurns(job: Job, l: Bodies, a: B256, c: B256, x: Body, ms: seq<B256>)
    requires a != c && job.request == [a, a, c, a] && l.Valid() && l.cap == 1 && l.vals.Keys == {a}
    ensures var s := Finish(job, Machine(l, Merging, 2, ms, [x, x], 1, [x, x]));
            s.out == [x, x, x] && s.bodies.Lookup(c) == Some(x)
  {
    var f, l2 := [x, x], l.Push(c, x);
    PushOnly(l, c, x);
    hide Finish;
    var s2 := Machine(l, Merging, 2, ms, f, 1, [x, x]);
    var s3 := Machine(l2, Merging, 3, ms, f, 2, [x, x, x]);
    FinishStep(job, s2, Machine(l, Inserting(x), 2, ms, f, 2, [x, x]));
    FinishStep(job, Machine(l, Inserting(x), 2, ms, f, 2, [x, x]), s3);
    FinishStep(job, s3, s3.(i := 4));
    FinishStep(job, s3.(i := 4), s3.(i := 4, phase := Done));
    FinishDone(job, s3.(i := 4, phase := Done));
  }

  lemma GatherNothing(f: B256 -> Option<Body>)
    ensures Gather([], f) == []
  {
  }

  lemma AlignedFour(a: B256, c: B256, truth: B256 -> Body)
    requires a != c
    ensures AlignedResponse([a, a, c, a], [a, a, c, a], 2, truth) == [truth(a), truth(a), truth(a)]
  {
    var r, x := [a, a, c, a], truth(a);
    var w := Wanted(r, 2, truth);
    assert Take(r, 2) == [a, a] && w(a) == Some(x) && w(c) == None;
    hide Wanted;
    hide Gather;
    GatherNothing(w);
    GatherStep(r, 0, w);
    GatherStep(r, 1, w);
    GatherStep(r, 2, w);
    GatherStep(r, 3, w);
    assert r[..0] == [] && r[..4] == r;
  }

  /** Capacity 1, nothing cached, request a, a, c, a and a reply that stops after two bodies: c is answered with the
      body of a, and evicts a, which is then left unanswered. As a list of bodies the response is the right one,
      though the cache holds a wrong body. So no condition for the response alone is one for its turns. */
  lemma WrongTurnsCanCancel(job: Job, a: B256, c: B256, truth: B256 -> Body)
    requires a != c && job.request == [a, a, c, a]
    requires job.peer([a, a, c, a]) == Some([truth(a), truth(a)])
    ensures Missing(job.request, Fresh(1)) == [a, a, c, a]
    ensures var s := Finish(job, Start(Fresh(1)));
            && s.out == AlignedResponse(job.request, [a, a, c, a], 2, truth)
            && s.bodies.Lookup(c) == Some(truth(a))
  {
    var x, ms := truth(a), [a, a, c, a];
    var b0: Bodies := Fresh(1);
    PushOnly(b0, a, x);
    TouchFacts(b0.Push(a, x), a);
    KeepAll(ms, Elems(ms) - b0.vals.Keys);
    FilterFour(job, a, c);
    AlignedFour(a, c, truth);
    hide Finish, AlignedResponse, Lru.Push, Lru.Touch;
    RepeatFirstTwo(job, b0, a, ms, [x, x]);
    LastTwoTurns(job, b0.Push(a, x).Touch(a), a, c, x, ms);
  }
}
