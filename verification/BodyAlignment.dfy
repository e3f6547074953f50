/** What the merge answers: over every schedule of imports, and when the answer is the right one. */
module BodyAlignment {
  import opened Recency
  import opened LruMap
  import opened Types
  import opened BodyMerge

  // ---------- the filter pass on its own ----------

  /** The hashes a filter pass finds missing. */
  function Missing(request: seq<B256>, b: Bodies): seq<B256> {
    Keep(request, Elems(request) - b.vals.Keys)
  }

  /** The state after the filter pass looked at i hashes. */
  function Filtered(job: Job, b: Bodies, i: nat): Machine {
    if i == 0 then Start(b) else Handler(job, Filtered(job, b, i - 1))
  }

  lemma {:induction false} FilterAlone(job: Job, b: Bodies, i: nat)
    requires b.Valid() && i <= |job.request|
    ensures var s := Filtered(job, b, i);
            && s == Machine(s.bodies, Filtering, i, s.missing, [], 0, [])
            && s.bodies.Valid() && s.bodies.cap == b.cap && s.bodies.vals == b.vals
            && s.missing == Keep(job.request[..i], Elems(job.request) - b.vals.Keys)
  {
    if i > 0 {
      FilterAlone(job, b, i - 1);
      PrefixStep(job.request, i - 1);
      TouchFacts(Filtered(job, b, i - 1).bodies, job.request[i - 1]);
      assert job.request[i - 1] in Elems(job.request);
    }
  }

  lemma {:induction false} FinishFiltered(job: Job, b: Bodies, i: nat)
    requires b.Valid() && i <= |job.request|
    ensures Finish(job, Filtered(job, b, i)) == Finish(job, Start(b))
  {
    if i > 0 {
      FilterAlone(job, b, i - 1);
      FinishStep(job, Filtered(job, b, i - 1), Filtered(job, b, i));
      hide Finish, Filtered;
      FinishFiltered(job, b, i - 1);
    }
  }

  lemma {:induction false} FinishKeepsMissing(job: Job, s: Machine)
    requires s.phase.Filtering? ==> s.i >= |job.request|
    ensures Finish(job, s).missing == s.missing
    decreases Measure(job, s)
  {
    if !s.phase.Done? {
      HandlerProgress(job, s);
      FinishKeepsMissing(job, Handler(job, s));
    }
  }

  lemma {:induction false} RunKeepsMissing(job: Job, s: Machine, steps: seq<Step>)
    requires s.phase.Filtering? ==> s.i >= |job.request|
    ensures var t := Run(job, s, steps);
            t.missing == s.missing && (t.phase.Filtering? ==> t.i >= |job.request|)
  {
    if steps != [] {
      RunKeepsMissing(job, s, steps[..|steps| - 1]);
    }
  }

  lemma {:induction false} FinishKeepsInv(job: Job, w: set<B256>, orig: map<B256, Body>, s: Machine)
    requires Inv(job, w, orig, s)
    ensures Inv(job, w, orig, Finish(job, s))
    decreases Measure(job, s)
  {
    hide Inv;
    if !s.phase.Done? {
      HandlerProgress(job, s);
      HandlerKeepsInv(job, w, orig, s);
      FinishKeepsInv(job, w, orig, Handler(job, s));
    }
  }

  // ---------- main results: any schedule ----------

  /** Every requested hash is cached with the body it was answered with, and is absent if it got none. */
  ghost predicate AnswersCached(job: Job, orig: map<B256, Body>, s: Machine) {
    Merged(job, s.missing) ==>
      forall h :: h in job.request ==>
                    s.bodies.Lookup(h) == AnswerOf(job.request, Elems(s.missing), orig, job.peer(s.missing).value)(h)
  }

  lemma DoneCaches(job: Job, w: set<B256>, orig: map<B256, Body>, s: Machine)
    requires Inv(job, w, orig, s) && s.phase.Done?
    ensures AnswersCached(job, orig, s)
  {
  }

  /** The handler alone: with room for the requested hashes, the merge answers exactly the closed form, whatever
      the peer replied and however often a hash is repeated, and every answer is then cached. */
  lemma FinishAnswers(job: Job, b: Bodies)
    requires b.Valid() && |Elems(job.request)| <= b.cap
    ensures Finish(job, Start(b)).missing == Missing(job.request, b)
    ensures Finish(job, Start(b)).out == Response(job, b.vals, Missing(job.request, b))
    ensures AnswersCached(job, b.vals, Finish(job, Start(b)))
  {
    var n := |job.request|;
    StartInv(job, Elems(job.request), b);
    FinishKeepsInv(job, Elems(job.request), b.vals, Start(b));
    DoneCaches(job, Elems(job.request), b.vals, Finish(job, Start(b)));
    hide AnswersCached;
    FinishFiltered(job, b, n);
    FilterAlone(job, b, n);
    FinishKeepsMissing(job, Filtered(job, b, n));
    assert job.request[..n] == job.request;
  }

  /** Imports of unrequested hashes at any points, the filter pass included: the answer is the closed form over
      the hashes the filter pass found missing. */
  lemma MergeAlignedUnderImports(job: Job, b: Bodies, steps: seq<Step>)
    requires b.Valid() && Imported(steps) !! Elems(job.request)
    requires |Elems(job.request)| + |Imported(steps)| <= b.cap
    ensures var s := Run(job, Start(b), steps);
            s.phase.Done? ==>
              && s.missing == Keep(job.request, Elems(s.missing))
              && (forall h :: h in job.request && h !in s.missing ==> h in b.vals)
              && s.out == Response(job, b.vals, s.missing)
              && AnswersCached(job, b.vals, s)
  {
    var w := Elems(job.request) + Imported(steps);
    StartInv(job, w, b);
    RunKeepsInv(job, w, b.vals, Start(b), steps);
    var s := Run(job, Start(b), steps);
    if s.phase.Done? {
      DoneCaches(job, w, b.vals, s);
    }
    hide AnswersCached;
    assert forall h :: h in Elems(s.missing) ==> h in s.missing;
  }

  /** Imports after the filter pass change nothing: the answer is the one the handler alone would give. */
  lemma MergeToleratesImports(job: Job, b: Bodies, steps: seq<Step>)
    requires b.Valid() && Imported(steps) !! Elems(job.request)
    requires |Elems(job.request)| + |Imported(steps)| <= b.cap
    ensures var s := Run(job, Filtered(job, b, |job.request|), steps);
            s.phase.Done? ==> s.out == Finish(job, Start(b)).out
  {
    var n := |job.request|;
    var w := Elems(job.request) + Imported(steps);
    FinishAnswers(job, b);
    FilterAlone(job, b, n);
    assert job.request[..n] == job.request;
    StartInv(job, w, b);
    FilteredInv(job, w, b, n);
    RunKeepsInv(job, w, b.vals, Filtered(job, b, n), steps);
    RunKeepsMissing(job, Filtered(job, b, n), steps);
  }

  lemma {:induction false} FilteredInv(job: Job, w: set<B256>, b: Bodies, i: nat)
    requires Inv(job, w, b.vals, Start(b))
    ensures Inv(job, w, b.vals, Filtered(job, b, i))
  {
    hide Inv;
    if i > 0 {
      FilteredInv(job, w, b, i - 1);
      HandlerKeepsInv(job, w, b.vals, Filtered(job, b, i - 1));
    }
  }

  function HandleCount(steps: seq<Step>): nat {
    if steps == [] then 0 else HandleCount(steps[..|steps| - 1]) + if steps[|steps| - 1].Handle? then 1 else 0
  }

  /** Under any interference the handler is done after a bounded number of its own steps. */
  lemma {:induction false} EnoughHandlesFinish(job: Job, s: Machine, steps: seq<Step>)
    ensures HandleCount(steps) >= Measure(job, s) ==> Run(job, s, steps).phase.Done?
    ensures !Run(job, s, steps).phase.Done? ==> Measure(job, Run(job, s, steps)) + HandleCount(steps) <= Measure(job, s)
  {
    if steps != [] {
      var t := Run(job, s, steps[..|steps| - 1]);
      EnoughHandlesFinish(job, s, steps[..|steps| - 1]);
      if !t.phase.Done? {
        HandlerProgress(job, t);
      }
    }
  }

  // ---------- when the answer is right ----------

  /** The reply is the correct bodies of a prefix of the missing list, in order. */
  ghost predicate PrefixReply(fetched: seq<Body>, missing: seq<B256>, truth: B256 -> Body) {
    |fetched| <= |missing| && forall j :: 0 <= j < |fetched| ==> fetched[j] == truth(missing[j])
  }

  ghost predicate Correct(b: Bodies, truth: B256 -> Body) {
    forall h :: h in b.vals ==> b.vals[h] == truth(h)
  }

  /** The requested hashes have pairwise different correct bodies. */
  ghost predicate InjectiveOn(request: seq<B256>, truth: B256 -> Body) {
    forall g, h :: g in request && h in request && truth(g) == truth(h) ==> g == h
  }

  /** The correct body of each hash that was cached, or that the first n missing hashes cover. */
  function Wanted(missing: seq<B256>, n: nat, truth: B256 -> Body): B256 -> Option<Body> {
    h => if h !in missing || h in Take(missing, n) then Some(truth(h)) else None
  }

  function AlignedResponse(request: seq<B256>, missing: seq<B256>, n: nat, truth: B256 -> Body): seq<Body> {
    Gather(request, Wanted(missing, n, truth))
  }

  /** The distinct hashes of m in the order the request first names them. */
  function Firsts(request: seq<B256>, m: set<B256>): seq<B256> {
    if request == [] then []
    else
      var g, h := request[..|request| - 1], request[|request| - 1];
      Firsts(g, m) + if h in m && h !in g then [h] else []
  }

  lemma ElemsAppend(g: seq<B256>, h: B256, m: set<B256>)
    ensures Elems(g + [h]) == Elems(g) + {h}
    ensures Elems(g + [h]) * m == if h in m && h !in g then Elems(g) * m + {h} else Elems(g) * m
  {
    assert forall x :: x in g + [h] <==> x in g || x == h;
  }

  lemma NoDupAppend(s: seq<B256>, h: B256)
    requires NoDup(s) && h !in s
    ensures NoDup(s + [h])
  {
  }

  lemma {:induction false} FirstsFacts(request: seq<B256>, m: set<B256>)
    ensures NoDup(Firsts(request, m)) && Elems(Firsts(request, m)) == Elems(request) * m
    ensures |Firsts(request, m)| == |Elems(request) * m|
    ensures |Firsts(request, m)| <= |Keep(request, m)|
  {
    if request != [] {
      var g, h := request[..|request| - 1], request[|request| - 1];
      FirstsFacts(g, m);
      assert request == g + [h];
      ElemsAppend(g, h, m);
      hide NoDup;
      if h in m && h !in g {
        assert h !in Elems(Firsts(g, m));
        NoDupAppend(Firsts(g, m), h);
        ElemsAppend(Firsts(g, m), h, m);
      } else {
        assert Firsts(g, m) + [] == Firsts(g, m);
      }
    }
  }

  lemma {:induction false} FirstAtAppend(g: seq<B256>, h: B256, x: B256)
    requires x in g
    ensures FirstAt(g + [h], x) == FirstAt(g, x)
  {
    var r := g + [h];
    if g[0] != x {
      assert r[1..] == g[1..] + [h];
      FirstAtAppend(g[1..], h, x);
    }
  }

  /** The rank of a missing hash is its place among the first occurrences. */
  lemma {:induction false} RankIsPlace(request: seq<B256>, m: set<B256>, h: B256)
    requires h in request && h in m
    ensures Rank(request, m, h) < |Firsts(request, m)| && Firsts(request, m)[Rank(request, m, h)] == h
  {
    var g, x := request[..|request| - 1], request[|request| - 1];
    assert request == g + [x];
    if h in g {
      RankIsPlace(g, m, h);
      FirstAtAppend(g, x, h);
      assert request[..FirstAt(g, h)] == g[..FirstAt(g, h)];
    } else {
      FirstsFacts(g, m);
      FirstAtPrefix(request, |g|, h);
    }
  }

  lemma {:induction false} KeepElems(request: seq<B256>, m: set<B256>)
    ensures Elems(Keep(request, m)) == Elems(request) * m
  {
    if request != [] {
      var g, h := request[..|request| - 1], request[|request| - 1];
      KeepElems(g, m);
      assert request == g + [h];
      ElemsAppend(g, h, m);
      ElemsAppend(Keep(g, m), h, m);
      assert Keep(g, m) + [] == Keep(g, m);
    }
  }

  /** The hash at place j of the missing list has rank at most j. */
  lemma {:induction false} RankAtMostPlace(request: seq<B256>, m: set<B256>, j: nat)
    requires j < |Keep(request, m)|
    ensures Keep(request, m)[j] in request && Rank(request, m, Keep(request, m)[j]) <= j
  {
    var g, x := request[..|request| - 1], request[|request| - 1];
    assert request == g + [x];
    var k := Keep(request, m);
    if j < |Keep(g, m)| {
      RankAtMostPlace(g, m, j);
      FirstAtAppend(g, x, k[j]);
      assert request[..FirstAt(g, k[j])] == g[..FirstAt(g, k[j])];
    } else if x in g {
      KeepElems(g, m);
      assert x in Elems(Keep(g, m));
      var i :| 0 <= i < |Keep(g, m)| && Keep(g, m)[i] == x;
      RankAtMostPlace(g, m, i);
      FirstAtAppend(g, x, x);
      assert request[..FirstAt(g, x)] == g[..FirstAt(g, x)];
    } else {
      FirstsFacts(g, m);
      FirstAtPrefix(request, |g|, x);
    }
  }

  lemma NotRepeated(s: seq<B256>, n: nat, k: nat)
    requires k < n <= |s| && NoDup(s[..n])
    ensures s[k] !in s[..k]
  {
    forall i | 0 <= i < k ensures s[i] != s[k] {
      assert s[..n][i] == s[i] && s[..n][k] == s[k];
    }
  }

  /** As long as the missing list does not repeat itself it lists the first occurrences. */
  lemma {:induction false} KeepStartsWithFirsts(request: seq<B256>, m: set<B256>, n: nat)
    requires n <= |Firsts(request, m)| <= |Keep(request, m)| && NoDup(Keep(request, m)[..n])
    ensures Keep(request, m)[..n] == Firsts(request, m)[..n]
  {
    if request != [] {
      var g, h := request[..|request| - 1], request[|request| - 1];
      var kg, fg := Keep(g, m), Firsts(g, m);
      FirstsFacts(g, m);
      KeepElems(g, m);
      assert request == g + [h];
      var k := if n <= |fg| then n else |fg|;
      assert Keep(request, m)[..n][..k] == kg[..k];
      KeepStartsWithFirsts(g, m, k);
      hide NoDup;
      if n > |fg| && |kg| > |fg| {
        assert fg[..k] == fg && Keep(request, m)[..k] == fg && Keep(request, m)[k] == kg[k];
        assert kg[k] in Elems(kg);
        assert kg[k] in fg;
        NotRepeated(Keep(request, m), n, k);
        assert false;
      }
    }
  }

  // ---------- comparing two answers to one request ----------

  lemma {:induction false} GatherSame<V>(keys: seq<B256>, f: B256 -> Option<V>, g: B256 -> Option<V>)
    requires forall k :: k in keys ==> f(k) == g(k)
    ensures Gather(keys, f) == Gather(keys, g)
  {
    if keys != [] {
      assert keys[|keys| - 1] in keys;
      GatherSame(keys[..|keys| - 1], f, g);
    }
  }

  lemma {:induction false} GatherPrefix<V>(keys: seq<B256>, p: nat, f: B256 -> Option<V>)
    requires p <= |keys|
    ensures Gather(keys[..p], f) <= Gather(keys, f)
  {
    if p < |keys| {
      var g := keys[..|keys| - 1];
      assert g[..p] == keys[..p];
      GatherPrefix(g, p, f);
    } else {
      assert keys[..p] == keys;
    }
  }

  /** Answers that agree before position p and give different bodies there are different. */
  lemma GatherDiffers<V>(keys: seq<B256>, p: nat, f: B256 -> Option<V>, g: B256 -> Option<V>)
    requires p < |keys| && Gather(keys[..p], f) == Gather(keys[..p], g)
    requires f(keys[p]).Some? && g(keys[p]).Some? && f(keys[p]) != g(keys[p])
    ensures Gather(keys, f) != Gather(keys, g)
  {
    GatherStep(keys, p, f);
    GatherStep(keys, p, g);
    GatherPrefix(keys, p + 1, f);
    GatherPrefix(keys, p + 1, g);
    var n := |Gather(keys[..p], f)|;
    assert Gather(keys, f)[n] == f(keys[p]).value;
    assert Gather(keys, g)[n] == g(keys[p]).value;
  }

  /** An answer that says something wherever another does, and somewhere more, is longer. */
  lemma {:induction false} GatherLonger<V>(keys: seq<B256>, f: B256 -> Option<V>, g: B256 -> Option<V>)
    requires forall k :: k in keys && g(k).Some? ==> f(k).Some?
    ensures |Gather(keys, g)| <= |Gather(keys, f)|
    ensures (exists k :: k in keys && g(k).None? && f(k).Some?) ==> |Gather(keys, g)| < |Gather(keys, f)|
  {
    if keys != [] {
      var l := keys[|keys| - 1];
      assert l in keys;
      assert keys == keys[..|keys| - 1] + [l];
      GatherLonger(keys[..|keys| - 1], f, g);
    }
  }

  // ---------- exactly when repeats do no harm ----------

  /** How much of a reply of n bodies the merge can use: one body per distinct missing hash. */
  function Usable(missing: seq<B256>, n: nat): nat {
    var distinct := |Elems(missing)|;
    if distinct <= n then distinct else n
  }

  /** The missing hashes the usable part of the reply is matched with are pairwise distinct. */
  ghost predicate NoEarlyRepeat(missing: seq<B256>, n: nat)
    requires n <= |missing|
  {
    NoDup(missing[..Usable(missing, n)])
  }

  /** The standing of one request whose fetch succeeded with an honest, possibly short, reply. */
  ghost predicate Fetched(job: Job, b: Bodies, fetched: seq<Body>, truth: B256 -> Body) {
    && b.Valid() && |Elems(job.request)| <= b.cap && Correct(b, truth)
    && Missing(job.request, b) != [] && job.peer(Missing(job.request, b)) == Some(fetched)
    && PrefixReply(fetched, Missing(job.request, b), truth)
  }

  lemma MissingFacts(request: seq<B256>, b: Bodies)
    ensures var missing := Missing(request, b);
            && Elems(missing) == Elems(request) - b.vals.Keys
            && missing == Keep(request, Elems(missing))
            && |Firsts(request, Elems(missing))| == |Elems(missing)| <= |missing|
            && Elems(Firsts(request, Elems(missing))) == Elems(missing)
  {
    var m := Elems(request) - b.vals.Keys;
    KeepElems(request, m);
    assert Elems(request) * m == m;
    FirstsFacts(request, m);
  }

  /** Two lists that agree as far as usable: the r-th of the one is among the first n of the other iff r < n. */
  lemma CoveredByRank(missing: seq<B256>, f: seq<B256>, n: nat, r: nat)
    requires n <= |missing| && |f| <= |missing| && NoDup(f) && r < |f|
    requires var u := if |f| <= n then |f| else n; missing[..u] == f[..u]
    ensures f[r] in Take(missing, n) <==> r < n
    ensures r < n ==> missing[r] == f[r]
  {
    var u := if |f| <= n then |f| else n;
    if r < n {
      assert missing[..u][r] == f[..u][r];
      assert Take(missing, n)[r] == f[r];
    } else {
      assert Take(missing, n) == f[..n];
    }
  }

  /** When the missing list and the first occurrences agree up to the usable part, every answer is right. */
  lemma AnswersRight(job: Job, b: Bodies, fetched: seq<Body>, truth: B256 -> Body, h: B256)
    requires Fetched(job, b, fetched, truth) && h in job.request
    requires NoEarlyRepeat(Missing(job.request, b), |fetched|)
    ensures var missing := Missing(job.request, b);
            AnswerOf(job.request, Elems(missing), b.vals, fetched)(h) == Wanted(missing, |fetched|, truth)(h)
  {
    var missing := Missing(job.request, b);
    var m, n := Elems(missing), |fetched|;
    MissingFacts(job.request, b);
    assert h in missing <==> h in m;
    if h in m {
      var f, r := Firsts(job.request, m), Rank(job.request, m, h);
      KeepStartsWithFirsts(job.request, m, Usable(missing, n));
      RankIsPlace(job.request, m, h);
      FirstsFacts(job.request, m);
      hide Missing, Keep, Firsts, Rank, NoDup, Take, Elems;
      CoveredByRank(missing, f, n, r);
    } else {
      assert h in Elems(job.request);
      hide Missing, Keep, Rank;
    }
  }

  lemma AlignedIf(job: Job, b: Bodies, fetched: seq<Body>, truth: B256 -> Body)
    requires Fetched(job, b, fetched, truth)
    requires NoEarlyRepeat(Missing(job.request, b), |fetched|)
    ensures Finish(job, Start(b)).out == AlignedResponse(job.request, Missing(job.request, b), |fetched|, truth)
  {
    FinishAnswers(job, b);
    var missing := Missing(job.request, b);
    forall h | h in job.request
      ensures AnswerOf(job.request, Elems(missing), b.vals, fetched)(h) == Wanted(missing, |fetched|, truth)(h)
    {
      AnswersRight(job, b, fetched, truth, h);
    }
    GatherSame(job.request, AnswerOf(job.request, Elems(missing), b.vals, fetched), Wanted(missing, |fetched|, truth));
  }

  /** The least place where two lists differ. */
  lemma {:induction false} LeastDifference(a: seq<B256>, c: seq<B256>, n: nat) returns (r: nat)
    requires n <= |a| && n <= |c| && a[..n] != c[..n]
    ensures r < n && a[r] != c[r] && a[..r] == c[..r]
  {
    if a[..n - 1] == c[..n - 1] {
      r := n - 1;
      assert a[..n] == a[..n - 1] + [a[n - 1]] && c[..n] == c[..n - 1] + [c[n - 1]];
    } else {
      r := LeastDifference(a, c, n - 1);
    }
  }

  lemma PlaceInTake(s: seq<B256>, n: nat, h: B256) returns (j: nat)
    requires h in Take(s, n)
    ensures j < n && j < |s| && s[j] == h
  {
    j :| 0 <= j < |Take(s, n)| && Take(s, n)[j] == h;
  }

  /** Whatever a covered hash is, the merge has some answer for it. */
  lemma CoveredIsAnswered(job: Job, b: Bodies, fetched: seq<Body>, truth: B256 -> Body, h: B256)
    requires Fetched(job, b, fetched, truth) && h in job.request
    requires Wanted(Missing(job.request, b), |fetched|, truth)(h).Some?
    ensures AnswerOf(job.request, Elems(Missing(job.request, b)), b.vals, fetched)(h).Some?
  {
    var missing := Missing(job.request, b);
    MissingFacts(job.request, b);
    hide Missing, Keep, Firsts, Rank, Take;
    if h in missing {
      var j := PlaceInTake(missing, |fetched|, h);
      RankAtMostPlace(job.request, Elems(missing), j);
    } else {
      assert h in Elems(job.request) && h !in Elems(missing);
    }
  }

  /** Before the first occurrence of the r-th distinct missing hash the answers are right, if the missing list
      agrees with the first occurrences up to r. */
  lemma RightBefore(job: Job, b: Bodies, fetched: seq<Body>, truth: B256 -> Body, r: nat, h: B256)
    requires Fetched(job, b, fetched, truth)
    requires var m := Elems(Missing(job.request, b));
             && r < |Firsts(job.request, m)| && r < |fetched|
             && Missing(job.request, b)[..r] == Firsts(job.request, m)[..r]
             && h in job.request[..FirstAt(job.request, Firsts(job.request, m)[r])]
    ensures var missing := Missing(job.request, b);
            AnswerOf(job.request, Elems(missing), b.vals, fetched)(h) == Wanted(missing, |fetched|, truth)(h)
  {
    var missing := Missing(job.request, b);
    var m := Elems(missing);
    MissingFacts(job.request, b);
    hide Missing, Keep, Firsts;
    var f := Firsts(job.request, m);
    var p := FirstAt(job.request, f[r]);
    assert forall x :: x in job.request[..p] ==> x in job.request;
    if h in m {
      FirstAtPrefix(job.request, p, h);
      var q, a := FirstAt(job.request, h), Rank(job.request, m, h);
      assert f[r] in Elems(f);
      RankIsPlace(job.request, m, h);
      RankIsPlace(job.request, m, f[r]);
      FirstsFacts(job.request, m);
      assert forall x :: x in job.request[..q] ==> x in job.request[..p];
      SubsetCard(Elems(job.request[..q]) * m, Elems(job.request[..p]) * m);
      assert a != Rank(job.request, m, f[r]);
      assert missing[..r][a] == f[..r][a];
      assert Take(missing, |fetched|)[a] == h;
    } else {
      assert h in Elems(job.request) && h !in Elems(missing);
    }
  }

  /** The first place where the missing list departs from the first occurrences. */
  lemma FirstWrong(request: seq<B256>, b: Bodies, n: nat) returns (r: nat)
    requires n <= |Missing(request, b)| && !NoEarlyRepeat(Missing(request, b), n)
    ensures var missing := Missing(request, b);
            var m := Elems(missing);
            var f := Firsts(request, m);
            && r < |f| && r < n && missing[..r] == f[..r] && missing[r] != f[r]
            && missing[r] in request && f[r] in request && f[r] in m && Rank(request, m, f[r]) == r
  {
    MissingFacts(request, b);
    var missing := Missing(request, b);
    var m := Elems(missing);
    var f, u := Firsts(request, m), Usable(missing, n);
    FirstsFacts(request, m);
    assert NoDup(f[..u]);
    r := LeastDifference(missing, f, u);
    assert f[r] in Elems(f) && missing[r] in Elems(missing);
    RankIsPlace(request, m, f[r]);
  }

  lemma AlignedOnlyIf(job: Job, b: Bodies, fetched: seq<Body>, truth: B256 -> Body)
    requires Fetched(job, b, fetched, truth) && InjectiveOn(job.request, truth)
    requires !NoEarlyRepeat(Missing(job.request, b), |fetched|)
    ensures Finish(job, Start(b)).out != AlignedResponse(job.request, Missing(job.request, b), |fetched|, truth)
  {
    hide Firsts, Missing, Gather, Finish;
    FinishAnswers(job, b);
    var r := FirstWrong(job.request, b, |fetched|);
    var h := Firsts(job.request, Elems(Missing(job.request, b)))[r];
    WrongAt(job, b, fetched, truth, r, h, FirstAt(job.request, h));
  }

  lemma WrongAt(job: Job, b: Bodies, fetched: seq<Body>, truth: B256 -> Body, r: nat, h: B256, p: nat)
    requires Fetched(job, b, fetched, truth) && InjectiveOn(job.request, truth)
    requires var missing := Missing(job.request, b);
             var f := Firsts(job.request, Elems(missing));
             && r < |f| && r < |fetched| && missing[..r] == f[..r] && h == f[r] && missing[r] != h
             && p == FirstAt(job.request, h) < |job.request|
             && missing[r] in job.request && h in job.request
             && AnswerOf(job.request, Elems(missing), b.vals, fetched)(h) == Some(truth(missing[r]))
    ensures var missing := Missing(job.request, b);
            Gather(job.request, AnswerOf(job.request, Elems(missing), b.vals, fetched))
            != Gather(job.request, Wanted(missing, |fetched|, truth))
  {
    var missing := Missing(job.request, b);
    var answer, wanted := AnswerOf(job.request, Elems(missing), b.vals, fetched), Wanted(missing, |fetched|, truth);
    hide AnswerOf, Wanted, Answer, Rank, Firsts, Missing, Gather, Take;
    if wanted(h).Some? {
      forall g | g in job.request[..p] ensures answer(g) == wanted(g) {
        RightBefore(job, b, fetched, truth, r, g);
      }
      GatherSame(job.request[..p], answer, wanted);
      WantedIsTruth(missing, |fetched|, truth, h);
      GatherDiffers(job.request, p, answer, wanted);
    } else {
      forall g | g in job.request && wanted(g).Some? ensures answer(g).Some? {
        CoveredIsAnswered(job, b, fetched, truth, g);
      }
      assert job.request[p] == h;
      GatherLonger(job.request, answer, wanted);
    }
  }

  lemma WantedIsTruth(missing: seq<B256>, n: nat, truth: B256 -> Body, h: B256)
    ensures Wanted(missing, n, truth)(h).Some? ==> Wanted(missing, n, truth)(h) == Some(truth(h))
  {
  }

  /** With room for the requested hashes and an honest reply, the merge answers the correct body of exactly each
      hash that was cached or covered by the reply, in request order, if and only if no hash is repeated among
      the missing hashes that the usable part of the reply is matched with. */
  lemma AlignedIffNoEarlyRepeat(job: Job, b: Bodies, fetched: seq<Body>, truth: B256 -> Body)
    requires Fetched(job, b, fetched, truth) && InjectiveOn(job.request, truth)
    ensures Finish(job, Start(b)).out == AlignedResponse(job.request, Missing(job.request, b), |fetched|, truth)
            <==> NoEarlyRepeat(Missing(job.request, b), |fetched|)
  {
    if NoEarlyRepeat(Missing(job.request, b), |fetched|) {
      AlignedIf(job, b, fetched, truth);
    } else {
      AlignedOnlyIf(job, b, fetched, truth);
    }
  }

  /** Every requested hash left in the cache has its correct body. */
  ghost predicate RequestedCorrect(request: seq<B256>, l: Bodies, truth: B256 -> Body) {
    forall h :: h in request && h in l.vals ==> l.vals[h] == truth(h)
  }

  /** With room for the requested hashes and an honest reply, the merge leaves only correct bodies under the
      requested hashes under the same condition as it answers right: no early repeat. */
  lemma CacheCorrectIffNoEarlyRepeat(job: Job, b: Bodies, fetched: seq<Body>, truth: B256 -> Body)
    requires Fetched(job, b, fetched, truth) && InjectiveOn(job.request, truth)
    ensures RequestedCorrect(job.request, Finish(job, Start(b)).bodies, truth)
            <==> NoEarlyRepeat(Missing(job.request, b), |fetched|)
  {
    var s, missing := Finish(job, Start(b)), Missing(job.request, b);
    FinishAnswers(job, b);
    hide Finish, Firsts, Missing, Rank;
    if NoEarlyRepeat(missing, |fetched|) {
      forall h | h in job.request && h in s.bodies.vals ensures s.bodies.vals[h] == truth(h) {
        AnswersRight(job, b, fetched, truth, h);
      }
    } else {
      var r := FirstWrong(job.request, b, |fetched|);
      var h := Firsts(job.request, Elems(missing))[r];
      assert s.bodies.Lookup(h) == Some(truth(missing[r]));
    }
  }

  // ---------- pairwise distinct requests, under imports ----------

  lemma {:induction false} DistinctKeep(request: seq<B256>, m: set<B256>)
    requires NoDup(request)
    ensures Keep(request, m) == Firsts(request, m)
  {
    if request != [] {
      var g, h := request[..|request| - 1], request[|request| - 1];
      assert request == g + [h];
      assert h !in g;
      DistinctKeep(g, m);
    }
  }

  /** A peer that answers any list with the correct bodies of a prefix of it, or fails. */
  ghost predicate HonestPeer(job: Job, truth: B256 -> Body) {
    forall missing :: job.peer(missing).Some? ==> PrefixReply(job.peer(missing).value, missing, truth)
  }

  ghost predicate HonestImports(steps: seq<Step>, truth: B256 -> Body) {
    forall step :: step in steps && step.Import? ==> step.body == truth(step.hash)
  }

  lemma PushKeepsCorrect(b: Bodies, k: B256, x: Body, truth: B256 -> Body)
    requires b.Valid() && Correct(b, truth) && x == truth(k)
    ensures Correct(b.Push(k, x), truth)
  {
    PushValid(b, k, x);
    forall h | h in b.Push(k, x).vals ensures b.Push(k, x).vals[h] == truth(h) {
      if h != k {
        PushOther(b, k, x, h);
      }
    }
  }

  lemma HandlerKeepsCorrect(job: Job, w: set<B256>, orig: map<B256, Body>, s: Machine, truth: B256 -> Body)
    requires Inv(job, w, orig, s) && Correct(s.bodies, truth) && NoDup(job.request) && HonestPeer(job, truth)
    ensures Correct(Handler(job, s).bodies, truth)
  {
    if s.phase.Inserting? {
      var h, m := job.request[s.i], Elems(s.missing);
      DistinctKeep(job.request, m);
      RankIsPlace(job.request, m, h);
      PushKeepsCorrect(s.bodies, h, s.phase.body, truth);
    } else if s.i < |job.request| {
      TouchFacts(s.bodies, job.request[s.i]);
    }
  }

  lemma {:induction false} RunKeepsCorrect(job: Job, b: Bodies, w: set<B256>, steps: seq<Step>, truth: B256 -> Body)
    requires Inv(job, w, b.vals, Start(b)) && Imported(steps) <= w && Imported(steps) !! Elems(job.request)
    requires NoDup(job.request) && Correct(b, truth) && HonestPeer(job, truth) && HonestImports(steps, truth)
    ensures Inv(job, w, b.vals, Run(job, Start(b), steps))
    ensures Correct(Run(job, Start(b), steps).bodies, truth)
  {
    hide Inv;
    RunKeepsInv(job, w, b.vals, Start(b), steps);
    if steps != [] {
      var g, step := steps[..|steps| - 1], steps[|steps| - 1];
      assert step in steps && forall x :: x in g ==> x in steps;
      RunKeepsCorrect(job, b, w, g, truth);
      var t := Run(job, Start(b), g);
      match step
      case Handle => HandlerKeepsCorrect(job, w, b.vals, t, truth);
      case Import(k, x) =>
        InvValid(job, w, b.vals, t);
        PushKeepsCorrect(t.bodies, k, x, truth);
    }
  }

  lemma InvValid(job: Job, w: set<B256>, orig: map<B256, Body>, s: Machine)
    requires Inv(job, w, orig, s)
    ensures s.bodies.Valid()
  {
  }

  /** For pairwise distinct hashes, an honest peer and correct imports of other hashes at any points: the cache
      only ever holds correct bodies, and a merged response is, in request order, the correct body of exactly
      each hash that was cached or covered by the reply. */
  lemma DistinctRequestAligned(job: Job, b: Bodies, steps: seq<Step>, truth: B256 -> Body)
    requires b.Valid() && Correct(b, truth) && NoDup(job.request) && HonestPeer(job, truth)
    requires Imported(steps) !! Elems(job.request) && HonestImports(steps, truth)
    requires |job.request| + |Imported(steps)| <= b.cap
    ensures var s := Run(job, Start(b), steps);
            && Correct(s.bodies, truth)
            && (s.phase.Done? && s.missing != [] && job.peer(s.missing).Some? ==>
                  s.out == AlignedResponse(job.request, s.missing, |job.peer(s.missing).value|, truth))
  {
    var w := Elems(job.request) + Imported(steps);
    SizeOfElems(job.request);
    StartInv(job, w, b);
    RunKeepsCorrect(job, b, w, steps, truth);
    MergeAlignedUnderImports(job, b, steps);
    var s := Run(job, Start(b), steps);
    if s.phase.Done? && s.missing != [] && job.peer(s.missing).Some? {
      var m, fetched := Elems(s.missing), job.peer(s.missing).value;
      forall h | h in job.request
        ensures AnswerOf(job.request, m, b.vals, fetched)(h) == Wanted(s.missing, |fetched|, truth)(h)
      {
        DistinctAnswer(job.request, m, b.vals, fetched, truth, h);
      }
      GatherSame(job.request, AnswerOf(job.request, m, b.vals, fetched), Wanted(s.missing, |fetched|, truth));
    }
  }

  lemma {:induction false} KeepAll(s: seq<B256>, m: set<B256>)
    requires Elems(s) <= m
    ensures Keep(s, m) == s
  {
    if s != [] {
      assert s[|s| - 1] in Elems(s);
      assert Elems(s[..|s| - 1]) <= Elems(s);
      KeepAll(s[..|s| - 1], m);
    }
  }

  lemma DistinctAnswer(request: seq<B256>, m: set<B256>, orig: map<B256, Body>, fetched: seq<Body>,
                       truth: B256 -> Body, h: B256)
    requires NoDup(request) && h in request && m == Elems(Keep(request, m))
    requires PrefixReply(fetched, Keep(request, m), truth)
    requires h !in m ==> h in orig && orig[h] == truth(h)
    ensures AnswerOf(request, m, orig, fetched)(h) == Wanted(Keep(request, m), |fetched|, truth)(h)
  {
    var missing := Keep(request, m);
    DistinctKeep(request, m);
    FirstsFacts(request, m);
    if h in m {
      RankIsPlace(request, m, h);
      var r := Rank(request, m, h);
      if r < |fetched| {
        assert Take(missing, |fetched|)[r] == h;
      } else {
        assert forall i :: 0 <= i < |fetched| ==> missing[i] != missing[r];
      }
    } else {
      assert h in missing <==> h in Elems(missing);
    }
  }

  // ---------- two ways to misalign ----------

  lemma FinishStep(job: Job, s: Machine, t: Machine)
    requires !s.phase.Done? && Handler(job, s) == t
    ensures Finish(job, s) == Finish(job, t)
  {
  }

  /** A fresh cache after the body of a was pushed and read: it has a and not c. */
  lemma PushedAndRead(a: B256, c: B256, x: Body)
    requires a != c
    ensures var b1 := Fresh<B256, Body>(8).Push(a, x);
            && b1.Valid() && a in b1.vals && b1.vals[a] == x
            && b1.Touch(a).Valid() && a in b1.Touch(a).vals && b1.Touch(a).vals[a] == x && c !in b1.Touch(a).vals
  {
    var b0: Bodies := Fresh(8);
    PushValid(b0, a, x);
    TouchFacts(b0.Push(a, x), a);
    AbsentPush(b0, c, a, x);
  }

  /** Capacity to spare, nothing cached, request a, a, c and the correct reply for all three: the repeat of a
      takes no body, so c is answered with the body of a and cached with it. */
  lemma RepeatMisaligns(job: Job, a: B256, c: B256, truth: B256 -> Body)
    requires a != c && job.request == [a, a, c]
    requires job.peer([a, a, c]) == Some([truth(a), truth(a), truth(c)])
    ensures var s := Finish(job, Start(Fresh(8)));
            && s.out == [truth(a), truth(a), truth(a)]
            && s.bodies.Lookup(c) == Some(truth(a))
  {
    var x, ms, f := truth(a), [a, a, c], [truth(a), truth(a), truth(c)];
    var b0: Bodies := Fresh(8);
    var b1 := b0.Push(a, x);
    var b2 := b1.Touch(a);
    var b3 := b2.Push(c, x);
    PushedAndRead(a, c, x);
    PushValid(b2, c, x);
    FilterThree(job, b0, a, c);
    RepeatFirstTwo(job, b0, a, ms, f);
    var s7 := Machine(b2, Merging, 2, ms, f, 1, [x, x]);
    var s8 := Machine(b2, Inserting(x), 2, ms, f, 2, [x, x]);
    var s9 := Machine(b3, Merging, 3, ms, f, 2, [x, x, x]);
    hide Finish;
    FinishStep(job, s7, s8);
    FinishStep(job, s8, s9);
    FinishStep(job, s9, s9.(phase := Done));
    FinishDone(job, s9.(phase := Done));
  }

  /** The fetch, the insert of a, and its repeat as a hit. */
  lemma RepeatFirstTwo(job: Job, b0: Bodies, a: B256, ms: seq<B256>, f: seq<Body>)
    requires 2 <= |job.request| == |ms| && job.request[0] == a == job.request[1] && job.peer(ms) == Some(f) && f != []
    requires b0.Valid() && a !in b0.vals
    ensures var x := f[0];
            Finish(job, Machine(b0, Filtering, |ms|, ms, [], 0, []))
            == Finish(job, Machine(b0.Push(a, x).Touch(a), Merging, 2, ms, f, 1, [x, x]))
  {
    var x := f[0];
    var b1 := b0.Push(a, x);
    PushValid(b0, a, x);
    hide Finish;
    var s4 := Machine(b0, Merging, 0, ms, f, 0, []);
    var s5 := Machine(b0, Inserting(x), 0, ms, f, 1, []);
    var s6 := Machine(b1, Merging, 1, ms, f, 1, [x]);
    FinishStep(job, Machine(b0, Filtering, |ms|, ms, [], 0, []), s4);
    FinishStep(job, s4, s5);
    FinishStep(job, s5, s6);
    FinishStep(job, s6, Machine(b1.Touch(a), Merging, 2, ms, f, 1, [x, x]));
  }

  lemma FinishDone(job: Job, s: Machine)
    requires s.phase.Done?
    ensures Finish(job, s) == s
  {
  }

  lemma FilterThree(job: Job, b0: Bodies, a: B256, c: B256)
    requires job.request == [a, a, c] && b0 == Fresh(8)
    ensures Finish(job, Start(b0)) == Finish(job, Machine(b0, Filtering, 3, [a, a, c], [], 0, []))
  {
    hide Finish;
    var s1 := Machine(b0, Filtering, 1, [a], [], 0, []);
    var s2 := Machine(b0, Filtering, 2, [a, a], [], 0, []);
    FinishStep(job, Start(b0), s1);
    FinishStep(job, s1, s2);
    FinishStep(job, s2, Machine(b0, Filtering, 3, [a, a, c], [], 0, []));
  }

  /** Nothing cached, request a, c, the correct reply for both, but a correct import of the requested hash a
      arrives after the filter pass: a is then a hit, and c is answered with the body of a and cached with it. */
  lemma RequestedImportMisaligns(job: Job, a: B256, c: B256, truth: B256 -> Body)
    requires a != c && job.request == [a, c]
    requires job.peer([a, c]) == Some([truth(a), truth(c)])
    ensures var s := Finish(job, Next(job, Filtered(job, Fresh(8), 2), Import(a, truth(a))));
            && s.out == [truth(a), truth(a)]
            && s.bodies.Lookup(c) == Some(truth(a))
  {
    var x, ms, f := truth(a), [a, c], [truth(a), truth(c)];
    var b0: Bodies := Fresh(8);
    var b1 := b0.Push(a, x);
    var b2 := b1.Touch(a);
    PushedAndRead(a, c, x);
    PushValid(b2, c, x);
    FilterTwo(job, b0, a, c);
    var s0 := Machine(b0, Filtering, 2, ms, [], 0, []);
    var s2 := Machine(b1, Merging, 0, ms, f, 0, []);
    var s3 := Machine(b2, Merging, 1, ms, f, 0, [x]);
    var s4 := Machine(b2, Inserting(x), 1, ms, f, 1, [x]);
    var s5 := Machine(b2.Push(c, x), Merging, 2, ms, f, 1, [x, x]);
    hide Finish;
    FinishStep(job, s0.(bodies := b1), s2);
    FinishStep(job, s2, s3);
    FinishStep(job, s3, s4);
    FinishStep(job, s4, s5);
    FinishStep(job, s5, s5.(phase := Done));
    FinishDone(job, s5.(phase := Done));
  }

  lemma FilterTwo(job: Job, b0: Bodies, a: B256, c: B256)
    requires job.request == [a, c] && b0 == Fresh(8)
    ensures Filtered(job, b0, 2) == Machine(b0, Filtering, 2, [a, c], [], 0, [])
  {
    assert Filtered(job, b0, 1) == Machine(b0, Filtering, 1, [a], [], 0, []);
  }
}
