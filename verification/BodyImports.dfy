/** Exactly what imports of any hashes, the requested ones included, do to a merge of pairwise distinct hashes. */
module BodyImports {
  import opened Recency
  import opened LruMap
  import opened Types
  import opened BodyMerge
  import opened BodyAlignment

  /** The missing hashes that the merge finds in the cache at their turn. */
  function TurnHits(job: Job, s: Machine, steps: seq<Step>): set<B256> {
    if steps == [] then {}
    else
      var t := Run(job, s, steps[..|steps| - 1]);
      TurnHits(job, s, steps[..|steps| - 1]) + if steps[|steps| - 1].Handle? then TurnHit(job, t) else {}
  }

  function TurnHit(job: Job, t: Machine): set<B256> {
    if t.phase.Merging? && t.i < |job.request| && job.request[t.i] in t.bodies.vals && job.request[t.i] in t.missing
    then {job.request[t.i]} else {}
  }

  function TruthOn(request: seq<B256>, truth: B256 -> Body): map<B256, Body> {
    map h | h in request :: truth(h)
  }

  /** The answers when the hashes of t need nothing from the reply: every later body moves up. */
  function Shifted(request: seq<B256>, m: set<B256>, t: set<B256>, fetched: seq<Body>,
                   truth: B256 -> Body): B256 -> Option<Body> {
    AnswerOf(request, m - t, TruthOn(request, truth), fetched)
  }

  // ---------- invariant ----------

  /** The hashes still to be merged: those that are cached have their correct body and stay, and every hash that
      was not missing is cached. */
  ghost predicate Ready(l: Bodies, request: seq<B256>, m: set<B256>, w: set<B256>, truth: B256 -> Body, i: nat) {
    forall j :: i <= j < |request| ==>
                  && (request[j] in l.vals ==> Held(l, request[j], w, truth(request[j])))
                  && (request[j] !in m ==> request[j] in l.vals)
  }

  lemma ReadyPush(l: Bodies, request: seq<B256>, m: set<B256>, w: set<B256>, truth: B256 -> Body, i: nat, k: B256,
                  x: Body)
    requires l.Valid() && |w| <= l.cap && Elems(request) <= w && k in w && Ready(l, request, m, w, truth, i)
    requires x == truth(k) || forall j :: i <= j < |request| ==> request[j] != k
    ensures Ready(l.Push(k, x), request, m, w, truth, i)
  {
    hide Held;
    forall j | i <= j < |request|
      ensures request[j] in l.Push(k, x).vals ==> Held(l.Push(k, x), request[j], w, truth(request[j]))
      ensures request[j] !in m ==> request[j] in l.Push(k, x).vals
    {
      var h := request[j];
      assert h in Elems(request);
      if h == k {
        PushHeld(l, k, w, x);
        PushValid(l, k, x);
      } else if h in l.vals {
        HeldPush(l, h, w, truth(h), k, x);
        HeldValue(l.Push(k, x), h, w, truth(h));
      } else {
        AbsentPush(l, h, k, x);
      }
    }
  }

  lemma ReadyTouch(l: Bodies, request: seq<B256>, m: set<B256>, w: set<B256>, truth: B256 -> Body, i: nat, k: B256)
    requires l.Valid() && k in w && Ready(l, request, m, w, truth, i)
    ensures Ready(l.Touch(k), request, m, w, truth, i)
    ensures l.Touch(k).Valid() && l.Touch(k).cap == l.cap
  {
    hide Held;
    TouchFacts(l, k);
    forall j | i <= j < |request| && request[j] in l.vals ensures Held(l.Touch(k), request[j], w, truth(request[j])) {
      HeldTouch(l, request[j], w, truth(request[j]), k);
    }
  }

  lemma ReadyValue(l: Bodies, request: seq<B256>, m: set<B256>, w: set<B256>, truth: B256 -> Body, i: nat)
    requires i < |request| && Ready(l, request, m, w, truth, i)
    ensures request[i] in l.vals ==> l.vals[request[i]] == truth(request[i])
    ensures request[i] !in m ==> request[i] in l.vals
    ensures Ready(l, request, m, w, truth, i + 1)
  {
  }

  /** The merge stands at i, and t are the missing hashes found cached so far. */
  ghost predicate Standing(job: Job, w: set<B256>, truth: B256 -> Body, s: Machine, t: set<B256>, next: nat) {
    var m := Elems(s.missing);
    && s.i <= |job.request| && t <= m * Elems(job.request[..s.i])
    && s.missing != [] && job.peer(s.missing) == Some(s.fetched)
    && s.out == Gather(job.request[..s.i], Shifted(job.request, m, t, s.fetched, truth))
    && s.next == next
  }

  /** The filter pass stands at s.i: the hashes before it are ready, and every cached body is correct. */
  ghost predicate FilterStands(request: seq<B256>, w: set<B256>, truth: B256 -> Body, s: Machine)
    requires s.i <= |request|
  {
    var m := Elems(s.missing);
    && Correct(s.bodies, truth) && m <= Elems(request[..s.i]) && s.missing == Keep(request[..s.i], m)
    && Ready(s.bodies, request[..s.i], m, w, truth, 0)
  }

  ghost predicate ImportInv(job: Job, w: set<B256>, truth: B256 -> Body, s: Machine, t: set<B256>) {
    var m := Elems(s.missing);
    && s.bodies.Valid() && |w| <= s.bodies.cap && Elems(job.request) <= w && NoDup(job.request)
    && (!s.phase.Filtering? ==> s.missing == Keep(job.request, m))
    && match s.phase
       case Filtering =>
         && s.i <= |job.request| && t == {} && s.next == 0 && s.out == []
         && FilterStands(job.request, w, truth, s)
       case Merging =>
         && Ready(s.bodies, job.request, m, w, truth, s.i)
         && s.i <= |job.request| && Standing(job, w, truth, s, t, Used(job.request, m - t, s.fetched, s.i))
       case Inserting(x) =>
         && s.i < |job.request| && Ready(s.bodies, job.request, m, w, truth, s.i + 1)
         && Standing(job, w, truth, s, t, Used(job.request, m - t, s.fetched, s.i + 1))
         && Shifted(job.request, m, t, s.fetched, truth)(job.request[s.i]) == Some(x)
       case Done =>
         && t <= m
         && (Merged(job, s.missing) ==>
               s.out == Gather(job.request, Shifted(job.request, m, t, job.peer(s.missing).value, truth)))
  }

  lemma ImportKeeps(job: Job, w: set<B256>, truth: B256 -> Body, s: Machine, t: set<B256>, k: B256)
    requires ImportInv(job, w, truth, s, t) && k in w
    ensures ImportInv(job, w, truth, s.(bodies := s.bodies.Push(k, truth(k))), t)
  {
    hide Ready, Standing, Used, Keep, Shifted, NoDup, Correct;
    PushValid(s.bodies, k, truth(k));
    StandingPush(job, w, truth, s, t, k);
    var m := Elems(s.missing);
    match s.phase
    case Filtering =>
      assert forall h :: h in job.request[..s.i] ==> h in job.request;
      ReadyPush(s.bodies, job.request[..s.i], m, w, truth, 0, k, truth(k));
      PushKeepsCorrect(s.bodies, k, truth(k), truth);
    case Merging => ReadyPush(s.bodies, job.request, m, w, truth, s.i, k, truth(k));
    case Inserting(_) => ReadyPush(s.bodies, job.request, m, w, truth, s.i + 1, k, truth(k));
    case Done =>
  }

  lemma StandingPush(job: Job, w: set<B256>, truth: B256 -> Body, s: Machine, t: set<B256>, k: B256)
    ensures forall n :: Standing(job, w, truth, s, t, n) ==>
                          Standing(job, w, truth, s.(bodies := s.bodies.Push(k, truth(k))), t, n)
  {
  }

  /** A hash first named at i or later has no part in the answers before i. */
  lemma AnswersBefore(request: seq<B256>, m: set<B256>, t: set<B256>, k: B256, fetched: seq<Body>, truth: B256 -> Body,
                      i: nat)
    requires i <= |request| && k !in request[..i]
    ensures Gather(request[..i], Shifted(request, m, t, fetched, truth))
            == Gather(request[..i], Shifted(request, m, t + {k}, fetched, truth))
  {
    forall h | h in request[..i]
      ensures Shifted(request, m, t, fetched, truth)(h) == Shifted(request, m, t + {k}, fetched, truth)(h)
    {
      FirstAtPrefix(request, i, h);
      var p := FirstAt(request, h);
      assert forall x :: x in request[..p] ==> x in request[..i];
      assert Elems(request[..p]) * (m - t) == Elems(request[..p]) * (m - (t + {k}));
    }
    GatherSame(request[..i], Shifted(request, m, t, fetched, truth), Shifted(request, m, t + {k}, fetched, truth));
  }

  lemma NotBefore(request: seq<B256>, i: nat)
    requires NoDup(request) && i < |request|
    ensures request[i] !in request[..i] && forall j :: i < j < |request| ==> request[j] != request[i]
  {
  }

  lemma UsedBefore(request: seq<B256>, m: set<B256>, t: set<B256>, fetched: seq<Body>, i: nat)
    requires NoDup(request) && i < |request|
    ensures Used(request, m - (t + {request[i]}), fetched, i + 1) == Used(request, m - t, fetched, i)
    ensures request[i] !in m ==> Used(request, m - t, fetched, i + 1) == Used(request, m - t, fetched, i)
  {
    PrefixStep(request, i);
    NotBefore(request, i);
    assert Elems(request[..i + 1]) * (m - (t + {request[i]})) == Elems(request[..i]) * (m - t);
    assert request[i] !in m ==> Elems(request[..i + 1]) * (m - t) == Elems(request[..i]) * (m - t);
  }

  /** t with the hash at i added to it, if that one was missing. */
  function WithHit(request: seq<B256>, i: nat, m: set<B256>, t: set<B256>): set<B256>
    requires i < |request|
  {
    t + if request[i] in m then {request[i]} else {}
  }

  lemma HitShifts(request: seq<B256>, i: nat, m: set<B256>, t: set<B256>, fetched: seq<Body>, truth: B256 -> Body)
    requires NoDup(request) && i < |request|
    ensures var t2 := WithHit(request, i, m, t);
            && Gather(request[..i + 1], Shifted(request, m, t2, fetched, truth))
               == Gather(request[..i], Shifted(request, m, t, fetched, truth)) + [truth(request[i])]
            && Used(request, m - t2, fetched, i + 1) == Used(request, m - t, fetched, i)
  {
    var h, t2 := request[i], WithHit(request, i, m, t);
    NotBefore(request, i);
    UsedBefore(request, m, t, fetched, i);
    AnswersBefore(request, m, t, h, fetched, truth, i);
    GatherStep(request, i, Shifted(request, m, t2, fetched, truth));
    assert t + {} == t;
    assert Shifted(request, m, t2, fetched, truth)(h) == Some(truth(h));
    hide Shifted, Gather, Used, NoDup;
  }

  /** The merge moves on past position s.i with this added to the response. */
  lemma StandsPast(job: Job, w: set<B256>, truth: B256 -> Body, s: Machine, t: set<B256>, t2: set<B256>, next: nat,
                   l: Bodies, more: seq<Body>)
    requires s.i < |job.request| && Standing(job, w, truth, s, t, next)
    requires t <= t2 <= t + ({job.request[s.i]} * Elems(s.missing))
    requires var answer, answer2 := Shifted(job.request, Elems(s.missing), t, s.fetched, truth),
                                    Shifted(job.request, Elems(s.missing), t2, s.fetched, truth);
             Gather(job.request[..s.i + 1], answer2) == Gather(job.request[..s.i], answer) + more
    ensures Standing(job, w, truth, s.(bodies := l, i := s.i + 1, out := s.out + more), t2, next)
  {
    PrefixStep(job.request, s.i);
    hide Shifted, Gather;
  }

  lemma HitStands(job: Job, w: set<B256>, truth: B256 -> Body, s: Machine, t: set<B256>)
    requires NoDup(job.request) && s.phase.Merging? && s.i < |job.request| && job.request[s.i] in s.bodies.vals
    requires s.bodies.vals[job.request[s.i]] == truth(job.request[s.i])
    requires Standing(job, w, truth, s, t, Used(job.request, Elems(s.missing) - t, s.fetched, s.i))
    ensures var t2 := t + TurnHit(job, s);
            Standing(job, w, truth, Handler(job, s), t2,
                     Used(job.request, Elems(s.missing) - t2, s.fetched, s.i + 1))
  {
    hide Shifted, Gather, Used, NoDup, Keep;
    var h, m := job.request[s.i], Elems(s.missing);
    var t2 := t + TurnHit(job, s);
    assert t2 == WithHit(job.request, s.i, m, t);
    assert Handler(job, s) == s.(bodies := s.bodies.Touch(h), i := s.i + 1, out := s.out + [truth(h)]);
    HitShifts(job.request, s.i, m, t, s.fetched, truth);
    hide Handler, TurnHit, Standing;
    StandsPast(job, w, truth, s, t, t2, s.next, s.bodies.Touch(h), [truth(h)]);
  }

  /** A hash found in the cache at its turn is answered with its correct body and takes nothing of the reply. */
  lemma HitKeeps(job: Job, w: set<B256>, truth: B256 -> Body, s: Machine, t: set<B256>)
    requires ImportInv(job, w, truth, s, t) && s.phase.Merging? && s.i < |job.request|
             && job.request[s.i] in s.bodies.vals
    ensures ImportInv(job, w, truth, Handler(job, s), t + TurnHit(job, s))
  {
    var h := job.request[s.i];
    assert h in Elems(job.request);
    ReadyValue(s.bodies, job.request, Elems(s.missing), w, truth, s.i);
    assert Handler(job, s) == s.(bodies := s.bodies.Touch(h), i := s.i + 1, out := s.out + [truth(h)]);
    hide Ready, Standing, Used, Keep, Shifted, NoDup, Elems, Handler, TurnHit;
    HitStands(job, w, truth, s, t);
    ReadyTouch(s.bodies, job.request, Elems(s.missing), w, truth, s.i + 1, h);
  }

  lemma MissShifts(request: seq<B256>, i: nat, m: set<B256>, t: set<B256>, fetched: seq<Body>, truth: B256 -> Body)
    requires NoDup(request) && i < |request| && request[i] in m && t <= Elems(request[..i])
    ensures var answer, used := Shifted(request, m, t, fetched, truth), Used(request, m - t, fetched, i);
            if used < |fetched|
            then answer(request[i]) == Some(fetched[used]) && Used(request, m - t, fetched, i + 1) == used + 1
            else Used(request, m - t, fetched, i + 1) == used
                 && Gather(request[..i + 1], answer) == Gather(request[..i], answer)
  {
    NotBefore(request, i);
    FirstAtPrefix(request, i, request[i]);
    UsedStep(request, m - t, fetched, i);
    GatherStep(request, i, Shifted(request, m, t, fetched, truth));
    hide Gather, NoDup, FirstAt;
  }

  lemma MissStands(job: Job, w: set<B256>, truth: B256 -> Body, s: Machine, t: set<B256>)
    requires NoDup(job.request) && s.phase.Merging? && s.i < |job.request| && job.request[s.i] !in s.bodies.vals
    requires job.request[s.i] in Elems(s.missing)
    requires Standing(job, w, truth, s, t, Used(job.request, Elems(s.missing) - t, s.fetched, s.i))
    ensures var u, m := Handler(job, s), Elems(s.missing);
            && Standing(job, w, truth, u, t, Used(job.request, m - t, s.fetched, s.i + 1))
            && (u.phase.Inserting? ==>
                  Shifted(job.request, m, t, s.fetched, truth)(job.request[s.i]) == Some(u.phase.body))
  {
    hide Shifted, Gather, Used, NoDup, Keep, FirstAt;
    var u := Handler(job, s);
    MissShifts(job.request, s.i, Elems(s.missing), t, s.fetched, truth);
    if s.next < |s.fetched| {
      assert u == s.(phase := Inserting(s.fetched[s.next]), next := s.next + 1);
    } else {
      assert u == s.(i := s.i + 1) && s.out + [] == s.out;
      hide Handler;
      StandsPast(job, w, truth, s, t, t, s.next, s.bodies, []);
    }
  }

  /** A hash absent at its turn takes the next body of the reply, if any is left. */
  lemma MissKeeps(job: Job, w: set<B256>, truth: B256 -> Body, s: Machine, t: set<B256>)
    requires ImportInv(job, w, truth, s, t) && s.phase.Merging? && s.i < |job.request|
             && job.request[s.i] !in s.bodies.vals
    ensures ImportInv(job, w, truth, Handler(job, s), t)
  {
    hide Ready, Standing, Used, Keep, Shifted, NoDup, Elems;
    var u, m := Handler(job, s), Elems(s.missing);
    ReadyValue(s.bodies, job.request, m, w, truth, s.i);
    MissStands(job, w, truth, s, t);
    if s.next < |s.fetched| {
      assert u == s.(phase := Inserting(s.fetched[s.next]), next := s.next + 1);
      hide Handler;
    } else {
      assert u == s.(i := s.i + 1);
      hide Handler;
    }
  }

  lemma InsertStands(job: Job, w: set<B256>, truth: B256 -> Body, s: Machine, t: set<B256>, next: nat)
    requires s.phase.Inserting? && s.i < |job.request| && Standing(job, w, truth, s, t, next)
    requires Shifted(job.request, Elems(s.missing), t, s.fetched, truth)(job.request[s.i]) == Some(s.phase.body)
    ensures Standing(job, w, truth, Handler(job, s), t, next)
  {
    PrefixStep(job.request, s.i);
    GatherStep(job.request, s.i, Shifted(job.request, Elems(s.missing), t, s.fetched, truth));
    hide Gather, Shifted;
  }

  lemma InsertKeeps(job: Job, w: set<B256>, truth: B256 -> Body, s: Machine, t: set<B256>)
    requires ImportInv(job, w, truth, s, t) && s.phase.Inserting?
    ensures ImportInv(job, w, truth, Handler(job, s), t)
  {
    var r, m, h := job.request, Elems(s.missing), job.request[s.i];
    assert h in Elems(r);
    NotBefore(r, s.i);
    PushValid(s.bodies, h, s.phase.body);
    hide Ready, Standing, Used, Keep, Shifted, NoDup, Elems;
    InsertStands(job, w, truth, s, t, s.next);
    ReadyPush(s.bodies, r, m, w, truth, s.i + 1, h, s.phase.body);
  }

  /** One hash filtered: it is held, or joins the missing ones. */
  lemma FilterImportKeeps(job: Job, w: set<B256>, truth: B256 -> Body, s: Machine)
    requires ImportInv(job, w, truth, s, {}) && s.phase.Filtering? && s.i < |job.request|
    ensures ImportInv(job, w, truth, Handler(job, s), {})
  {
    var r, h, m := job.request, job.request[s.i], Elems(s.missing);
    assert h in Elems(r);
    PrefixStep(r, s.i);
    NotBefore(r, s.i);
    hide NoDup, Correct;
    FilterReady(r, w, truth, s);
    FilterKeep(r, s.i, m, h);
    TouchFacts(s.bodies, h);
    TouchCorrect(s.bodies, truth, h);
    assert h !in m;
    var more := if h in s.bodies.vals then [] else [h];
    assert Handler(job, s) == s.(bodies := s.bodies.Touch(h), i := s.i + 1, missing := s.missing + more);
    assert Elems(s.missing + more) == if h in s.bodies.vals then m else m + {h};
    assert s.missing + [] == s.missing;
    hide Handler, Ready, Keep, Elems, Lru.Touch;
  }

  lemma TouchCorrect(l: Bodies, truth: B256 -> Body, k: B256)
    requires l.Valid() && Correct(l, truth)
    ensures Correct(l.Touch(k), truth)
  {
    TouchFacts(l, k);
  }

  lemma FilterKeep(request: seq<B256>, i: nat, m: set<B256>, h: B256)
    requires i < |request| && h == request[i] && h !in request[..i]
    ensures Keep(request[..i + 1], m + {h}) == Keep(request[..i], m) + [h]
    ensures h !in m ==> Keep(request[..i + 1], m) == Keep(request[..i], m)
  {
    PrefixStep(request, i);
    KeepGrows(request[..i], m, h);
    assert Keep(request[..i], m) + [] == Keep(request[..i], m);
  }

  lemma FilterReady(r: seq<B256>, w: set<B256>, truth: B256 -> Body, s: Machine)
    requires s.bodies.Valid() && s.i < |r| && FilterStands(r, w, truth, s) && r[s.i] in w && r[s.i] !in r[..s.i]
    ensures var h, m := r[s.i], Elems(s.missing);
            Ready(s.bodies.Touch(h), r[..s.i + 1], if h in s.bodies.vals then m else m + {h}, w, truth, 0)
  {
    hide Held, Elems, Keep, Lru.Touch, Ready;
    var h, m := r[s.i], Elems(s.missing);
    ReadyTouch(s.bodies, r[..s.i], m, w, truth, 0, h);
    TouchFacts(s.bodies, h);
    if h in s.bodies.vals {
      TouchHeld(s.bodies, h, w);
    }
    PrefixStep(r, s.i);
    ReadyAppend(s.bodies.Touch(h), r[..s.i], m, if h in s.bodies.vals then m else m + {h}, w, truth, h);
  }

  lemma ReadyAppend(l: Bodies, g: seq<B256>, m: set<B256>, m2: set<B256>, w: set<B256>, truth: B256 -> Body, h: B256)
    requires Ready(l, g, m, w, truth, 0) && m <= m2
    requires if h in l.vals then Held(l, h, w, truth(h)) else h in m2
    ensures Ready(l, g + [h], m2, w, truth, 0)
  {
    hide Held;
  }

  lemma FetchKeeps(job: Job, w: set<B256>, truth: B256 -> Body, s: Machine)
    requires ImportInv(job, w, truth, s, {}) && s.phase.Filtering? && s.i == |job.request|
    ensures ImportInv(job, w, truth, Handler(job, s), {})
  {
    assert job.request[..s.i] == job.request;
    assert Elems(job.request[..0]) * Elems(s.missing) == {};
    assert Elems(s.missing) - {} == Elems(s.missing);
  }

  lemma EndKeeps(job: Job, w: set<B256>, truth: B256 -> Body, s: Machine, t: set<B256>)
    requires ImportInv(job, w, truth, s, t) && s.phase.Merging? && s.i == |job.request|
    ensures ImportInv(job, w, truth, Handler(job, s), t)
  {
    assert job.request[..s.i] == job.request;
  }

  lemma HandleKeeps(job: Job, w: set<B256>, truth: B256 -> Body, s: Machine, t: set<B256>)
    requires ImportInv(job, w, truth, s, t)
    ensures ImportInv(job, w, truth, Handler(job, s), t + TurnHit(job, s))
  {
    assert t + {} == t;
    match s.phase
    case Filtering =>
      if s.i < |job.request| {
        FilterImportKeeps(job, w, truth, s);
      } else {
        FetchKeeps(job, w, truth, s);
      }
    case Inserting(_) => InsertKeeps(job, w, truth, s, t);
    case Done =>
    case Merging =>
      if s.i == |job.request| {
        EndKeeps(job, w, truth, s, t);
      } else if job.request[s.i] in s.bodies.vals {
        HitKeeps(job, w, truth, s, t);
      } else {
        MissKeeps(job, w, truth, s, t);
      }
  }

  lemma {:induction false} RunKeeps(job: Job, w: set<B256>, truth: B256 -> Body, s: Machine, steps: seq<Step>)
    requires ImportInv(job, w, truth, s, {}) && Imported(steps) <= w && HonestImports(steps, truth)
    ensures ImportInv(job, w, truth, Run(job, s, steps), TurnHits(job, s, steps))
  {
    hide ImportInv, Handler, TurnHit;
    if steps != [] {
      var g, step := steps[..|steps| - 1], steps[|steps| - 1];
      assert step in steps && forall x :: x in g ==> x in steps;
      RunKeeps(job, w, truth, s, g);
      match step
      case Handle => HandleKeeps(job, w, truth, Run(job, s, g), TurnHits(job, s, g));
      case Import(k, x) =>
        assert k in Imported(steps);
        assert TurnHits(job, s, g) + {} == TurnHits(job, s, g);
        ImportKeeps(job, w, truth, Run(job, s, g), TurnHits(job, s, g), k);
    }
  }

  // ---------- the response in closed form ----------

  lemma StartImportInv(job: Job, b: Bodies, w: set<B256>, truth: B256 -> Body)
    requires b.Valid() && Correct(b, truth) && NoDup(job.request) && Elems(job.request) <= w && |w| <= b.cap
    ensures ImportInv(job, w, truth, Start(b), {})
  {
  }

  /** The response of a merge under correct imports of any hashes at any points. */
  lemma ShiftedResponse(job: Job, b: Bodies, steps: seq<Step>, truth: B256 -> Body)
    requires b.Valid() && Correct(b, truth) && NoDup(job.request) && HonestImports(steps, truth)
    requires |Elems(job.request) + Imported(steps)| <= b.cap
    ensures var s, t := Run(job, Start(b), steps), TurnHits(job, Start(b), steps);
            s.phase.Done? ==>
              && s.missing == Keep(job.request, Elems(s.missing)) && t <= Elems(s.missing)
              && (Merged(job, s.missing) ==>
                    s.out == Gather(job.request,
                                    Shifted(job.request, Elems(s.missing), t, job.peer(s.missing).value, truth)))
  {
    var w := Elems(job.request) + Imported(steps);
    StartImportInv(job, b, w, truth);
    RunKeeps(job, w, truth, Start(b), steps);
    hide Run, TurnHits, Standing, Gather, Shifted, Ready, Keep;
  }

  // ---------- when the shift does no harm ----------

  /** No body of the reply is left over by a cached hash and reaches a later one. */
  ghost predicate NoShift(missing: seq<B256>, t: set<B256>, n: nat) {
    forall i, j :: 0 <= i < j < |missing| && i < n && missing[i] in t ==> missing[j] in t
  }

  /** The correct body of each hash that was not missing, was cached at its turn, or is covered by the reply. */
  function WantedWith(missing: seq<B256>, t: set<B256>, n: nat, truth: B256 -> Body): B256 -> Option<Body> {
    h => if h !in missing || h in t || h in Take(missing, n) then Some(truth(h)) else None
  }

  lemma {:induction false} KeepPrefix(request: seq<B256>, m: set<B256>, p: nat)
    requires p <= |request|
    ensures Keep(request[..p], m) <= Keep(request, m)
  {
    if p < |request| {
      var g := request[..|request| - 1];
      assert g[..p] == request[..p];
      KeepPrefix(g, m, p);
    } else {
      assert request[..p] == request;
    }
  }

  lemma DistinctMissing(request: seq<B256>, m: set<B256>)
    requires NoDup(request)
    ensures NoDup(Keep(request, m))
  {
    DistinctKeep(request, m);
    FirstsFacts(request, m);
  }

  lemma KeptAt(request: seq<B256>, m: set<B256>, p: nat)
    requires p < |request| && request[p] in m
    ensures Keep(request[..p], m) + [request[p]] <= Keep(request, m)
  {
    PrefixStep(request, p);
    KeepPrefix(request, m, p + 1);
  }

  /** What the request names before the j-th missing hash of m. */
  lemma MissingBefore(request: seq<B256>, m: set<B256>, j: nat)
    requires NoDup(request) && j < |Keep(request, m)|
    ensures var h := Keep(request, m)[j];
            h in request && h in m && Elems(request[..FirstAt(request, h)]) * m == Elems(Keep(request, m)[..j])
  {
    var missing := Keep(request, m);
    var h := missing[j];
    DistinctMissing(request, m);
    RankAtMostPlace(request, m, j);
    KeepElems(request, m);
    assert h in Elems(missing);
    var p := FirstAt(request, h);
    KeptAt(request, m, p);
    KeepElems(request[..p], m);
    var l := |Keep(request[..p], m)|;
    hide Keep, Rank, FirstAt;
    assert missing[l] == h && missing[..l] == Keep(request[..p], m);
    assert l == j;
  }

  lemma ShiftedRank(request: seq<B256>, m: set<B256>, t: set<B256>, j: nat)
    requires NoDup(request) && j < |Keep(request, m)|
    ensures Rank(request, m - t, Keep(request, m)[j]) == |Elems(Keep(request, m)[..j]) - t|
  {
    MissingBefore(request, m, j);
    var e := Elems(request[..FirstAt(request, Keep(request, m)[j])]);
    assert e * (m - t) == e * m - t;
  }

  lemma DistinctPrefix(s: seq<B256>, i: nat)
    requires NoDup(s) && i <= |s|
    ensures |Elems(s[..i])| == i
  {
    assert NoDup(s[..i]);
    SizeOfElems(s[..i]);
  }

  /** Nothing of t before i, and all of t from i up to j: i places are counted before j. */
  lemma CountedBefore(missing: seq<B256>, t: set<B256>, i: nat, j: nat)
    requires NoDup(missing) && i <= j <= |missing|
    requires forall k :: 0 <= k < i ==> missing[k] !in t
    requires forall k :: i <= k < j ==> missing[k] in t
    ensures |Elems(missing[..j]) - t| == i
  {
    DistinctPrefix(missing, i);
    forall h ensures h in Elems(missing[..j]) - t <==> h in Elems(missing[..i]) {
      if h in Elems(missing[..j]) - t {
        var k :| 0 <= k < j && missing[k] == h;
        assert missing[..i][k] == h;
      }
      if h in missing[..i] {
        var k :| 0 <= k < i && missing[k] == h;
        assert missing[..j][k] == h;
      }
    }
    assert Elems(missing[..j]) - t == Elems(missing[..i]);
  }

  lemma TakenPlace(missing: seq<B256>, n: nat, j: nat)
    requires NoDup(missing) && j < |missing|
    ensures missing[j] in Take(missing, n) <==> j < n
  {
    if j < n {
      assert Take(missing, n)[j] == missing[j];
    }
  }

  /** Without a shift before j the answer for the j-th missing hash is the wanted one. */
  lemma RightAtPlace(request: seq<B256>, m: set<B256>, t: set<B256>, fetched: seq<Body>, truth: B256 -> Body, j: nat)
    requires NoDup(request) && j < |Keep(request, m)| && PrefixReply(fetched, Keep(request, m), truth)
    requires forall i :: 0 <= i < j && i < |fetched| && Keep(request, m)[i] in t ==> Keep(request, m)[j] in t
    ensures var missing := Keep(request, m);
            Shifted(request, m, t, fetched, truth)(missing[j]) == WantedWith(missing, t, |fetched|, truth)(missing[j])
  {
    var missing, n := Keep(request, m), |fetched|;
    var h := missing[j];
    MissingBefore(request, m, j);
    if h !in t {
      DistinctMissing(request, m);
      ShiftedRank(request, m, t, j);
      TakenPlace(missing, n, j);
      if j <= n {
        CountedBefore(missing, t, j, j);
      } else {
        CountedBefore(missing, t, n, n);
        assert Elems(missing[..n]) - t <= Elems(missing[..j]) - t by {
          assert missing[..n] == missing[..j][..n];
        }
        SubsetCard(Elems(missing[..n]) - t, Elems(missing[..j]) - t);
      }
    }
  }

  lemma RightElsewhere(request: seq<B256>, m: set<B256>, t: set<B256>, fetched: seq<Body>, truth: B256 -> Body, h: B256)
    requires h in request && h !in Keep(request, m)
    ensures Shifted(request, m, t, fetched, truth)(h) == Some(truth(h))
    ensures WantedWith(Keep(request, m), t, |fetched|, truth)(h) == Some(truth(h))
  {
    KeepElems(request, m);
    assert h in Elems(request) && h !in Elems(Keep(request, m));
  }

  lemma NoShiftRight(request: seq<B256>, m: set<B256>, t: set<B256>, fetched: seq<Body>, truth: B256 -> Body, h: B256)
    requires NoDup(request) && PrefixReply(fetched, Keep(request, m), truth) && h in request
    requires NoShift(Keep(request, m), t, |fetched|)
    ensures Shifted(request, m, t, fetched, truth)(h) == WantedWith(Keep(request, m), t, |fetched|, truth)(h)
  {
    var missing := Keep(request, m);
    if h in missing {
      var j :| 0 <= j < |missing| && missing[j] == h;
      RightAtPlace(request, m, t, fetched, truth, j);
    } else {
      RightElsewhere(request, m, t, fetched, truth, h);
    }
  }

  /** The first cached place i, and the first place j after it that takes the body meant for i. */
  lemma FirstShift(missing: seq<B256>, t: set<B256>, n: nat) returns (i: nat, j: nat)
    requires !NoShift(missing, t, n)
    ensures i < j < |missing| && i < n && missing[j] !in t
    ensures (forall k :: 0 <= k < i ==> missing[k] !in t) && forall k :: i <= k < j ==> missing[k] in t
  {
    var i0, j0 :| 0 <= i0 < j0 < |missing| && i0 < n && missing[i0] in t && missing[j0] !in t;
    i := 0;
    while missing[i] !in t
      invariant i <= i0 && forall k :: 0 <= k < i ==> missing[k] !in t
      decreases i0 - i
    {
      i := i + 1;
    }
    j := i;
    while missing[j] in t
      invariant i <= j <= j0 && forall k :: i <= k < j ==> missing[k] in t
      decreases j0 - j
    {
      j := j + 1;
    }
  }

  /** The hash at j takes the body meant for the one at i. */
  lemma TakesOther(request: seq<B256>, m: set<B256>, t: set<B256>, fetched: seq<Body>, truth: B256 -> Body, i: nat,
                   j: nat)
    requires NoDup(request) && PrefixReply(fetched, Keep(request, m), truth)
    requires i < j < |Keep(request, m)| && i < |fetched| && Keep(request, m)[j] !in t
    requires forall k :: 0 <= k < i ==> Keep(request, m)[k] !in t
    requires forall k :: i <= k < j ==> Keep(request, m)[k] in t
    ensures Keep(request, m)[i] in request && Keep(request, m)[j] in request
            && Keep(request, m)[i] != Keep(request, m)[j]
    ensures Shifted(request, m, t, fetched, truth)(Keep(request, m)[j]) == Some(truth(Keep(request, m)[i]))
  {
    DistinctMissing(request, m);
    MissingBefore(request, m, i);
    MissingBefore(request, m, j);
    ShiftedRank(request, m, t, j);
    CountedBefore(Keep(request, m), t, i, j);
  }

  lemma ShiftDiffers(request: seq<B256>, m: set<B256>, t: set<B256>, fetched: seq<Body>, truth: B256 -> Body, i: nat,
                     j: nat)
    requires NoDup(request) && PrefixReply(fetched, Keep(request, m), truth)
    requires i < j < |Keep(request, m)| && i < |fetched|
    requires forall k :: 0 <= k < i ==> Keep(request, m)[k] !in t
    requires forall k :: i <= k < j ==> Keep(request, m)[k] in t
    requires WantedWith(Keep(request, m), t, |fetched|, truth)(Keep(request, m)[j]).Some?
    requires Shifted(request, m, t, fetched, truth)(Keep(request, m)[j]).Some?
    requires Shifted(request, m, t, fetched, truth)(Keep(request, m)[j])
             != WantedWith(Keep(request, m), t, |fetched|, truth)(Keep(request, m)[j])
    ensures Gather(request, Shifted(request, m, t, fetched, truth))
            != Gather(request, WantedWith(Keep(request, m), t, |fetched|, truth))
  {
    var missing := Keep(request, m);
    var answer, wanted := Shifted(request, m, t, fetched, truth), WantedWith(missing, t, |fetched|, truth);
    MissingBefore(request, m, j);
    var p := FirstAt(request, missing[j]);
    hide Keep, Shifted, WantedWith, Gather, FirstAt;
    forall h | h in request[..p] ensures answer(h) == wanted(h) {
      RightBeforePlace(request, m, t, fetched, truth, i, j, p, h);
    }
    GatherSame(request[..p], answer, wanted);
    GatherDiffers(request, p, answer, wanted);
  }

  lemma RightBeforePlace(request: seq<B256>, m: set<B256>, t: set<B256>, fetched: seq<Body>, truth: B256 -> Body,
                         i: nat, j: nat, p: nat, h: B256)
    requires NoDup(request) && PrefixReply(fetched, Keep(request, m), truth)
    requires i < j < |Keep(request, m)| && p <= |request| && h in request[..p]
    requires Elems(request[..p]) * m == Elems(Keep(request, m)[..j])
    requires forall k :: 0 <= k < i ==> Keep(request, m)[k] !in t
    requires forall k :: i <= k < j ==> Keep(request, m)[k] in t
    ensures Shifted(request, m, t, fetched, truth)(h) == WantedWith(Keep(request, m), t, |fetched|, truth)(h)
  {
    var missing := Keep(request, m);
    hide Shifted, WantedWith;
    if h in missing {
      KeepElems(request, m);
      assert h in Elems(missing);
      assert h in Elems(request[..p]) * m;
      hide Keep;
      var k :| 0 <= k < j && missing[..j][k] == h;
      RightAtPlace(request, m, t, fetched, truth, k);
    } else {
      RightElsewhere(request, m, t, fetched, truth, h);
    }
  }

  /** Whatever hash has a wanted body, the merge has some answer for it. */
  lemma WantedIsAnswered(request: seq<B256>, m: set<B256>, t: set<B256>, fetched: seq<Body>, truth: B256 -> Body,
                         h: B256)
    requires NoDup(request) && h in request && |fetched| <= |Keep(request, m)|
    requires WantedWith(Keep(request, m), t, |fetched|, truth)(h).Some?
    ensures Shifted(request, m, t, fetched, truth)(h).Some?
  {
    var missing := Keep(request, m);
    if h !in missing {
      RightElsewhere(request, m, t, fetched, truth, h);
    } else if h !in t {
      var j := PlaceInTake(missing, |fetched|, h);
      ShiftedRank(request, m, t, j);
      DistinctMissing(request, m);
      DistinctPrefix(missing, j);
      SubsetCard(Elems(missing[..j]) - t, Elems(missing[..j]));
    }
  }

  lemma ShiftShows(request: seq<B256>, m: set<B256>, t: set<B256>, fetched: seq<Body>, truth: B256 -> Body)
    requires NoDup(request) && PrefixReply(fetched, Keep(request, m), truth) && InjectiveOn(request, truth)
    requires !NoShift(Keep(request, m), t, |fetched|)
    ensures Gather(request, Shifted(request, m, t, fetched, truth))
            != Gather(request, WantedWith(Keep(request, m), t, |fetched|, truth))
    ensures exists h :: h in request && Shifted(request, m, t, fetched, truth)(h).Some?
                        && Shifted(request, m, t, fetched, truth)(h) != Some(truth(h))
  {
    var missing := Keep(request, m);
    var answer, wanted := Shifted(request, m, t, fetched, truth), WantedWith(missing, t, |fetched|, truth);
    var i, j := FirstShift(missing, t, |fetched|);
    TakesOther(request, m, t, fetched, truth, i, j);
    var h := missing[j];
    assert wanted(h).Some? ==> wanted(h) == Some(truth(h));
    hide Keep, Shifted, WantedWith, Gather;
    if wanted(h).Some? {
      ShiftDiffers(request, m, t, fetched, truth, i, j);
    } else {
      forall g | g in request && wanted(g).Some? ensures answer(g).Some? {
        WantedIsAnswered(request, m, t, fetched, truth, g);
      }
      GatherLonger(request, answer, wanted);
    }
  }

  /** In terms of the missing hashes cached at their turn. */
  lemma TurnHitsAlignedIff(job: Job, b: Bodies, steps: seq<Step>, truth: B256 -> Body)
    requires b.Valid() && Correct(b, truth) && NoDup(job.request) && HonestPeer(job, truth)
    requires HonestImports(steps, truth) && InjectiveOn(job.request, truth)
    requires |Elems(job.request) + Imported(steps)| <= b.cap
    ensures var s, t := Run(job, Start(b), steps), TurnHits(job, Start(b), steps);
            s.phase.Done? && Merged(job, s.missing) ==>
              var n := |job.peer(s.missing).value|;
              s.out == Gather(job.request, WantedWith(s.missing, t, n, truth)) <==> NoShift(s.missing, t, n)
  {
    var s, t := Run(job, Start(b), steps), TurnHits(job, Start(b), steps);
    ShiftedResponse(job, b, steps, truth);
    hide Run, TurnHits, Gather, Shifted, Keep, WantedWith, NoShift;
    if s.phase.Done? && Merged(job, s.missing) {
      var m, fetched := Elems(s.missing), job.peer(s.missing).value;
      if NoShift(s.missing, t, |fetched|) {
        NoShiftGathers(job.request, m, t, fetched, truth);
      } else {
        ShiftShows(job.request, m, t, fetched, truth);
      }
    }
  }

  lemma NoShiftGathers(request: seq<B256>, m: set<B256>, t: set<B256>, fetched: seq<Body>, truth: B256 -> Body)
    requires NoDup(request) && PrefixReply(fetched, Keep(request, m), truth)
    requires NoShift(Keep(request, m), t, |fetched|)
    ensures Gather(request, Shifted(request, m, t, fetched, truth))
            == Gather(request, WantedWith(Keep(request, m), t, |fetched|, truth))
  {
    var answer, wanted := Shifted(request, m, t, fetched, truth), WantedWith(Keep(request, m), t, |fetched|, truth);
    forall h | h in request ensures answer(h) == wanted(h) {
      NoShiftRight(request, m, t, fetched, truth, h);
    }
    GatherSame(request, answer, wanted);
  }

  /** One cached hash does no harm exactly when it is the last missing one or the reply does not reach it. */
  lemma OneHitShifts(missing: seq<B256>, j: nat, n: nat)
    requires NoDup(missing) && j < |missing|
    ensures NoShift(missing, {missing[j]}, n) <==> j == |missing| - 1 || n <= j
  {
    if j < |missing| - 1 && j < n {
      assert missing[j] in {missing[j]} && missing[j + 1] !in {missing[j]};
    }
  }

  /** In terms of the first cached place i: the reply does not reach it, or every later missing hash is cached too. */
  lemma NoShiftFrom(missing: seq<B256>, t: set<B256>, i: nat, n: nat)
    requires i < |missing| && missing[i] in t && forall k :: 0 <= k < i ==> missing[k] !in t
    ensures NoShift(missing, t, n) <==> n <= i || forall j :: i < j < |missing| ==> missing[j] in t
  {
  }

  // ---------- which missing hashes are cached at their turn ----------

  /** The position of the next turn of the merge. */
  function NextTurn(s: Machine): nat {
    match s.phase
    case Filtering => 0
    case Inserting(_) => s.i + 1
    case _ => s.i
  }

  /** The hashes whose turn is still to come. */
  function Ahead(job: Job, s: Machine): set<B256> {
    if s.phase.Done? then {} else Elems(Rest(job.request, NextTurn(s)))
  }

  function Rest(request: seq<B256>, i: nat): seq<B256> {
    if i <= |request| then request[i..] else []
  }

  /** The missing hashes imported before their turn. */
  function EarlyImports(job: Job, s: Machine, steps: seq<Step>): set<B256> {
    if steps == [] then {}
    else
      var g, step := steps[..|steps| - 1], steps[|steps| - 1];
      var t := Run(job, s, g);
      EarlyImports(job, s, g)
      + if step.Import? && step.hash in t.missing && step.hash in Ahead(job, t) then {step.hash} else {}
  }

  /** A missing hash whose turn is to come is cached exactly when it was imported, and the turn hits so far are the
      early imports whose turn is over. */
  ghost predicate Tracked(m: set<B256>, cached: set<B256>, ahead: set<B256>, t: set<B256>, e: set<B256>) {
    e <= m && t == e - ahead && forall h :: h in m && h in ahead ==> (h in cached <==> h in e)
  }

  ghost predicate TrackedAt(job: Job, s: Machine, t: set<B256>, e: set<B256>) {
    (s.phase.Done? && !Merged(job, s.missing)) || Tracked(Elems(s.missing), s.bodies.vals.Keys, Ahead(job, s), t, e)
  }

  lemma TrackImport(m: set<B256>, cached: set<B256>, cached2: set<B256>, ahead: set<B256>, t: set<B256>, e: set<B256>,
                    k: B256)
    requires Tracked(m, cached, ahead, t, e) && k in cached2
    requires forall h :: h in m && h in ahead && h != k ==> (h in cached2 <==> h in cached)
    ensures Tracked(m, cached2, ahead, t, e + if k in m && k in ahead then {k} else {})
  {
  }

  lemma TrackTurn(m: set<B256>, cached: set<B256>, cached2: set<B256>, ahead: set<B256>, ahead2: set<B256>,
                  t: set<B256>, e: set<B256>, k: B256)
    requires Tracked(m, cached, ahead, t, e) && ahead == ahead2 + {k} && k !in ahead2
    requires forall h :: h in ahead2 ==> (h in cached2 <==> h in cached)
    ensures Tracked(m, cached2, ahead2, t + if k in m && k in cached then {k} else {}, e)
  {
  }

  lemma AheadAt(job: Job, s: Machine, h: B256) returns (j: nat)
    requires h in Ahead(job, s)
    ensures NextTurn(s) <= j < |job.request| && job.request[j] == h
  {
    var k :| 0 <= k < |Rest(job.request, NextTurn(s))| && Rest(job.request, NextTurn(s))[k] == h;
    j := NextTurn(s) + k;
  }

  /** What is missing and ahead stays cached when a hash of w is pushed, and nothing else becomes cached. */
  lemma PushAhead(job: Job, w: set<B256>, truth: B256 -> Body, s: Machine, t: set<B256>, k: B256, x: Body, h: B256)
    requires ImportInv(job, w, truth, s, t) && k in w && h != k && h in Elems(s.missing) && h in Ahead(job, s)
    ensures h in s.bodies.Push(k, x).vals <==> h in s.bodies.vals
  {
    hide Standing, Used, Keep, Shifted, NoDup;
    var j := AheadAt(job, s, h);
    assert h in Elems(job.request);
    if h in s.bodies.vals {
      AheadHeld(job, w, truth, s, t, j);
      HeldPush(s.bodies, h, w, truth(h), k, x);
    } else {
      AbsentPush(s.bodies, h, k, x);
    }
  }

  lemma AheadHeld(job: Job, w: set<B256>, truth: B256 -> Body, s: Machine, t: set<B256>, j: nat)
    requires ImportInv(job, w, truth, s, t) && !s.phase.Done? && NextTurn(s) <= j < |job.request|
    requires job.request[j] in s.bodies.vals && job.request[j] in Elems(s.missing)
    ensures Held(s.bodies, job.request[j], w, truth(job.request[j]))
  {
    hide Standing, Used, Keep, Shifted, NoDup, Held;
    if s.phase.Filtering? {
      assert job.request[j] in job.request[..s.i];
      var k :| 0 <= k < s.i && job.request[..s.i][k] == job.request[j];
    } else {
      assert Ready(s.bodies, job.request, Elems(s.missing), w, truth, NextTurn(s));
    }
  }

  lemma ImportTracked(job: Job, w: set<B256>, truth: B256 -> Body, s: Machine, t: set<B256>, e: set<B256>, k: B256)
    requires ImportInv(job, w, truth, s, t) && k in w && TrackedAt(job, s, t, e)
    ensures TrackedAt(job, s.(bodies := s.bodies.Push(k, truth(k))), t,
                      e + if k in s.missing && k in Ahead(job, s) then {k} else {})
  {
    var l, m := s.bodies.Push(k, truth(k)), Elems(s.missing);
    if !s.phase.Done? || Merged(job, s.missing) {
      PushValid(s.bodies, k, truth(k));
      forall h | h in m && h in Ahead(job, s) && h != k ensures h in l.vals.Keys <==> h in s.bodies.vals.Keys {
        PushAhead(job, w, truth, s, t, k, truth(k), h);
      }
      assert Ahead(job, s.(bodies := l)) == Ahead(job, s);
      assert k in s.missing <==> k in m;
      hide ImportInv, Ahead, Tracked, Elems;
      TrackImport(m, s.bodies.vals.Keys, l.vals.Keys, Ahead(job, s), t, e, k);
    }
  }

  lemma RestStep(request: seq<B256>, i: nat)
    requires NoDup(request) && i < |request|
    ensures Elems(Rest(request, i)) == Elems(Rest(request, i + 1)) + {request[i]} && request[i] !in Rest(request, i + 1)
  {
    assert Rest(request, i) == [request[i]] + Rest(request, i + 1);
  }

  lemma HandleTracked(job: Job, w: set<B256>, truth: B256 -> Body, s: Machine, t: set<B256>, e: set<B256>)
    requires ImportInv(job, w, truth, s, t) && TrackedAt(job, s, t, e)
    ensures TrackedAt(job, Handler(job, s), t + TurnHit(job, s), e)
  {
    hide Ready, Standing, Used, Keep, Shifted, NoDup;
    if s.phase.Merging? && s.i < |job.request| {
      hide ImportInv;
      MergingTracked(job, w, truth, s, t, e);
    } else if s.phase.Inserting? {
      hide ImportInv;
      InsertTracked(job, w, truth, s, t, e);
    } else if s.phase.Filtering? && s.i < |job.request| {
      hide ImportInv;
      FilterTracked(job, w, truth, s, t, e);
    } else {
      assert t + {} == t;
    }
  }

  /** A filtered hash is cached, or missing and not imported yet. */
  lemma FilterTracked(job: Job, w: set<B256>, truth: B256 -> Body, s: Machine, t: set<B256>, e: set<B256>)
    requires ImportInv(job, w, truth, s, t) && TrackedAt(job, s, t, e) && s.phase.Filtering? && s.i < |job.request|
    ensures TrackedAt(job, Handler(job, s), t + TurnHit(job, s), e)
  {
    hide Ready, Keep, Correct;
    var h, u, m := job.request[s.i], Handler(job, s), Elems(s.missing);
    NotBefore(job.request, s.i);
    assert h !in m && s.bodies.Valid();
    hide ImportInv, NoDup;
    TouchFacts(s.bodies, h);
    assert u.phase.Filtering? && Ahead(job, u) == Ahead(job, s) && u.bodies.vals == s.bodies.vals;
    assert Elems(u.missing) == if h in s.bodies.vals then m else m + {h};
    assert t + TurnHit(job, s) == t;
    hide Handler, Ahead, TurnHit;
  }

  lemma MergingTracked(job: Job, w: set<B256>, truth: B256 -> Body, s: Machine, t: set<B256>, e: set<B256>)
    requires ImportInv(job, w, truth, s, t) && TrackedAt(job, s, t, e)
    requires s.phase.Merging? && s.i < |job.request|
    ensures TrackedAt(job, Handler(job, s), t + TurnHit(job, s), e)
  {
    hide Standing, Used, Keep, Shifted, NoDup, Ready, Tracked;
    var h, u := job.request[s.i], Handler(job, s);
    assert NoDup(job.request) && s.bodies.Valid();
    hide ImportInv;
    RestStep(job.request, s.i);
    TouchFacts(s.bodies, h);
    assert NextTurn(u) == s.i + 1 && u.missing == s.missing && u.bodies.vals == s.bodies.vals;
    assert h in s.missing <==> h in Elems(s.missing);
    hide Handler, Rest, Elems;
    TrackTurn(Elems(s.missing), s.bodies.vals.Keys, s.bodies.vals.Keys, Ahead(job, s), Ahead(job, u), t, e, h);
  }

  lemma InsertTracked(job: Job, w: set<B256>, truth: B256 -> Body, s: Machine, t: set<B256>, e: set<B256>)
    requires ImportInv(job, w, truth, s, t) && TrackedAt(job, s, t, e) && s.phase.Inserting?
    ensures TrackedAt(job, Handler(job, s), t + TurnHit(job, s), e)
  {
    hide Standing, Used, Keep, Shifted, NoDup, Ready, Tracked;
    var k, x, m := job.request[s.i], s.phase.body, Elems(s.missing);
    assert k in Elems(job.request) && NoDup(job.request);
    RestStep(job.request, s.i);
    var u := Handler(job, s);
    assert u.missing == s.missing && u.bodies == s.bodies.Push(k, x) && NextTurn(u) == NextTurn(s) && u.phase.Merging?;
    hide Handler, ImportInv;
    assert Ahead(job, u) == Ahead(job, s) && k !in Ahead(job, s);
    assert t + {} == t;
    forall h | h in m && h in Ahead(job, s) ensures h in s.bodies.Push(k, x).vals <==> h in s.bodies.vals {
      PushAhead(job, w, truth, s, t, k, x, h);
    }
    hide Ahead, Elems;
    SameTracked(m, s.bodies.vals.Keys, u.bodies.vals.Keys, Ahead(job, s), t, e);
  }

  lemma SameTracked(m: set<B256>, cached: set<B256>, cached2: set<B256>, ahead: set<B256>, t: set<B256>, e: set<B256>)
    requires Tracked(m, cached, ahead, t, e) && forall h :: h in m && h in ahead ==> (h in cached2 <==> h in cached)
    ensures Tracked(m, cached2, ahead, t, e)
  {
  }

  lemma {:induction false} RunTracked(job: Job, w: set<B256>, truth: B256 -> Body, s: Machine, steps: seq<Step>)
    requires ImportInv(job, w, truth, s, {}) && Imported(steps) <= w && HonestImports(steps, truth)
    requires TrackedAt(job, s, {}, {})
    ensures TrackedAt(job, Run(job, s, steps), TurnHits(job, s, steps), EarlyImports(job, s, steps))
  {
    hide ImportInv, Handler, TurnHit, TrackedAt;
    if steps != [] {
      var g, step := steps[..|steps| - 1], steps[|steps| - 1];
      var u, t, e := Run(job, s, g), TurnHits(job, s, g), EarlyImports(job, s, g);
      assert step in steps && forall x :: x in g ==> x in steps;
      RunKeeps(job, w, truth, s, g);
      RunTracked(job, w, truth, s, g);
      assert t + {} == t && e + {} == e;
      match step
      case Handle => HandleTracked(job, w, truth, u, t, e);
      case Import(k, x) =>
        assert k in Imported(steps);
        ImportTracked(job, w, truth, u, t, e, k);
    }
  }

  /** When the merge is done, the missing hashes that were cached at their turn are those imported before it. */
  lemma TurnHitsAreEarlyImports(job: Job, b: Bodies, steps: seq<Step>, truth: B256 -> Body)
    requires b.Valid() && Correct(b, truth) && NoDup(job.request) && HonestImports(steps, truth)
    requires |Elems(job.request) + Imported(steps)| <= b.cap
    ensures var s := Run(job, Start(b), steps);
            s.phase.Done? && Merged(job, s.missing) ==>
              TurnHits(job, Start(b), steps) == EarlyImports(job, Start(b), steps)
  {
    var w := Elems(job.request) + Imported(steps);
    StartImportInv(job, b, w, truth);
    assert TrackedAt(job, Start(b), {}, {});
    hide ImportInv;
    RunTracked(job, w, truth, Start(b), steps);
  }

  // ---------- main results ----------

  /** For correct imports of any hashes at any points from the start of the filter pass of a request of pairwise
      distinct hashes, with room for the request and the imports: the response is the correct body of exactly each
      hash that was not missing, was imported between its filtering and its turn, or is covered by the reply, if and
      only if no body of the reply that an early import leaves over moves up to a later hash. */
  lemma RequestedImportsAlignedIff(job: Job, b: Bodies, steps: seq<Step>, truth: B256 -> Body)
    requires b.Valid() && Correct(b, truth) && NoDup(job.request) && HonestPeer(job, truth)
    requires HonestImports(steps, truth) && InjectiveOn(job.request, truth)
    requires |Elems(job.request) + Imported(steps)| <= b.cap
    ensures var s, early := Run(job, Start(b), steps), EarlyImports(job, Start(b), steps);
            s.phase.Done? && Merged(job, s.missing) ==>
              var n := |job.peer(s.missing).value|;
              s.out == Gather(job.request, WantedWith(s.missing, early, n, truth)) <==> NoShift(s.missing, early, n)
  {
    hide Run, Gather, WantedWith, NoShift, TurnHits, EarlyImports;
    TurnHitsAlignedIff(job, b, steps, truth);
    TurnHitsAreEarlyImports(job, b, steps, truth);
  }

  /** One early import: the response is right exactly when the imported hash is the last missing one or the reply
      does not reach it. */
  lemma OneEarlyImportAlignedIff(job: Job, b: Bodies, steps: seq<Step>, truth: B256 -> Body, j: nat)
    requires b.Valid() && Correct(b, truth) && NoDup(job.request) && HonestPeer(job, truth)
    requires HonestImports(steps, truth) && InjectiveOn(job.request, truth)
    requires |Elems(job.request) + Imported(steps)| <= b.cap
    requires var s := Run(job, Start(b), steps);
             && s.phase.Done? && Merged(job, s.missing) && j < |s.missing|
             && EarlyImports(job, Start(b), steps) == {s.missing[j]}
    ensures var s := Run(job, Start(b), steps);
            var n := |job.peer(s.missing).value|;
            s.out == Gather(job.request, WantedWith(s.missing, {s.missing[j]}, n, truth))
            <==> j == |s.missing| - 1 || n <= j
  {
    var s := Run(job, Start(b), steps);
    RequestedImportsAlignedIff(job, b, steps, truth);
    ShiftedResponse(job, b, steps, truth);
    hide Run, EarlyImports, TurnHits, NoShift, WantedWith;
    DistinctMissing(job.request, Elems(s.missing));
    OneHitShifts(s.missing, j, |job.peer(s.missing).value|);
  }
}
