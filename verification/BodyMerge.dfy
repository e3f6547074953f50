/** The GetBlockBodies branch past the first resolve: filter the missing hashes, fetch them, merge the reply
    with the cache in request order. A state machine whose steps are the handler's locked sections, so that
    block imports of other tasks can fall between any two of them. */
module BodyMerge {
  import opened Recency
  import opened LruMap
  import opened Types

  type Bodies = Lru<B256, Body>

  /** One request: the hashes, the outcome of the network call for a list of missing hashes (None when it
      fails), and the bodies the first resolve found. */
  datatype Job = Job(request: seq<B256>, peer: seq<B256> -> Option<seq<Body>>, partial: seq<Body>)

  /** `Inserting` is the moment between a cache miss and the insert of the fetched body taken for it. */
  datatype Phase = Filtering | Merging | Inserting(body: Body) | Done

  datatype Machine = Machine(
    bodies: Bodies, phase: Phase, i: nat,
    missing: seq<B256>, fetched: seq<Body>, next: nat, out: seq<Body>)

  datatype Step = Handle | Import(hash: B256, body: Body)

  function Start(b: Bodies): Machine {
    Machine(b, Filtering, 0, [], [], 0, [])
  }

  /** The handler's next step. */
  function Handler(job: Job, s: Machine): Machine {
    match s.phase
    case Filtering =>
      if s.i < |job.request| then
        var h := job.request[s.i];
        s.(bodies := s.bodies.Touch(h), i := s.i + 1, missing := s.missing + if h in s.bodies.vals then [] else [h])
      else if s.missing == [] || job.peer(s.missing).None? then s.(phase := Done, out := job.partial)
      else s.(phase := Merging, i := 0, fetched := job.peer(s.missing).value)
    case Merging =>
      if s.i >= |job.request| then s.(phase := Done)
      else
        var h := job.request[s.i];
        if h in s.bodies.vals then s.(bodies := s.bodies.Touch(h), i := s.i + 1, out := s.out + [s.bodies.vals[h]])
        else if s.next < |s.fetched| then s.(phase := Inserting(s.fetched[s.next]), next := s.next + 1)
        else s.(i := s.i + 1)
    case Inserting(b) =>
      if s.i >= |job.request| then s.(phase := Done)
      else s.(bodies := s.bodies.Push(job.request[s.i], b), phase := Merging, i := s.i + 1, out := s.out + [b])
    case Done => s
  }

  function Next(job: Job, s: Machine, step: Step): Machine {
    match step
    case Handle => Handler(job, s)
    case Import(h, b) => s.(bodies := s.bodies.Push(h, b))
  }

  function Run(job: Job, s: Machine, steps: seq<Step>): Machine {
    if steps == [] then s else Next(job, Run(job, s, steps[..|steps| - 1]), steps[|steps| - 1])
  }

  function Imported(steps: seq<Step>): set<B256> {
    set step | step in steps && step.Import? :: step.hash
  }

  // ---------- the handler alone always finishes ----------

  function Left(job: Job, i: nat): nat {
    if i < |job.request| then |job.request| - i else 0
  }

  function Measure(job: Job, s: Machine): nat {
    match s.phase
    case Filtering => Left(job, s.i) + 2 * |job.request| + 3
    case Merging => 2 * Left(job, s.i) + 2
    case Inserting(_) => 2 * Left(job, s.i) + 1
    case Done => 0
  }

  lemma HandlerProgress(job: Job, s: Machine)
    requires !s.phase.Done?
    ensures Measure(job, Handler(job, s)) < Measure(job, s)
  {
  }

  /** The handler run to its end without interference. */
  function Finish(job: Job, s: Machine): (r: Machine)
    ensures r.phase.Done?
    decreases Measure(job, s)
  {
    if s.phase.Done? then s
    else
      HandlerProgress(job, s);
      Finish(job, Handler(job, s))
  }

  // ---------- the answer in closed form ----------

  function Gather<K, V>(keys: seq<K>, f: K -> Option<V>): seq<V> {
    if keys == [] then []
    else
      var k := keys[|keys| - 1];
      Gather(keys[..|keys| - 1], f) + match f(k) case None => [] case Some(v) => [v]
  }

  function FirstAt(s: seq<B256>, h: B256): (i: nat)
    ensures i <= |s|
    ensures i < |s| ==> s[i] == h
    ensures h !in s[..i]
    ensures h in s ==> i < |s|
  {
    if s == [] || s[0] == h then 0
    else
      var i := FirstAt(s[1..], h);
      assert s[..i + 1] == [s[0]] + s[1..][..i];
      i + 1
  }

  /** How many distinct hashes of m the request names before h. */
  function Rank(request: seq<B256>, m: set<B256>, h: B256): nat {
    |Elems(request[..FirstAt(request, h)]) * m|
  }

  /** What the response holds for h: the cached body, or the fetched body at the rank of h among the missing
      hashes, or nothing when the reply is too short. */
  function Answer(request: seq<B256>, m: set<B256>, orig: map<B256, Body>, fetched: seq<Body>, h: B256): Option<Body> {
    if h !in m then (if h in orig then Some(orig[h]) else None)
    else if Rank(request, m, h) < |fetched| then Some(fetched[Rank(request, m, h)]) else None
  }

  function AnswerOf(request: seq<B256>, m: set<B256>, orig: map<B256, Body>, fetched: seq<Body>): B256 -> Option<Body> {
    h => Answer(request, m, orig, fetched, h)
  }

  /** Some hash was missing and the fetch succeeded. */
  predicate Merged(job: Job, missing: seq<B256>) {
    missing != [] && job.peer(missing).Some?
  }

  function Response(job: Job, orig: map<B256, Body>, missing: seq<B256>): seq<Body> {
    if Merged(job, missing)
    then Gather(job.request, AnswerOf(job.request, Elems(missing), orig, job.peer(missing).value))
    else job.partial
  }

  /** The request restricted to the hashes of m, in request order and with repeats. */
  function Keep(request: seq<B256>, m: set<B256>): seq<B256> {
    if request == [] then []
    else
      var h := request[|request| - 1];
      Keep(request[..|request| - 1], m) + if h in m then [h] else []
  }

  // ---------- the working set ----------

  /** h is cached with value v and every key above it belongs to w. */
  ghost predicate Held(l: Bodies, h: B256, w: set<B256>, v: Body) {
    h in l.vals && l.vals[h] == v && Above(l.order, h) <= w
  }

  lemma HeldPush(l: Bodies, h: B256, w: set<B256>, v: Body, k: B256, x: Body)
    requires l.Valid() && |w| <= l.cap && h in w && k in w && k != h && Held(l, h, w, v)
    ensures Held(l.Push(k, x), h, w, v)
  {
    AboveIn(l.order, h);
    SubsetCard(Above(l.order, h) + {k}, w - {h});
    PushOther(l, k, x, h);
  }

  lemma HeldTouch(l: Bodies, h: B256, w: set<B256>, v: Body, k: B256)
    requires l.Valid() && k in w && Held(l, h, w, v)
    ensures Held(l.Touch(k), h, w, v)
  {
    if k in l.vals {
      TouchAbove(l, k, h);
    }
  }

  lemma TouchHeld(l: Bodies, h: B256, w: set<B256>)
    requires l.Valid() && h in l.vals
    ensures Held(l.Touch(h), h, w, l.vals[h])
  {
    TouchAbove(l, h, h);
  }

  lemma PushHeld(l: Bodies, h: B256, w: set<B256>, v: Body)
    requires l.Valid()
    ensures Held(l.Push(h, v), h, w, v)
  {
    PushValid(l, h, v);
  }

  lemma AbsentPush(l: Bodies, h: B256, k: B256, x: Body)
    requires l.Valid() && k != h && h !in l.vals
    ensures h !in l.Push(k, x).vals
  {
    PushOther(l, k, x, h);
  }

  // ---------- invariant ----------

  /** The cache holds for every requested hash what `want` says, and nothing for a hash it wants nothing for. */
  ghost predicate Serves(l: Bodies, request: seq<B256>, w: set<B256>, want: B256 -> Option<Body>) {
    forall h :: h in request ==>
                  match want(h)
                  case None => h !in l.vals
                  case Some(v) => Held(l, h, w, v)
  }

  /** What the cache must hold for h once the merge stands at position i. */
  function Want(request: seq<B256>, m: set<B256>, orig: map<B256, Body>, fetched: seq<Body>,
                i: nat): B256 -> Option<Body>
    requires i <= |request|
  {
    h => if h in m && h !in request[..i] then None else Answer(request, m, orig, fetched, h)
  }

  /** How much of the reply is used once the merge stands at position i. */
  function Used(request: seq<B256>, m: set<B256>, fetched: seq<Body>, i: nat): nat
    requires i <= |request|
  {
    var distinct := |Elems(request[..i]) * m|;
    if distinct <= |fetched| then distinct else |fetched|
  }

  ghost predicate FilterInv(job: Job, w: set<B256>, orig: map<B256, Body>, s: Machine) {
    && s.i <= |job.request| && s.next == 0 && s.out == []
    && s.missing == Keep(job.request[..s.i], Elems(s.missing))
    && Sorted(job.request[..s.i], s.missing, s.bodies, w)
    && Unchanged(job.request, s.bodies, orig)
  }

  /** The hashes already filtered are either missing and absent, or present and held. */
  ghost predicate Sorted(seen: seq<B256>, missing: seq<B256>, l: Bodies, w: set<B256>) {
    && (forall h :: h in missing ==> h in seen && h !in l.vals)
    && (forall h :: h in seen && h !in missing ==> h in l.vals && Held(l, h, w, l.vals[h]))
  }

  /** A requested hash that is cached still has its original body. */
  ghost predicate Unchanged(request: seq<B256>, l: Bodies, orig: map<B256, Body>) {
    forall h :: h in request && h in l.vals ==> h in orig && l.vals[h] == orig[h]
  }

  ghost predicate MergeInv(job: Job, w: set<B256>, orig: map<B256, Body>, s: Machine) {
    var m := Elems(s.missing);
    && s.i <= |job.request|
    && s.missing != [] && job.peer(s.missing) == Some(s.fetched)
    && s.missing == Keep(job.request, m)
    && (forall h :: h in job.request && h !in m ==> h in orig)
    && Serves(s.bodies, job.request, w, Want(job.request, m, orig, s.fetched, s.i))
    && s.out == Gather(job.request[..s.i], AnswerOf(job.request, m, orig, s.fetched))
    && (s.phase.Merging? ==> s.next == Used(job.request, m, s.fetched, s.i))
    && (s.phase.Inserting? ==>
          && s.i < |job.request| && job.request[s.i] in m && job.request[s.i] !in job.request[..s.i]
          && Answer(job.request, m, orig, s.fetched, job.request[s.i]) == Some(s.phase.body)
          && s.next == Used(job.request, m, s.fetched, s.i + 1))
  }

  ghost predicate Inv(job: Job, w: set<B256>, orig: map<B256, Body>, s: Machine) {
    && s.bodies.Valid() && |w| <= s.bodies.cap && Elems(job.request) <= w
    && match s.phase
       case Filtering => FilterInv(job, w, orig, s)
       case Done =>
         && s.missing == Keep(job.request, Elems(s.missing))
         && (forall h :: h in job.request && h !in Elems(s.missing) ==> h in orig)
         && s.out == Response(job, orig, s.missing)
         && (Merged(job, s.missing) ==>
               Serves(s.bodies, job.request, w,
                      AnswerOf(job.request, Elems(s.missing), orig, job.peer(s.missing).value)))
       case _ => MergeInv(job, w, orig, s)
  }

  // ---------- imports of other tasks keep it ----------

  lemma ServesPush(l: Bodies, request: seq<B256>, w: set<B256>, want: B256 -> Option<Body>, k: B256, x: Body)
    requires l.Valid() && |w| <= l.cap && Elems(request) <= w && k in w && k !in request
    requires Serves(l, request, w, want)
    ensures Serves(l.Push(k, x), request, w, want)
  {
    hide Held;
    forall h | h in request
      ensures match want(h) case None => h !in l.Push(k, x).vals case Some(v) => Held(l.Push(k, x), h, w, v)
    {
      match want(h)
      case None => AbsentPush(l, h, k, x);
      case Some(v) => HeldPush(l, h, w, v, k, x);
    }
  }

  lemma ServesTouch(l: Bodies, request: seq<B256>, w: set<B256>, want: B256 -> Option<Body>, k: B256)
    requires l.Valid() && k in w && Serves(l, request, w, want)
    ensures Serves(l.Touch(k), request, w, want)
  {
    TouchFacts(l, k);
    forall h | h in request
      ensures match want(h) case None => h !in l.Touch(k).vals case Some(v) => Held(l.Touch(k), h, w, v)
    {
      match want(h)
      case None =>
      case Some(v) => HeldTouch(l, h, w, v, k);
    }
  }

  /** Inserting the body wanted for a requested hash that was absent. */
  lemma ServesInsert(l: Bodies, request: seq<B256>, w: set<B256>, want: B256 -> Option<Body>,
                     want2: B256 -> Option<Body>, k: B256, x: Body)
    requires l.Valid() && |w| <= l.cap && Elems(request) <= w && k in request
    requires Serves(l, request, w, want)
    requires want2(k) == Some(x) && forall h :: h in request && h != k ==> want2(h) == want(h)
    ensures Serves(l.Push(k, x), request, w, want2)
  {
    hide Held;
    forall h | h in request
      ensures match want2(h) case None => h !in l.Push(k, x).vals case Some(v) => Held(l.Push(k, x), h, w, v)
    {
      if h == k {
        PushHeld(l, k, w, x);
      } else {
        match want(h)
        case None => AbsentPush(l, h, k, x);
        case Some(v) => HeldPush(l, h, w, v, k, x);
      }
    }
  }

  lemma FilterImport(job: Job, w: set<B256>, orig: map<B256, Body>, s: Machine, k: B256, x: Body)
    requires Inv(job, w, orig, s) && s.phase.Filtering? && k in w && k !in job.request
    ensures FilterInv(job, w, orig, s.(bodies := s.bodies.Push(k, x)))
  {
    var l := s.bodies;
    forall h | h in job.request
      ensures h !in l.vals ==> h !in l.Push(k, x).vals
      ensures h in l.Push(k, x).vals ==> l.Push(k, x).vals[h] == l.vals[h]
      ensures h in l.vals && Held(l, h, w, l.vals[h]) ==> Held(l.Push(k, x), h, w, l.vals[h])
    {
      PushOther(l, k, x, h);
      if h in l.vals && Held(l, h, w, l.vals[h]) {
        HeldPush(l, h, w, l.vals[h], k, x);
      }
    }
    assert forall h :: h in job.request[..s.i] ==> h in job.request;
  }

  lemma ImportKeepsInv(job: Job, w: set<B256>, orig: map<B256, Body>, s: Machine, k: B256, x: Body)
    requires Inv(job, w, orig, s) && k in w && k !in job.request
    ensures Inv(job, w, orig, s.(bodies := s.bodies.Push(k, x)))
  {
    hide Want, Serves, Keep, Gather, Used, Answer, FilterInv;
    PushValid(s.bodies, k, x);
    match s.phase
    case Filtering => FilterImport(job, w, orig, s, k, x);
    case Done =>
      if Merged(job, s.missing) {
        ServesPush(s.bodies, job.request, w, AnswerOf(job.request, Elems(s.missing), orig, job.peer(s.missing).value),
                   k, x);
      }
    case _ =>
      ServesPush(s.bodies, job.request, w, Want(job.request, Elems(s.missing), orig, s.fetched, s.i), k, x);
  }

  // ---------- the handler keeps it ----------

  lemma PrefixStep(s: seq<B256>, i: nat)
    requires i < |s|
    ensures s[..i + 1] == s[..i] + [s[i]] && s[..i + 1][..i] == s[..i]
    ensures Elems(s[..i + 1]) == Elems(s[..i]) + {s[i]}
  {
    assert s[..i + 1] == s[..i] + [s[i]];
  }

  lemma GatherStep<V>(s: seq<B256>, i: nat, f: B256 -> Option<V>)
    requires i < |s|
    ensures Gather(s[..i + 1], f) == Gather(s[..i], f) + match f(s[i]) case None => [] case Some(v) => [v]
  {
    PrefixStep(s, i);
  }

  lemma KeepStep(s: seq<B256>, i: nat, m: set<B256>)
    requires i < |s|
    ensures Keep(s[..i + 1], m) == if s[i] in m then Keep(s[..i], m) + [s[i]] else Keep(s[..i], m)
  {
    PrefixStep(s, i);
    assert Keep(s[..i], m) + [] == Keep(s[..i], m);
  }

  lemma {:induction false} KeepGrows(s: seq<B256>, m: set<B256>, h: B256)
    requires h in m || h !in s
    ensures Keep(s, m + {h}) == Keep(s, m)
  {
    if s != [] {
      KeepGrows(s[..|s| - 1], m, h);
    }
  }

  lemma SortedStep(seen: seq<B256>, missing: seq<B256>, l: Bodies, w: set<B256>, k: B256)
    requires l.Valid() && k in w && Sorted(seen, missing, l, w)
    ensures Sorted(seen + [k], missing + (if k in l.vals then [] else [k]), l.Touch(k), w)
  {
    TouchFacts(l, k);
    if k in l.vals {
      TouchHeld(l, k, w);
    }
    forall h | h in seen && h !in missing ensures Held(l.Touch(k), h, w, l.vals[h]) {
      HeldTouch(l, h, w, l.vals[h], k);
    }
  }

  lemma FilterStep(job: Job, w: set<B256>, orig: map<B256, Body>, s: Machine)
    requires Inv(job, w, orig, s) && s.phase.Filtering? && s.i < |job.request|
    ensures FilterInv(job, w, orig, Handler(job, s))
  {
    var h := job.request[s.i];
    assert h in Elems(job.request);
    PrefixStep(job.request, s.i);
    TouchFacts(s.bodies, h);
    SortedStep(job.request[..s.i], s.missing, s.bodies, w, h);
    FilterStepMissing(job, s);
  }

  lemma FilterStepMissing(job: Job, s: Machine)
    requires s.phase.Filtering? && s.i < |job.request|
    requires s.missing == Keep(job.request[..s.i], Elems(s.missing))
    requires forall h :: h in job.request[..s.i] && h !in s.missing ==> h in s.bodies.vals
    requires forall h :: h in s.missing ==> h !in s.bodies.vals
    ensures var t := Handler(job, s);
            t.missing == Keep(job.request[..t.i], Elems(t.missing))
  {
    var h, m := job.request[s.i], Elems(s.missing);
    PrefixStep(job.request, s.i);
    if h in s.bodies.vals {
      assert s.missing + [] == s.missing && h !in m;
    } else {
      assert Elems(s.missing + [h]) == m + {h};
      KeepGrows(job.request[..s.i], m, h);
    }
  }

  lemma FilterEnd(job: Job, w: set<B256>, orig: map<B256, Body>, s: Machine)
    requires Inv(job, w, orig, s) && s.phase.Filtering? && s.i == |job.request|
    ensures Inv(job, w, orig, Handler(job, s))
  {
    var t := Handler(job, s);
    assert job.request[..s.i] == job.request;
    if t.phase.Merging? {
      var m := Elems(s.missing);
      assert Elems(job.request[..0]) * m == {};
      var want := Want(job.request, m, orig, t.fetched, 0);
      forall h | h in job.request
        ensures match want(h) case None => h !in t.bodies.vals case Some(v) => Held(t.bodies, h, w, v)
      {
        assert h in m <==> h in s.missing;
      }
    }
  }

  lemma FirstAtPrefix(s: seq<B256>, i: nat, h: B256)
    requires i <= |s|
    ensures h in s[..i] ==> FirstAt(s, h) < i
    ensures i < |s| && h == s[i] && h !in s[..i] ==> FirstAt(s, h) == i
  {
    var j := FirstAt(s, h);
    if i < j {
      assert forall x :: x in s[..i] ==> x in s[..j];
    }
    if j < i {
      assert s[..i][j] == h;
    }
  }

  /** The reply used so far counts one more exactly at the first request of a missing hash. */
  lemma UsedStep(request: seq<B256>, m: set<B256>, fetched: seq<Body>, i: nat)
    requires i < |request|
    ensures var h := request[i];
            if h in m && h !in request[..i]
            then Rank(request, m, h) == |Elems(request[..i]) * m|
                 && Used(request, m, fetched, i + 1)
                    == (if Rank(request, m, h) < |fetched| then Rank(request, m, h) + 1 else |fetched|)
            else Used(request, m, fetched, i + 1) == Used(request, m, fetched, i)
    ensures request[i] in request[..i] && Rank(request, m, request[i]) >= |fetched|
            ==> Used(request, m, fetched, i) == |fetched|
  {
    var h := request[i];
    PrefixStep(request, i);
    FirstAtPrefix(request, i, h);
    var e := Elems(request[..i]) * m;
    if h in m && h !in request[..i] {
      assert Elems(request[..i + 1]) * m == e + {h};
    } else {
      assert Elems(request[..i + 1]) * m == e;
    }
    if h in request[..i] {
      var j := FirstAt(request, h);
      assert forall x :: x in request[..j] ==> x in request[..i];
      SubsetCard(Elems(request[..j]) * m, e);
    }
  }

  lemma WantStep(request: seq<B256>, m: set<B256>, orig: map<B256, Body>, fetched: seq<Body>, i: nat)
    requires i < |request|
    ensures var h := request[i];
            && (forall g :: g != h ==>
                  Want(request, m, orig, fetched, i + 1)(g) == Want(request, m, orig, fetched, i)(g))
            && Want(request, m, orig, fetched, i + 1)(h) == Answer(request, m, orig, fetched, h)
            && (!(h in m && h !in request[..i]) ==>
                  Want(request, m, orig, fetched, i)(h) == Answer(request, m, orig, fetched, h))
            && (h in m && h !in request[..i] ==> Want(request, m, orig, fetched, i)(h) == None)
  {
    PrefixStep(request, i);
  }

  lemma ServesSame(l: Bodies, request: seq<B256>, w: set<B256>, want: B256 -> Option<Body>, want2: B256 -> Option<Body>)
    requires Serves(l, request, w, want) && forall h :: h in request ==> want2(h) == want(h)
    ensures Serves(l, request, w, want2)
  {
  }

  lemma MergeHit(job: Job, w: set<B256>, orig: map<B256, Body>, s: Machine)
    requires Inv(job, w, orig, s) && s.phase.Merging? && s.i < |job.request| && job.request[s.i] in s.bodies.vals
    ensures MergeInv(job, w, orig, Handler(job, s))
  {
    hide Answer, Want, Used, Serves, Keep, Gather;
    var h, m := job.request[s.i], Elems(s.missing);
    var want, want2 := Want(job.request, m, orig, s.fetched, s.i), Want(job.request, m, orig, s.fetched, s.i + 1);
    assert h in Elems(job.request);
    WantStep(job.request, m, orig, s.fetched, s.i);
    UsedStep(job.request, m, s.fetched, s.i);
    GatherStep(job.request, s.i, AnswerOf(job.request, m, orig, s.fetched));
    ServedHit(s.bodies, job.request, w, want, h);
    ServesTouch(s.bodies, job.request, w, want, h);
    ServesSame(s.bodies.Touch(h), job.request, w, want, want2);
  }

  lemma ServedHit(l: Bodies, request: seq<B256>, w: set<B256>, want: B256 -> Option<Body>, h: B256)
    requires Serves(l, request, w, want) && h in request && h in l.vals
    ensures want(h) == Some(l.vals[h])
  {
  }

  lemma HeldValue(l: Bodies, h: B256, w: set<B256>, v: Body)
    requires Held(l, h, w, v)
    ensures h in l.vals && l.vals[h] == v
  {
  }

  /** A hash the cache must not hold yet, at its turn: first request of a missing hash, or one past the reply. */
  lemma MissIsNewOrPast(request: seq<B256>, m: set<B256>, orig: map<B256, Body>, fetched: seq<Body>, i: nat)
    requires i < |request| && (request[i] !in m ==> request[i] in orig)
    requires Want(request, m, orig, fetched, i)(request[i]) == None
    ensures request[i] in m
    ensures request[i] in request[..i] ==> Rank(request, m, request[i]) >= |fetched|
  {
  }

  /** A miss at s.i takes the next body of the reply exactly when its answer is that body. */
  lemma MissUsesReply(job: Job, orig: map<B256, Body>, s: Machine)
    requires s.i < |job.request|
    requires var h, m := job.request[s.i], Elems(s.missing);
             && (h !in m ==> h in orig)
             && Want(job.request, m, orig, s.fetched, s.i)(h) == None
             && s.next == Used(job.request, m, s.fetched, s.i)
    ensures var h, m := job.request[s.i], Elems(s.missing);
            if s.next < |s.fetched|
            then h in m && h !in job.request[..s.i]
                 && Answer(job.request, m, orig, s.fetched, h) == Some(s.fetched[s.next])
                 && Used(job.request, m, s.fetched, s.i + 1) == s.next + 1
            else Answer(job.request, m, orig, s.fetched, h) == None
                 && Used(job.request, m, s.fetched, s.i + 1) == s.next
  {
    var m := Elems(s.missing);
    MissIsNewOrPast(job.request, m, orig, s.fetched, s.i);
    UsedStep(job.request, m, s.fetched, s.i);
    hide Rank, Want, Elems;
  }

  lemma MergeMiss(job: Job, w: set<B256>, orig: map<B256, Body>, s: Machine)
    requires Inv(job, w, orig, s) && s.phase.Merging? && s.i < |job.request| && job.request[s.i] !in s.bodies.vals
    ensures MergeInv(job, w, orig, Handler(job, s))
  {
    hide Answer, Want, Used, Held, Keep, Gather;
    var h, m := job.request[s.i], Elems(s.missing);
    var want, want2 := Want(job.request, m, orig, s.fetched, s.i), Want(job.request, m, orig, s.fetched, s.i + 1);
    if want(h).Some? {
      HeldValue(s.bodies, h, w, want(h).value);
    }
    MissUsesReply(job, orig, s);
    if s.next >= |s.fetched| {
      WantStep(job.request, m, orig, s.fetched, s.i);
      GatherStep(job.request, s.i, AnswerOf(job.request, m, orig, s.fetched));
      ServesSame(s.bodies, job.request, w, want, want2);
    }
  }

  /** The merge takes a body of the reply exactly at the first request of a missing hash, while any is left, and it
      takes the one at the rank of the hash among the missing ones. */
  lemma MergeTakesFirsts(job: Job, w: set<B256>, orig: map<B256, Body>, s: Machine)
    requires Inv(job, w, orig, s) && s.phase.Merging? && s.i < |job.request|
    ensures var h, m, t := job.request[s.i], Elems(s.missing), Handler(job, s);
            if h in m && h !in job.request[..s.i] && Rank(job.request, m, h) < |s.fetched|
            then t.phase == Inserting(s.fetched[Rank(job.request, m, h)]) && t.next == s.next + 1
            else t.phase.Merging? && t.next == s.next
  {
    hide Want, Used, Held, Keep, Gather, Rank;
    var h, m := job.request[s.i], Elems(s.missing);
    var want := Want(job.request, m, orig, s.fetched, s.i);
    WantStep(job.request, m, orig, s.fetched, s.i);
    if h in s.bodies.vals {
      ServedHit(s.bodies, job.request, w, want, h);
    } else {
      if want(h).Some? {
        HeldValue(s.bodies, h, w, want(h).value);
      }
      MissUsesReply(job, orig, s);
    }
  }

  lemma MergeInsert(job: Job, w: set<B256>, orig: map<B256, Body>, s: Machine)
    requires Inv(job, w, orig, s) && s.phase.Inserting?
    ensures MergeInv(job, w, orig, Handler(job, s))
  {
    hide Answer, Want, Used, Held, Keep, Gather;
    var h, m := job.request[s.i], Elems(s.missing);
    var want, want2 := Want(job.request, m, orig, s.fetched, s.i), Want(job.request, m, orig, s.fetched, s.i + 1);
    WantStep(job.request, m, orig, s.fetched, s.i);
    GatherStep(job.request, s.i, AnswerOf(job.request, m, orig, s.fetched));
    ServesInsert(s.bodies, job.request, w, want, want2, h, s.phase.body);
  }

  lemma HandlerKeepsInv(job: Job, w: set<B256>, orig: map<B256, Body>, s: Machine)
    requires Inv(job, w, orig, s)
    ensures Inv(job, w, orig, Handler(job, s))
  {
    if s.phase.Inserting? {
      PushValid(s.bodies, job.request[s.i], s.phase.body);
      MergeInsert(job, w, orig, s);
    } else if !s.phase.Done? {
      if s.i < |job.request| {
        TouchFacts(s.bodies, job.request[s.i]);
        if s.phase.Filtering? {
          FilterStep(job, w, orig, s);
        } else if job.request[s.i] in s.bodies.vals {
          MergeHit(job, w, orig, s);
        } else {
          MergeMiss(job, w, orig, s);
        }
      } else if s.phase.Filtering? {
        FilterEnd(job, w, orig, s);
      } else {
        MergeEnd(job, w, orig, s);
      }
    }
  }

  lemma MergeEnd(job: Job, w: set<B256>, orig: map<B256, Body>, s: Machine)
    requires Inv(job, w, orig, s) && s.phase.Merging? && s.i == |job.request|
    ensures Inv(job, w, orig, Handler(job, s))
  {
    var m := Elems(s.missing);
    assert job.request[..s.i] == job.request;
    ServesSame(s.bodies, job.request, w, Want(job.request, m, orig, s.fetched, s.i),
               AnswerOf(job.request, m, orig, s.fetched));
  }

  // ---------- main results ----------

  lemma StartInv(job: Job, w: set<B256>, b: Bodies)
    requires b.Valid() && |w| <= b.cap && Elems(job.request) <= w
    ensures Inv(job, w, b.vals, Start(b))
  {
  }

  lemma {:induction false} RunKeepsInv(job: Job, w: set<B256>, orig: map<B256, Body>, s: Machine, steps: seq<Step>)
    requires Inv(job, w, orig, s)
    requires Imported(steps) <= w && Imported(steps) !! Elems(job.request)
    ensures Inv(job, w, orig, Run(job, s, steps))
  {
    if steps != [] {
      var g, step := steps[..|steps| - 1], steps[|steps| - 1];
      assert step in steps && forall x :: x in g ==> x in steps;
      RunKeepsInv(job, w, orig, s, g);
      var t := Run(job, s, g);
      match step
      case Handle => HandlerKeepsInv(job, w, orig, t);
      case Import(k, x) =>
        assert k in Imported(steps);
        ImportKeepsInv(job, w, orig, t, k, x);
    }
  }
}
