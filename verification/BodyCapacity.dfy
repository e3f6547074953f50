/** Exactly when the cache is large enough for a merge of pairwise distinct hashes to be aligned. */
module BodyCapacity {
  import opened Recency
  import opened LruMap
  import opened Types
  import opened BodyMerge
  import opened BodyAlignment
  import opened BodyRequests

  /** One request whose fetch succeeded with an honest, possibly short, reply. */
  ghost predicate FetchedHonest(job: Job, b: Bodies, fetched: seq<Body>, truth: B256 -> Body) {
    && b.Valid() && Correct(b, truth)
    && Missing(job.request, b) != [] && job.peer(Missing(job.request, b)) == Some(fetched)
    && PrefixReply(fetched, Missing(job.request, b), truth)
  }

  /** The same for pairwise distinct hashes. */
  ghost predicate FetchedDistinct(job: Job, b: Bodies, fetched: seq<Body>, truth: B256 -> Body) {
    FetchedHonest(job, b, fetched, truth) && NoDup(job.request)
  }

  /** The requested hashes that were cached. */
  function Hits(request: seq<B256>, m: set<B256>): set<B256> {
    Elems(request) - m
  }

  /** At every cached hash of the request, the cached requested hashes and the fetched bodies inserted before
      it fit in the cache together. */
  ghost predicate Fits(request: seq<B256>, m: set<B256>, fetched: seq<Body>, cap: nat) {
    forall p :: 0 <= p < |request| && request[p] !in m ==> FitsAt(request, m, fetched, cap, p)
  }

  ghost predicate FitsAt(request: seq<B256>, m: set<B256>, fetched: seq<Body>, cap: nat, p: nat)
    requires p <= |request|
  {
    |Hits(request, m)| + Used(request, m, fetched, p) <= cap
  }

  /** The missing hashes inserted before position q. */
  function Inserted(request: seq<B256>, m: set<B256>, fetched: seq<Body>, q: nat): set<B256>
    requires q <= |request|
  {
    Elems(Take(Firsts(request[..q], m), |fetched|))
  }

  /** The working set of a hit at position q. */
  function Room(request: seq<B256>, m: set<B256>, fetched: seq<Body>, q: nat): set<B256>
    requires q <= |request|
  {
    Hits(request, m) + Inserted(request, m, fetched, q)
  }

  lemma InsertedSize(request: seq<B256>, m: set<B256>, fetched: seq<Body>, q: nat)
    requires q <= |request|
    ensures |Inserted(request, m, fetched, q)| == Used(request, m, fetched, q)
    ensures Inserted(request, m, fetched, q) <= m
  {
    FirstsFacts(request[..q], m);
    var f := Firsts(request[..q], m);
    assert Elems(f) <= m;
    SizeOfElems(Take(f, |fetched|));
  }

  lemma RoomSize(request: seq<B256>, m: set<B256>, fetched: seq<Body>, q: nat)
    requires q <= |request|
    ensures |Room(request, m, fetched, q)| == |Hits(request, m)| + Used(request, m, fetched, q)
  {
    InsertedSize(request, m, fetched, q);
    assert Hits(request, m) !! Inserted(request, m, fetched, q);
  }

  /** Position q inserts its hash exactly when the hash is missing, new, and the reply is not used up. */
  lemma InsertedStep(request: seq<B256>, m: set<B256>, fetched: seq<Body>, q: nat)
    requires q < |request|
    ensures var h := request[q];
            Inserted(request, m, fetched, q + 1) ==
              if h in m && h !in request[..q] && |Elems(request[..q]) * m| < |fetched|
              then Inserted(request, m, fetched, q) + {h} else Inserted(request, m, fetched, q)
  {
    PrefixStep(request, q);
    FirstsFacts(request[..q], m);
    var f, g, n := Firsts(request[..q], m), Firsts(request[..q + 1], m), |fetched|;
    var h := request[q];
    if h in m && h !in request[..q] {
      assert g == f + [h];
      if |f| < n {
        assert Take(f, n) == f && Take(g, n) == f + [h];
        ElemsAppend(f, h, m);
      } else {
        assert Take(g, n) == Take(f, n);
      }
    } else {
      assert g == f;
    }
  }

  lemma {:induction false} InsertedGrows(request: seq<B256>, m: set<B256>, fetched: seq<Body>, i: nat, q: nat)
    requires i <= q <= |request|
    ensures Inserted(request, m, fetched, i) <= Inserted(request, m, fetched, q)
  {
    hide Inserted;
    if i < q {
      InsertedGrows(request, m, fetched, i, q - 1);
      InsertedStep(request, m, fetched, q - 1);
    }
  }

  // ---------- the filter pass, exactly ----------

  /** The hits among positions [i, j). */
  function HitsIn(request: seq<B256>, m: set<B256>, i: nat, j: nat): set<B256>
    requires i <= j <= |request|
  {
    Elems(request[i..j]) - m
  }

  lemma HitsInStep(request: seq<B256>, m: set<B256>, i: nat, j: nat)
    requires i <= j < |request|
    ensures HitsIn(request, m, i, j + 1)
            == if request[j] in m then HitsIn(request, m, i, j) else HitsIn(request, m, i, j) + {request[j]}
  {
    assert request[i..j + 1] == request[i..j] + [request[j]];
  }

  /** After i hashes are filtered, a hit at q < i has above it at most the hits and at least those after it. */
  ghost predicate FilteredExactly(request: seq<B256>, m: set<B256>, orig: map<B256, Body>, l: Bodies, i: nat, q: nat)
    requires q < i <= |request|
  {
    && request[q] in orig
    && Held(l, request[q], Hits(request, m), orig[request[q]])
    && HitsIn(request, m, q + 1, i) <= Above(l.order, request[q])
  }

  lemma FilteredExactlyStep(request: seq<B256>, m: set<B256>, orig: map<B256, Body>, l: Bodies, i: nat, q: nat)
    requires q < i < |request| && l.Valid() && NoDup(request)
    requires request[i] in l.vals <==> request[i] !in m
    requires FilteredExactly(request, m, orig, l, i, q)
    ensures FilteredExactly(request, m, orig, l.Touch(request[i]), i + 1, q)
  {
    var k, h := request[i], request[q];
    HitsInStep(request, m, q + 1, i);
    if k !in m {
      assert k in Elems(request);
      HeldTouch(l, h, Hits(request, m), orig[h], k);
      TouchAbove(l, k, h);
    }
  }

  lemma FilteredExactlyStart(request: seq<B256>, m: set<B256>, orig: map<B256, Body>, l: Bodies, q: nat)
    requires q < |request| && l.Valid() && request[q] in l.vals && request[q] in orig
             && l.vals[request[q]] == orig[request[q]]
    ensures FilteredExactly(request, m, orig, l.Touch(request[q]), q + 1, q)
  {
    TouchHeld(l, request[q], Hits(request, m));
    assert request[q + 1..q + 1] == [];
  }

  lemma FilteredTouch(job: Job, b: Bodies, i: nat)
    requires b.Valid() && 1 <= i <= |job.request|
    ensures Filtered(job, b, i).bodies == Filtered(job, b, i - 1).bodies.Touch(job.request[i - 1])
  {
    FilterAlone(job, b, i - 1);
  }

  lemma {:induction false} FilterExact(job: Job, b: Bodies, m: set<B256>, i: nat, q: nat)
    requires b.Valid() && NoDup(job.request) && q < i <= |job.request| && job.request[q] !in m
    requires m == Elems(job.request) - b.vals.Keys
    ensures FilteredExactly(job.request, m, b.vals, Filtered(job, b, i).bodies, i, q)
  {
    hide FilteredExactly, NoDup, Filtered;
    FilteredTouch(job, b, i);
    var l := Filtered(job, b, i - 1).bodies;
    FilterAlone(job, b, i - 1);
    assert job.request[i - 1] in Elems(job.request) && job.request[q] in Elems(job.request);
    if q == i - 1 {
      FilteredExactlyStart(job.request, m, b.vals, l, q);
    } else {
      FilterExact(job, b, m, i - 1, q);
      FilteredExactlyStep(job.request, m, b.vals, l, i - 1, q);
    }
  }

  // ---------- the merge, as long as every hit so far fits ----------

  /** The merge stands at i and was right so far; the hits from i up to p are still held. */
  ghost predicate RightSoFar(request: seq<B256>, m: set<B256>, orig: map<B256, Body>, s: Machine, p: nat) {
    && s.phase.Merging? && s.i <= |request| && p <= |request| && s.bodies.Valid()
    && s.next == Used(request, m, s.fetched, s.i)
    && s.out == Gather(request[..s.i], AnswerOf(request, m, orig, s.fetched))
    && (forall j :: s.i <= j < |request| && request[j] in m ==> request[j] !in s.bodies.vals)
    && (forall q :: s.i <= q < p && request[q] !in m ==>
          request[q] in orig && Held(s.bodies, request[q], Room(request, m, s.fetched, q), orig[request[q]]))
  }

  /** One requested hash merged: a hit, a miss answered from the reply and inserted, or a skipped miss. */
  function MergeOne(job: Job, s: Machine): Machine {
    var t := Handler(job, s);
    if t.phase.Inserting? then Handler(job, t) else t
  }

  lemma FinishMergeOne(job: Job, s: Machine)
    requires s.phase.Merging?
    ensures Finish(job, MergeOne(job, s)) == Finish(job, s)
  {
  }

  /** The hits still to come stay held through a touch of a hit or an insert of a missing hash before them. */
  lemma HeldThrough(request: seq<B256>, m: set<B256>, orig: map<B256, Body>, s: Machine, q: nat, k: B256)
    requires s.bodies.Valid() && q < |request| && k != request[q] && request[q] !in m
             && k in Room(request, m, s.fetched, q)
    requires FitsAt(request, m, s.fetched, s.bodies.cap, q)
    requires request[q] in orig && Held(s.bodies, request[q], Room(request, m, s.fetched, q), orig[request[q]])
    ensures Held(s.bodies.Touch(k), request[q], Room(request, m, s.fetched, q), orig[request[q]])
    ensures forall x :: Held(s.bodies.Push(k, x), request[q], Room(request, m, s.fetched, q), orig[request[q]])
  {
    var w := Room(request, m, s.fetched, q);
    RoomSize(request, m, s.fetched, q);
    assert request[q] in Elems(request);
    HeldTouch(s.bodies, request[q], w, orig[request[q]], k);
    forall x ensures Held(s.bodies.Push(k, x), request[q], w, orig[request[q]]) {
      HeldPush(s.bodies, request[q], w, orig[request[q]], k, x);
    }
  }

  lemma RankWhenDistinct(request: seq<B256>, m: set<B256>, i: nat)
    requires NoDup(request) && i < |request| && request[i] in m
    ensures request[i] !in request[..i] && Rank(request, m, request[i]) == |Elems(request[..i]) * m|
  {
    FirstAtPrefix(request, i, request[i]);
  }

  /** What MergeOne leaves alone. */
  ghost predicate OneMerged(s: Machine, t: Machine) {
    t.i == s.i + 1 && t.missing == s.missing && t.fetched == s.fetched && t.bodies.cap == s.bodies.cap
  }

  lemma MergeOneHit(job: Job, s: Machine)
    requires s.phase.Merging? && s.i < |job.request| && job.request[s.i] in s.bodies.vals && s.bodies.Valid()
    ensures var k, t := job.request[s.i], MergeOne(job, s);
            && OneMerged(s, t)
            && t == s.(bodies := s.bodies.Touch(k), i := s.i + 1, out := s.out + [s.bodies.vals[k]])
  {
    TouchFacts(s.bodies, job.request[s.i]);
  }

  lemma MergeOneMiss(job: Job, s: Machine)
    requires s.phase.Merging? && s.i < |job.request| && job.request[s.i] !in s.bodies.vals && s.bodies.Valid()
    ensures var k, t := job.request[s.i], MergeOne(job, s);
            && OneMerged(s, t)
            && t == if s.next < |s.fetched|
                    then s.(bodies := s.bodies.Push(k, s.fetched[s.next]), i := s.i + 1, next := s.next + 1,
                            out := s.out + [s.fetched[s.next]])
                    else s.(i := s.i + 1)
  {
  }

  lemma RightHit(job: Job, m: set<B256>, orig: map<B256, Body>, s: Machine, p: nat)
    requires NoDup(job.request) && s.i < p && RightSoFar(job.request, m, orig, s, p) && job.request[s.i] !in m
    requires forall q :: 0 <= q < p && job.request[q] !in m ==> FitsAt(job.request, m, s.fetched, s.bodies.cap, q)
    ensures job.request[s.i] in s.bodies.vals
    ensures OneMerged(s, MergeOne(job, s)) && RightSoFar(job.request, m, orig, MergeOne(job, s), p)
  {
    var k, t := job.request[s.i], MergeOne(job, s);
    hide Held, Used, Answer, Room, FitsAt, MergeOne;
    assert k in orig && Held(s.bodies, k, Room(job.request, m, s.fetched, s.i), orig[k]);
    HeldValue(s.bodies, k, Room(job.request, m, s.fetched, s.i), orig[k]);
    MergeOneHit(job, s);
    TouchFacts(s.bodies, k);
    UsedStep(job.request, m, s.fetched, s.i);
    GatherStep(job.request, s.i, AnswerOf(job.request, m, orig, s.fetched));
    HitAnswer(job.request, m, orig, s.fetched, k);
    HeldAfterHit(job, m, orig, s, p);
  }

  /** Every hit still to come before p stays held when the hit at s.i is touched. */
  lemma HeldAfterHit(job: Job, m: set<B256>, orig: map<B256, Body>, s: Machine, p: nat)
    requires NoDup(job.request) && s.i < p && RightSoFar(job.request, m, orig, s, p) && job.request[s.i] !in m
    requires forall q :: 0 <= q < p && job.request[q] !in m ==> FitsAt(job.request, m, s.fetched, s.bodies.cap, q)
    ensures forall q :: s.i < q < p && job.request[q] !in m ==>
              job.request[q] in orig
              && Held(s.bodies.Touch(job.request[s.i]), job.request[q], Room(job.request, m, s.fetched, q),
                      orig[job.request[q]])
  {
    var k := job.request[s.i];
    hide Held, Used, Answer, AnswerOf, Gather, Room, FitsAt;
    forall q | s.i < q < p && job.request[q] !in m
      ensures job.request[q] in orig
      ensures Held(s.bodies.Touch(k), job.request[q], Room(job.request, m, s.fetched, q), orig[job.request[q]])
    {
      HitInRoom(job.request, m, s.fetched, s.i, q);
      HeldThrough(job.request, m, orig, s, q, k);
    }
  }

  lemma HitAnswer(request: seq<B256>, m: set<B256>, orig: map<B256, Body>, fetched: seq<Body>, k: B256)
    requires k !in m && k in orig
    ensures AnswerOf(request, m, orig, fetched)(k) == Some(orig[k])
  {
  }

  lemma HitInRoom(request: seq<B256>, m: set<B256>, fetched: seq<Body>, i: nat, q: nat)
    requires i < |request| && q <= |request| && request[i] !in m
    ensures request[i] in Room(request, m, fetched, q)
  {
    assert request[i] in Elems(request);
  }

  lemma InsertInRoom(request: seq<B256>, m: set<B256>, fetched: seq<Body>, i: nat, q: nat)
    requires NoDup(request) && i < q <= |request| && request[i] in m && |Elems(request[..i]) * m| < |fetched|
    ensures request[i] in Room(request, m, fetched, q)
  {
    RankWhenDistinct(request, m, i);
    InsertedStep(request, m, fetched, i);
    InsertedGrows(request, m, fetched, i + 1, q);
  }

  /** What a missing hash at position s.i meets: the next unused body of the reply, if any is left. */
  lemma MissMeets(request: seq<B256>, m: set<B256>, orig: map<B256, Body>, s: Machine)
    requires NoDup(request) && s.i < |request| && request[s.i] in m && s.next == Used(request, m, s.fetched, s.i)
    ensures s.next <= |s.fetched|
    ensures s.next < |s.fetched| <==> |Elems(request[..s.i]) * m| < |s.fetched|
    ensures AnswerOf(request, m, orig, s.fetched)(request[s.i])
            == (if s.next < |s.fetched| then Some(s.fetched[s.next]) else None)
    ensures Used(request, m, s.fetched, s.i + 1) == (if s.next < |s.fetched| then s.next + 1 else s.next)
  {
    var r := |Elems(request[..s.i]) * m|;
    RankWhenDistinct(request, m, s.i);
    UsedStep(request, m, s.fetched, s.i);
    hide Rank, NoDup, Elems;
    assert Rank(request, m, request[s.i]) == r;
  }

  lemma RightInsert(job: Job, m: set<B256>, orig: map<B256, Body>, s: Machine, t: Machine, p: nat)
    requires NoDup(job.request) && s.i < p && RightSoFar(job.request, m, orig, s, p) && job.request[s.i] in m
    requires forall q :: 0 <= q < p && job.request[q] !in m ==> FitsAt(job.request, m, s.fetched, s.bodies.cap, q)
    requires s.next < |s.fetched|
    requires t == s.(bodies := s.bodies.Push(job.request[s.i], s.fetched[s.next]), i := s.i + 1, next := s.next + 1,
                     out := s.out + [s.fetched[s.next]])
    ensures RightSoFar(job.request, m, orig, t, p)
  {
    var k, x := job.request[s.i], s.fetched[s.next];
    hide Held, Used, Answer, AnswerOf, Room, FitsAt;
    MissMeets(job.request, m, orig, s);
    GatherStep(job.request, s.i, AnswerOf(job.request, m, orig, s.fetched));
    PushValid(s.bodies, k, x);
    forall j | t.i <= j < |job.request| && job.request[j] in m ensures job.request[j] !in t.bodies.vals {
      AbsentPush(s.bodies, job.request[j], k, x);
    }
    HeldAfterInsert(job, m, orig, s, p, x);
  }

  /** Every hit still to come before p stays held when the missing hash at s.i is inserted. */
  lemma HeldAfterInsert(job: Job, m: set<B256>, orig: map<B256, Body>, s: Machine, p: nat, x: Body)
    requires NoDup(job.request) && s.i < p && RightSoFar(job.request, m, orig, s, p) && job.request[s.i] in m
    requires forall q :: 0 <= q < p && job.request[q] !in m ==> FitsAt(job.request, m, s.fetched, s.bodies.cap, q)
    requires s.next < |s.fetched|
    ensures forall q :: s.i < q < p && job.request[q] !in m ==>
              job.request[q] in orig
              && Held(s.bodies.Push(job.request[s.i], x), job.request[q], Room(job.request, m, s.fetched, q),
                      orig[job.request[q]])
  {
    var k := job.request[s.i];
    MissMeets(job.request, m, orig, s);
    hide Held, Used, Answer, AnswerOf, Gather, Room, FitsAt;
    forall q | s.i < q < p && job.request[q] !in m
      ensures job.request[q] in orig
      ensures Held(s.bodies.Push(k, x), job.request[q], Room(job.request, m, s.fetched, q), orig[job.request[q]])
    {
      InsertInRoom(job.request, m, s.fetched, s.i, q);
      HeldThrough(job.request, m, orig, s, q, k);
    }
  }

  lemma RightMiss(job: Job, m: set<B256>, orig: map<B256, Body>, s: Machine, p: nat)
    requires NoDup(job.request) && s.i < p && RightSoFar(job.request, m, orig, s, p) && job.request[s.i] in m
    requires forall q :: 0 <= q < p && job.request[q] !in m ==> FitsAt(job.request, m, s.fetched, s.bodies.cap, q)
    ensures job.request[s.i] !in s.bodies.vals
    ensures OneMerged(s, MergeOne(job, s)) && RightSoFar(job.request, m, orig, MergeOne(job, s), p)
  {
    hide Held, Used, Answer, AnswerOf, Room, FitsAt, MergeOne;
    MergeOneMiss(job, s);
    if s.next < |s.fetched| {
      RightInsert(job, m, orig, s, MergeOne(job, s), p);
    } else {
      MissMeets(job.request, m, orig, s);
      GatherStep(job.request, s.i, AnswerOf(job.request, m, orig, s.fetched));
    }
  }

  /** Every hit before p fits. */
  ghost predicate FitsBefore(request: seq<B256>, m: set<B256>, fetched: seq<Body>, cap: nat, p: nat)
    requires p <= |request|
  {
    forall q :: 0 <= q < p && request[q] !in m ==> FitsAt(request, m, fetched, cap, q)
  }

  lemma RightOne(job: Job, m: set<B256>, orig: map<B256, Body>, s: Machine, p: nat)
    requires NoDup(job.request) && p <= |job.request| && FitsBefore(job.request, m, s.fetched, s.bodies.cap, p)
    requires s.i < p && RightSoFar(job.request, m, orig, s, p)
    ensures OneMerged(s, MergeOne(job, s)) && RightSoFar(job.request, m, orig, MergeOne(job, s), p)
    ensures Finish(job, MergeOne(job, s)) == Finish(job, s)
  {
    FinishMergeOne(job, s);
    hide RightSoFar, FitsAt, Finish, MergeOne, NoDup, OneMerged;
    if job.request[s.i] in m {
      RightMiss(job, m, orig, s, p);
    } else {
      RightHit(job, m, orig, s, p);
    }
  }

  function MergeMany(job: Job, s: Machine, n: nat): Machine {
    if n == 0 then s else MergeOne(job, MergeMany(job, s, n - 1))
  }

  lemma {:induction false} MergeManyRight(job: Job, m: set<B256>, orig: map<B256, Body>, s: Machine, p: nat, n: nat)
    requires NoDup(job.request) && n <= p <= |job.request| && FitsBefore(job.request, m, s.fetched, s.bodies.cap, p)
    requires s.i == 0 && RightSoFar(job.request, m, orig, s, p)
    ensures var t := MergeMany(job, s, n);
            && t.i == n && t.missing == s.missing && t.fetched == s.fetched && t.bodies.cap == s.bodies.cap
            && RightSoFar(job.request, m, orig, t, p)
            && Finish(job, t) == Finish(job, s)
  {
    hide RightSoFar, FitsBefore, Finish, MergeOne, NoDup;
    if n > 0 {
      MergeManyRight(job, m, orig, s, p, n - 1);
      RightOne(job, m, orig, MergeMany(job, s, n - 1), p);
    }
  }

  // ---------- from the filter pass to the merge ----------

  /** The merge as it begins. */
  function MergeStart(job: Job, b: Bodies): Machine {
    Handler(job, Filtered(job, b, |job.request|))
  }

  lemma MergeStartForm(job: Job, b: Bodies, fetched: seq<Body>, truth: B256 -> Body)
    requires FetchedHonest(job, b, fetched, truth)
    ensures var s := MergeStart(job, b);
            && s == Machine(s.bodies, Merging, 0, Missing(job.request, b), fetched, 0, [])
            && s.bodies == Filtered(job, b, |job.request|).bodies
            && s.bodies.Valid() && s.bodies.cap == b.cap && s.bodies.vals == b.vals
            && Finish(job, s) == Finish(job, Start(b))
  {
    var n := |job.request|;
    FilterAlone(job, b, n);
    FinishFiltered(job, b, n);
    assert job.request[..n] == job.request;
  }

  lemma HeldWiden(l: Bodies, h: B256, w: set<B256>, w2: set<B256>, v: Body)
    requires Held(l, h, w, v) && w <= w2
    ensures Held(l, h, w2, v)
  {
  }

  /** A hit comes out of the filter pass held among the hits alone. */
  lemma HeldAtStart(job: Job, b: Bodies, fetched: seq<Body>, truth: B256 -> Body, q: nat)
    requires FetchedDistinct(job, b, fetched, truth) && q < |job.request|
    requires job.request[q] !in Elems(Missing(job.request, b))
    ensures var m := Elems(Missing(job.request, b));
            && job.request[q] in b.vals
            && Held(MergeStart(job, b).bodies, job.request[q], Room(job.request, m, fetched, q), b.vals[job.request[q]])
            && HitsIn(job.request, m, q + 1, |job.request|) <= Above(MergeStart(job, b).bodies.order, job.request[q])
  {
    var m := Elems(Missing(job.request, b));
    MissingFacts(job.request, b);
    MergeStartForm(job, b, fetched, truth);
    FilterExact(job, b, m, |job.request|, q);
    hide Held, Missing, Filtered, MergeStart, HitsIn, Above, Inserted, Hits;
    HeldWiden(MergeStart(job, b).bodies, job.request[q], Hits(job.request, m), Room(job.request, m, fetched, q),
              b.vals[job.request[q]]);
  }

  lemma RightAtZero(request: seq<B256>, m: set<B256>, orig: map<B256, Body>, s: Machine, p: nat)
    requires s.phase.Merging? && s.i == 0 && s.next == 0 && s.out == [] && s.bodies.Valid() && p <= |request|
    requires m !! s.bodies.vals.Keys
    requires forall q :: 0 <= q < p && request[q] !in m ==>
               request[q] in orig && Held(s.bodies, request[q], Room(request, m, s.fetched, q), orig[request[q]])
    ensures RightSoFar(request, m, orig, s, p)
  {
    assert Elems(request[..0]) * m == {};
  }

  lemma MergeStartRight(job: Job, b: Bodies, fetched: seq<Body>, truth: B256 -> Body, p: nat)
    requires FetchedDistinct(job, b, fetched, truth) && p <= |job.request|
    ensures RightSoFar(job.request, Elems(Missing(job.request, b)), b.vals, MergeStart(job, b), p)
  {
    var m, s := Elems(Missing(job.request, b)), MergeStart(job, b);
    MergeStartForm(job, b, fetched, truth);
    MissingFacts(job.request, b);
    assert m !! s.bodies.vals.Keys;
    hide Held, Room, Missing, Filtered, MergeStart, FetchedDistinct, RightSoFar, Elems, Finish;
    forall q | 0 <= q < p && job.request[q] !in m
      ensures job.request[q] in b.vals
      ensures Held(s.bodies, job.request[q], Room(job.request, m, fetched, q), b.vals[job.request[q]])
    {
      HeldAtStart(job, b, fetched, truth, q);
    }
    RightAtZero(job.request, m, b.vals, s, p);
  }

  /** Position of a hit that is already evicted, or above which lie all other hits and the inserted hashes. */
  ghost predicate Lower(request: seq<B256>, m: set<B256>, fetched: seq<Body>, l: Bodies, i: nat, p: nat)
    requires i <= p < |request|
  {
    request[p] in l.vals ==>
      HitsIn(request, m, p + 1, |request|) + HitsIn(request, m, 0, i) + Inserted(request, m, fetched, i)
        <= Above(l.order, request[p])
  }

  lemma LowerHit(request: seq<B256>, m: set<B256>, fetched: seq<Body>, l: Bodies, i: nat, p: nat)
    requires NoDup(request) && i < p < |request| && l.Valid() && request[i] !in m && request[i] in l.vals
    requires Lower(request, m, fetched, l, i, p)
    ensures Lower(request, m, fetched, l.Touch(request[i]), i + 1, p)
  {
    TouchFacts(l, request[i]);
    TouchAbove(l, request[i], request[p]);
    HitsInStep(request, m, 0, i);
    InsertedStep(request, m, fetched, i);
  }

  lemma LowerInsert(request: seq<B256>, m: set<B256>, fetched: seq<Body>, l: Bodies, i: nat, p: nat, x: Body)
    requires NoDup(request) && i < p < |request| && l.Valid() && request[i] in m
    requires Lower(request, m, fetched, l, i, p)
    ensures Lower(request, m, fetched, l.Push(request[i], x), i + 1, p)
  {
    PushOther(l, request[i], x, request[p]);
    HitsInStep(request, m, 0, i);
    InsertedStep(request, m, fetched, i);
  }

  lemma LowerSkip(request: seq<B256>, m: set<B256>, fetched: seq<Body>, l: Bodies, i: nat, p: nat)
    requires i < p < |request| && request[i] in m && |Elems(request[..i]) * m| >= |fetched|
    requires Lower(request, m, fetched, l, i, p)
    ensures Lower(request, m, fetched, l, i + 1, p)
  {
    HitsInStep(request, m, 0, i);
    InsertedStep(request, m, fetched, i);
  }

  lemma LowerStart(job: Job, b: Bodies, fetched: seq<Body>, truth: B256 -> Body, p: nat)
    requires FetchedDistinct(job, b, fetched, truth) && p < |job.request|
    requires job.request[p] !in Elems(Missing(job.request, b))
    ensures Lower(job.request, Elems(Missing(job.request, b)), fetched, MergeStart(job, b).bodies, 0, p)
  {
    var m := Elems(Missing(job.request, b));
    assert job.request[..0] == [] && job.request[0..0] == [];
    assert Inserted(job.request, m, fetched, 0) == {} && HitsIn(job.request, m, 0, 0) == {};
    hide Held, Room, Missing, MergeStart, Above, HitsIn, Inserted;
    HeldAtStart(job, b, fetched, truth, p);
  }

  lemma LowerOne(job: Job, m: set<B256>, orig: map<B256, Body>, t: Machine, p: nat)
    requires NoDup(job.request) && p < |job.request| && FitsBefore(job.request, m, t.fetched, t.bodies.cap, p)
    requires t.i < p && RightSoFar(job.request, m, orig, t, p)
    requires Lower(job.request, m, t.fetched, t.bodies, t.i, p)
    ensures Lower(job.request, m, t.fetched, MergeOne(job, t).bodies, t.i + 1, p)
  {
    hide FitsAt, MergeOne, NoDup, Lower, Used, AnswerOf, Gather, Room, Held;
    if job.request[t.i] in m {
      MergeOneMiss(job, t);
      MissMeets(job.request, m, orig, t);
      if t.next < |t.fetched| {
        LowerInsert(job.request, m, t.fetched, t.bodies, t.i, p, t.fetched[t.next]);
      } else {
        LowerSkip(job.request, m, t.fetched, t.bodies, t.i, p);
      }
    } else {
      RightHit(job, m, orig, t, p);
      MergeOneHit(job, t);
      LowerHit(job.request, m, t.fetched, t.bodies, t.i, p);
    }
  }

  lemma {:induction false} MergeManyLower(job: Job, m: set<B256>, orig: map<B256, Body>, s: Machine, p: nat, n: nat)
    requires NoDup(job.request) && n <= p < |job.request| && FitsBefore(job.request, m, s.fetched, s.bodies.cap, p)
    requires s.i == 0 && RightSoFar(job.request, m, orig, s, p)
    requires Lower(job.request, m, s.fetched, s.bodies, 0, p)
    ensures Lower(job.request, m, s.fetched, MergeMany(job, s, n).bodies, n, p)
  {
    hide RightSoFar, FitsBefore, MergeOne, NoDup, Lower;
    if n > 0 {
      MergeManyLower(job, m, orig, s, p, n - 1);
      MergeManyRight(job, m, orig, s, p, n - 1);
      LowerOne(job, m, orig, MergeMany(job, s, n - 1), p);
    }
  }

  lemma AllOtherHits(request: seq<B256>, m: set<B256>, p: nat)
    requires NoDup(request) && p < |request| && request[p] !in m
    ensures HitsIn(request, m, p + 1, |request|) + HitsIn(request, m, 0, p) == Hits(request, m) - {request[p]}
  {
    assert request == request[0..p] + [request[p]] + request[p + 1..|request|];
    forall x ensures x in request[0..p] || x in request[p + 1..|request|] <==> x in request && x != request[p] {
    }
  }

  /** A hit that does not fit has been evicted when its turn comes. */
  lemma EvictedWhenTooMany(request: seq<B256>, m: set<B256>, fetched: seq<Body>, l: Bodies, p: nat)
    requires NoDup(request) && p < |request| && request[p] !in m && l.Valid()
    requires Lower(request, m, fetched, l, p, p) && !FitsAt(request, m, fetched, l.cap, p)
    ensures request[p] !in l.vals
  {
    if request[p] in l.vals {
      var h, ins := request[p], Inserted(request, m, fetched, p);
      AllOtherHits(request, m, p);
      InsertedSize(request, m, fetched, p);
      assert h in Elems(request);
      var low := (Hits(request, m) - {h}) + ins;
      assert |low| == |Hits(request, m)| - 1 + |ins| by {
        assert (Hits(request, m) - {h}) !! ins;
      }
      AboveIn(l.order, h);
      assert h in Elems(l.order);
      ElemsSize(l.order);
      SubsetCard(Above(l.order, h), Elems(l.order) - {h});
      SubsetCard(low, Above(l.order, h));
    }
  }

  // ---------- the merge past an evicted hit ----------

  lemma {:induction false} OutGrows(job: Job, s: Machine)
    requires !s.phase.Filtering?
    ensures s.out <= Finish(job, s).out
    decreases Measure(job, s)
  {
    if !s.phase.Done? {
      HandlerProgress(job, s);
      OutGrows(job, Handler(job, s));
    }
  }

  lemma GatherConcat<V>(a: seq<B256>, c: seq<B256>, f: B256 -> Option<V>)
    ensures Gather(a + c, f) == Gather(a, f) + Gather(c, f)
    decreases |c|
  {
    if c == [] {
      assert a + c == a;
    } else {
      var g, l := c[..|c| - 1], c[|c| - 1];
      assert a + c == (a + g) + [l];
      assert (a + c)[..|a + c| - 1] == a + g;
      GatherConcat(a, g, f);
    }
  }

  lemma GatherHead<V>(keys: seq<B256>, i: nat, f: B256 -> Option<V>)
    requires i < |keys|
    ensures Gather(keys[i..], f) == (match f(keys[i]) case None => [] case Some(v) => [v]) + Gather(keys[i + 1..], f)
  {
    assert keys[i..] == [keys[i]] + keys[i + 1..];
    GatherConcat([keys[i]], keys[i + 1..], f);
    assert [keys[i]][..0] == [];
  }

  /** Once the reply is used up the merge only adds what the cache holds. */
  lemma {:induction false} UsedUpAddsCached(job: Job, s: Machine, cached: B256 -> Option<Body>)
    requires s.phase.Merging? && s.next >= |s.fetched| && s.i <= |job.request| && s.bodies.Valid()
    requires forall h :: cached(h) == s.bodies.Lookup(h)
    ensures Finish(job, s).out == s.out + Gather(job.request[s.i..], cached)
    decreases |job.request| - s.i
  {
    hide Finish, Gather, Handler;
    if s.i == |job.request| {
      UsedUpEnd(job, s, cached);
    } else {
      var t := Handler(job, s);
      FinishStep(job, s, t);
      UsedUpStep(job, s, t, cached);
      UsedUpAddsCached(job, t, cached);
      GatherHead(job.request, s.i, cached);
      var rest := Gather(job.request[s.i + 1..], cached);
      var head := match cached(job.request[s.i]) case None => [] case Some(v) => [v];
      assert s.out + (head + rest) == (s.out + head) + rest;
    }
  }

  lemma UsedUpEnd(job: Job, s: Machine, cached: B256 -> Option<Body>)
    requires s.phase.Merging? && s.i == |job.request|
    ensures Finish(job, s).out == s.out + Gather(job.request[s.i..], cached)
  {
    FinishStep(job, s, s.(phase := Done));
    FinishDone(job, s.(phase := Done));
    assert job.request[s.i..] == [];
    assert s.out + [] == s.out;
  }

  lemma UsedUpStep(job: Job, s: Machine, t: Machine, cached: B256 -> Option<Body>)
    requires forall h :: cached(h) == s.bodies.Lookup(h)
    requires s.phase.Merging? && s.next >= |s.fetched| && s.i < |job.request| && s.bodies.Valid()
             && t == Handler(job, s)
    ensures t.phase.Merging? && t.next == s.next && t.fetched == s.fetched && t.i == s.i + 1
    ensures t.bodies.Valid() && t.bodies.vals == s.bodies.vals
    ensures t.out == s.out + match cached(job.request[s.i]) case None => [] case Some(v) => [v]
  {
    TouchFacts(s.bodies, job.request[s.i]);
  }

  // ---------- main result ----------

  lemma AnswerIsWanted(job: Job, b: Bodies, fetched: seq<Body>, truth: B256 -> Body, keys: seq<B256>)
    requires FetchedDistinct(job, b, fetched, truth) && Elems(keys) <= Elems(job.request)
    ensures var missing := Missing(job.request, b);
            Gather(keys, AnswerOf(job.request, Elems(missing), b.vals, fetched))
            == Gather(keys, Wanted(missing, |fetched|, truth))
  {
    var missing := Missing(job.request, b);
    MissingFacts(job.request, b);
    forall h | h in keys
      ensures AnswerOf(job.request, Elems(missing), b.vals, fetched)(h) == Wanted(missing, |fetched|, truth)(h)
    {
      assert h in Elems(keys);
      DistinctAnswer(job.request, Elems(missing), b.vals, fetched, truth, h);
    }
    GatherSame(keys, AnswerOf(job.request, Elems(missing), b.vals, fetched), Wanted(missing, |fetched|, truth));
  }

  lemma AlignedIfFits(job: Job, b: Bodies, fetched: seq<Body>, truth: B256 -> Body)
    requires FetchedDistinct(job, b, fetched, truth)
    requires Fits(job.request, Elems(Missing(job.request, b)), fetched, b.cap)
    ensures Finish(job, Start(b)).out == AlignedResponse(job.request, Missing(job.request, b), |fetched|, truth)
  {
    var n, m, s := |job.request|, Elems(Missing(job.request, b)), MergeStart(job, b);
    MergeStartForm(job, b, fetched, truth);
    MergeStartRight(job, b, fetched, truth, n);
    AnswerIsWanted(job, b, fetched, truth, job.request);
    assert FitsBefore(job.request, m, fetched, b.cap, n);
    hide Missing, MergeStart, FitsAt, FitsBefore, Fits, Finish, Gather, MergeMany, Used, AnswerOf, Wanted, Room, Held;
    MergeManyRight(job, m, b.vals, s, n, n);
    MergedAll(job, m, b.vals, MergeMany(job, s, n), n);
  }

  lemma MergedAll(job: Job, m: set<B256>, orig: map<B256, Body>, t: Machine, p: nat)
    requires RightSoFar(job.request, m, orig, t, p) && t.i == |job.request|
    ensures Finish(job, t).out == Gather(job.request, AnswerOf(job.request, m, orig, t.fetched))
  {
    assert job.request[..t.i] == job.request;
    hide Gather, AnswerOf, Finish;
    FinishStep(job, t, t.(phase := Done));
    FinishDone(job, t.(phase := Done));
  }

  lemma {:induction false} FirstMisfit(request: seq<B256>, m: set<B256>, fetched: seq<Body>, cap: nat, n: nat)
      returns (p: nat)
    requires n <= |request| && !FitsBefore(request, m, fetched, cap, n)
    ensures p < n && request[p] !in m && !FitsAt(request, m, fetched, cap, p) && FitsBefore(request, m, fetched, cap, p)
  {
    if FitsBefore(request, m, fetched, cap, n - 1) {
      p := n - 1;
    } else {
      p := FirstMisfit(request, m, fetched, cap, n - 1);
    }
  }

  lemma OtherBodyAt(keys: seq<B256>, p: nat, wanted: B256 -> Option<Body>, out: seq<Body>, x: Body)
    requires p < |keys| && Gather(keys[..p], wanted) + [x] <= out
    requires wanted(keys[p]).Some? && wanted(keys[p]).value != x
    ensures out != Gather(keys, wanted)
  {
    GatherStep(keys, p, wanted);
    GatherPrefix(keys, p + 1, wanted);
    var n := |Gather(keys[..p], wanted)|;
    assert out[n] == x;
    assert Gather(keys, wanted)[n] == wanted(keys[p]).value;
  }

  lemma NothingAt(keys: seq<B256>, p: nat, wanted: B256 -> Option<Body>, cached: B256 -> Option<Body>)
    requires p < |keys| && wanted(keys[p]).Some? && cached(keys[p]).None?
    requires forall j :: p <= j < |keys| && cached(keys[j]).Some? ==> wanted(keys[j]).Some?
    ensures Gather(keys[..p], wanted) + Gather(keys[p..], cached) != Gather(keys, wanted)
  {
    var rest := keys[p..];
    assert keys == keys[..p] + rest;
    GatherConcat(keys[..p], rest, wanted);
    forall k | k in rest && cached(k).Some? ensures wanted(k).Some? {
      var j :| 0 <= j < |rest| && rest[j] == k;
      assert keys[p + j] == k;
    }
    assert rest[0] == keys[p];
    GatherLonger(rest, wanted, cached);
  }

  /** The standing of a merge at a hit that was evicted. */
  ghost predicate AtEvicted(job: Job, b: Bodies, fetched: seq<Body>, truth: B256 -> Body, t: Machine, p: nat) {
    var m := Elems(Missing(job.request, b));
    && FetchedDistinct(job, b, fetched, truth) && p < |job.request|
    && job.request[p] !in m && job.request[p] !in t.bodies.vals && t.i == p && t.fetched == fetched
    && RightSoFar(job.request, m, b.vals, t, p)
  }

  lemma EvictedFacts(job: Job, b: Bodies, fetched: seq<Body>, truth: B256 -> Body, t: Machine, p: nat)
    requires AtEvicted(job, b, fetched, truth, t, p)
    ensures var missing := Missing(job.request, b);
            && t.phase.Merging? && t.bodies.Valid()
            && t.out == Gather(job.request[..p], Wanted(missing, |fetched|, truth))
            && Wanted(missing, |fetched|, truth)(job.request[p]) == Some(truth(job.request[p]))
            && (forall j :: 0 <= j < |missing| ==> missing[j] != job.request[p])
            && (forall j :: p <= j < |job.request| && job.request[j] in t.bodies.vals ==> job.request[j] !in missing)
  {
    var missing := Missing(job.request, b);
    assert forall x :: x in missing <==> x in Elems(missing);
    assert forall x :: x in job.request[..p] ==> x in job.request;
    AnswerIsWanted(job, b, fetched, truth, job.request[..p]);
  }

  /** The next body of the reply belongs to a missing hash, not to the evicted one. */
  lemma OtherBody(job: Job, b: Bodies, fetched: seq<Body>, truth: B256 -> Body, t: Machine, p: nat)
    requires AtEvicted(job, b, fetched, truth, t, p) && t.next < |fetched| && InjectiveOn(job.request, truth)
    ensures fetched[t.next] != truth(job.request[p])
  {
    var missing := Missing(job.request, b);
    MissingFacts(job.request, b);
    assert missing[t.next] in Elems(missing);
  }

  /** The reply still has bodies: position p is answered with another hash's body. */
  lemma WrongBody(job: Job, b: Bodies, fetched: seq<Body>, truth: B256 -> Body, t: Machine, p: nat)
    requires AtEvicted(job, b, fetched, truth, t, p) && t.next < |fetched| && InjectiveOn(job.request, truth)
    ensures Finish(job, t).out != AlignedResponse(job.request, Missing(job.request, b), |fetched|, truth)
  {
    EvictedFacts(job, b, fetched, truth, t, p);
    MergeOneMiss(job, t);
    FinishMergeOne(job, t);
    var wanted, x := Wanted(Missing(job.request, b), |fetched|, truth), fetched[t.next];
    OtherBody(job, b, fetched, truth, t, p);
    hide Gather, Finish, Missing, MergeOne, Wanted, RightSoFar;
    OutGrows(job, MergeOne(job, t));
    OtherBodyAt(job.request, p, wanted, Finish(job, t).out, x);
  }

  /** The reply is used up: position p is not answered at all. */
  lemma TooShort(job: Job, b: Bodies, fetched: seq<Body>, truth: B256 -> Body, t: Machine, p: nat)
    requires AtEvicted(job, b, fetched, truth, t, p) && t.next >= |fetched|
    ensures Finish(job, t).out != AlignedResponse(job.request, Missing(job.request, b), |fetched|, truth)
  {
    hide Gather, Finish, Missing, RightSoFar;
    EvictedFacts(job, b, fetched, truth, t, p);
    UsedUpAddsCached(job, t, LookupIn(t.bodies));
    NothingAt(job.request, p, Wanted(Missing(job.request, b), |fetched|, truth), LookupIn(t.bodies));
  }

  /** At the first hit that does not fit, the merge was right so far and the hit is evicted. */
  lemma FirstMisfitEvicted(job: Job, b: Bodies, fetched: seq<Body>, truth: B256 -> Body, p: nat)
    requires FetchedDistinct(job, b, fetched, truth) && p < |job.request|
    requires var m := Elems(Missing(job.request, b));
             && job.request[p] !in m && FitsBefore(job.request, m, fetched, b.cap, p)
             && !FitsAt(job.request, m, fetched, b.cap, p)
    ensures var t := MergeMany(job, MergeStart(job, b), p);
            && AtEvicted(job, b, fetched, truth, t, p)
            && Finish(job, t) == Finish(job, Start(b))
  {
    var m, s := Elems(Missing(job.request, b)), MergeStart(job, b);
    MergeStartForm(job, b, fetched, truth);
    MergeStartRight(job, b, fetched, truth, p);
    LowerStart(job, b, fetched, truth, p);
    hide Missing, MergeStart, FitsAt, Finish, MergeMany, FetchedDistinct, FitsBefore, Lower, RightSoFar;
    DistinctOf(job, b, fetched, truth);
    MergeManyRight(job, m, b.vals, s, p, p);
    MergeManyLower(job, m, b.vals, s, p, p);
    RightIsValid(job.request, m, b.vals, MergeMany(job, s, p), p);
    EvictedWhenTooMany(job.request, m, fetched, MergeMany(job, s, p).bodies, p);
  }

  lemma RightIsValid(request: seq<B256>, m: set<B256>, orig: map<B256, Body>, s: Machine, p: nat)
    requires RightSoFar(request, m, orig, s, p)
    ensures s.bodies.Valid() && s.phase.Merging? && s.i <= |request| && s.next == Used(request, m, s.fetched, s.i)
  {
  }

  lemma FitsIfAligned(job: Job, b: Bodies, fetched: seq<Body>, truth: B256 -> Body)
    requires FetchedDistinct(job, b, fetched, truth) && InjectiveOn(job.request, truth)
    requires !Fits(job.request, Elems(Missing(job.request, b)), fetched, b.cap)
    ensures Finish(job, Start(b)).out != AlignedResponse(job.request, Missing(job.request, b), |fetched|, truth)
  {
    hide Missing, MergeStart, FitsAt, Finish, Gather, MergeMany, FetchedDistinct, AtEvicted, AlignedResponse;
    var p := FirstMisfit(job.request, Elems(Missing(job.request, b)), fetched, b.cap, |job.request|);
    FirstMisfitEvicted(job, b, fetched, truth, p);
    var t := MergeMany(job, MergeStart(job, b), p);
    if t.next < |fetched| {
      WrongBody(job, b, fetched, truth, t, p);
    } else {
      TooShort(job, b, fetched, truth, t, p);
    }
  }

  lemma DistinctOf(job: Job, b: Bodies, fetched: seq<Body>, truth: B256 -> Body)
    requires FetchedDistinct(job, b, fetched, truth)
    ensures NoDup(job.request)
  {
  }

  /** For pairwise distinct hashes and an honest reply, the merge answers the correct body of exactly each hash
      that was cached or covered by the reply, in request order, if and only if at every cached hash of the
      request the cached requested hashes and the fetched bodies inserted before it fit in the cache. */
  lemma AlignedIffFits(job: Job, b: Bodies, fetched: seq<Body>, truth: B256 -> Body)
    requires FetchedDistinct(job, b, fetched, truth) && InjectiveOn(job.request, truth)
    ensures Finish(job, Start(b)).out == AlignedResponse(job.request, Missing(job.request, b), |fetched|, truth)
            <==> Fits(job.request, Elems(Missing(job.request, b)), fetched, b.cap)
  {
    if Fits(job.request, Elems(Missing(job.request, b)), fetched, b.cap) {
      AlignedIfFits(job, b, fetched, truth);
    } else {
      FitsIfAligned(job, b, fetched, truth);
    }
  }

  // ---------- when a wrong body is cached ----------

  /** The step about to be taken caches a wrong body. */
  ghost predicate AboutToCacheWrong(job: Job, s: Machine, truth: B256 -> Body) {
    s.phase.Inserting? && s.i < |job.request| && s.phase.body != truth(job.request[s.i])
  }

  /** Some step of the rest of the run caches a wrong body. */
  ghost predicate CachesWrong(job: Job, s: Machine, truth: B256 -> Body)
    decreases Measure(job, s)
  {
    if s.phase.Done? then false
    else
      HandlerProgress(job, s);
      AboutToCacheWrong(job, s, truth) || CachesWrong(job, Handler(job, s), truth)
  }

  lemma {:induction false} FilterCachesNothing(job: Job, b: Bodies, truth: B256 -> Body, i: nat)
    requires b.Valid() && i <= |job.request|
    ensures CachesWrong(job, Start(b), truth) <==> CachesWrong(job, Filtered(job, b, i), truth)
  {
    if i > 0 {
      FilterAlone(job, b, i - 1);
      FilterCachesNothing(job, b, truth, i - 1);
    }
  }

  /** A merge step caches a wrong body exactly when its hash is absent and the next body of the reply is wrong. */
  lemma CachesWrongOne(job: Job, s: Machine, truth: B256 -> Body)
    requires s.phase.Merging? && s.i < |job.request|
    ensures CachesWrong(job, s, truth) <==>
              || (job.request[s.i] !in s.bodies.vals && s.next < |s.fetched|
                  && s.fetched[s.next] != truth(job.request[s.i]))
              || CachesWrong(job, MergeOne(job, s), truth)
  {
    var t := Handler(job, s);
    assert !t.phase.Done?;
  }

  lemma CachesWrongEnd(job: Job, s: Machine, truth: B256 -> Body)
    requires s.phase.Merging? && s.i >= |job.request|
    ensures !CachesWrong(job, s, truth)
  {
    assert Handler(job, s).phase.Done?;
  }

  /** While the merge is right it caches only right bodies. */
  lemma RightOneCachesRight(job: Job, b: Bodies, fetched: seq<Body>, truth: B256 -> Body, t: Machine, p: nat)
    requires FetchedDistinct(job, b, fetched, truth) && t.i < p && t.fetched == fetched
    requires RightSoFar(job.request, Elems(Missing(job.request, b)), b.vals, t, p)
    ensures CachesWrong(job, t, truth) <==> CachesWrong(job, MergeOne(job, t), truth)
  {
    var m, k := Elems(Missing(job.request, b)), job.request[t.i];
    MissingFacts(job.request, b);
    CachesWrongOne(job, t, truth);
    if k in m {
      MissMeets(job.request, m, b.vals, t);
      DistinctAnswer(job.request, m, b.vals, fetched, truth, k);
      WantedIsTruth(Missing(job.request, b), |fetched|, truth, k);
    } else {
      HeldValue(t.bodies, k, Room(job.request, m, fetched, t.i), b.vals[k]);
    }
  }

  lemma {:induction false} MergeManyCachesRight(job: Job, b: Bodies, fetched: seq<Body>, truth: B256 -> Body,
                                                p: nat, n: nat)
    requires FetchedDistinct(job, b, fetched, truth) && n <= p <= |job.request|
    requires FitsBefore(job.request, Elems(Missing(job.request, b)), fetched, b.cap, p)
    ensures CachesWrong(job, Start(b), truth) <==> CachesWrong(job, MergeMany(job, MergeStart(job, b), n), truth)
  {
    MergeStartForm(job, b, fetched, truth);
    if n == 0 {
      FilterCachesNothing(job, b, truth, |job.request|);
      FilterAlone(job, b, |job.request|);
    } else {
      var m, s := Elems(Missing(job.request, b)), MergeStart(job, b);
      MergeStartRight(job, b, fetched, truth, p);
      hide CachesWrong, RightSoFar, Missing, FitsBefore, MergeStart, MergeOne, Finish;
      DistinctOf(job, b, fetched, truth);
      MergeManyCachesRight(job, b, fetched, truth, p, n - 1);
      MergeManyRight(job, m, b.vals, s, p, n - 1);
      RightOneCachesRight(job, b, fetched, truth, MergeMany(job, s, n - 1), p);
    }
  }

  lemma {:induction false} UsedUpCachesNothing(job: Job, s: Machine, truth: B256 -> Body)
    requires s.phase.Merging? && s.next >= |s.fetched|
    ensures !CachesWrong(job, s, truth)
    decreases Left(job, s.i)
  {
    if s.i < |job.request| {
      UsedUpCachesNothing(job, Handler(job, s), truth);
    } else {
      CachesWrongEnd(job, s, truth);
    }
  }

  lemma UsedGrows(request: seq<B256>, m: set<B256>, fetched: seq<Body>, i: nat, q: nat)
    requires i <= q <= |request|
    ensures Used(request, m, fetched, i) <= Used(request, m, fetched, q)
  {
    InsertedSize(request, m, fetched, i);
    InsertedSize(request, m, fetched, q);
    InsertedGrows(request, m, fetched, i, q);
    SubsetCard(Inserted(request, m, fetched, i), Inserted(request, m, fetched, q));
  }

  /** Some cached hash of the request does not fit while the reply still has bodies. */
  ghost predicate MisfitBeforeUsedUp(request: seq<B256>, m: set<B256>, fetched: seq<Body>, cap: nat) {
    exists p :: 0 <= p < |request| && request[p] !in m && !FitsAt(request, m, fetched, cap, p)
                && Used(request, m, fetched, p) < |fetched|
  }

  /** For pairwise distinct hashes and an honest reply, the merge ever caches a wrong body if and only if some
      cached hash of the request does not fit and the reply still has bodies when its turn comes. */
  lemma CachesWrongIff(job: Job, b: Bodies, fetched: seq<Body>, truth: B256 -> Body)
    requires FetchedDistinct(job, b, fetched, truth) && InjectiveOn(job.request, truth)
    ensures CachesWrong(job, Start(b), truth)
            <==> MisfitBeforeUsedUp(job.request, Elems(Missing(job.request, b)), fetched, b.cap)
  {
    var n, m, s := |job.request|, Elems(Missing(job.request, b)), MergeStart(job, b);
    if FitsBefore(job.request, m, fetched, b.cap, n) {
      MergeManyCachesRight(job, b, fetched, truth, n, n);
      MergeStartForm(job, b, fetched, truth);
      MergeStartRight(job, b, fetched, truth, n);
      MergeManyRight(job, m, b.vals, s, n, n);
      CachesWrongEnd(job, MergeMany(job, s, n), truth);
    } else {
      var p := FirstMisfit(job.request, m, fetched, b.cap, n);
      FirstMisfitCaches(job, b, fetched, truth, p);
      if MisfitBeforeUsedUp(job.request, m, fetched, b.cap) {
        var q :| 0 <= q < n && job.request[q] !in m && !FitsAt(job.request, m, fetched, b.cap, q)
                 && Used(job.request, m, fetched, q) < |fetched|;
        assert p <= q;
        UsedGrows(job.request, m, fetched, p, q);
      }
    }
  }

  lemma FirstMisfitCaches(job: Job, b: Bodies, fetched: seq<Body>, truth: B256 -> Body, p: nat)
    requires FetchedDistinct(job, b, fetched, truth) && InjectiveOn(job.request, truth) && p < |job.request|
    requires var m := Elems(Missing(job.request, b));
             && job.request[p] !in m && FitsBefore(job.request, m, fetched, b.cap, p)
             && !FitsAt(job.request, m, fetched, b.cap, p)
    ensures CachesWrong(job, Start(b), truth)
            <==> Used(job.request, Elems(Missing(job.request, b)), fetched, p) < |fetched|
  {
    hide CachesWrong, Missing, MergeStart, MergeMany, Finish, FitsAt;
    var m, t := Elems(Missing(job.request, b)), MergeMany(job, MergeStart(job, b), p);
    FirstMisfitEvicted(job, b, fetched, truth, p);
    MergeManyCachesRight(job, b, fetched, truth, p, p);
    RightIsValid(job.request, m, b.vals, t, p);
    if t.next < |fetched| {
      OtherBody(job, b, fetched, truth, t, p);
      CachesWrongOne(job, t, truth);
    } else {
      UsedUpCachesNothing(job, t, truth);
    }
  }

  /** Capacity 1, d cached, request a, d and the correct reply for a: inserting a evicts d, whose body is then
      missing from the response. */
  lemma SmallCacheMisfit(job: Job, b: Bodies, a: B256, d: B256, truth: B256 -> Body)
    requires a != d && job.request == [a, d] && b == Lru(1, [d], map[d := truth(d)])
    requires job.peer([a]) == Some([truth(a)]) && InjectiveOn([a, d], truth)
    ensures FetchedDistinct(job, b, [truth(a)], truth)
    ensures !Fits(job.request, Elems(Missing(job.request, b)), [truth(a)], 1)
    ensures Finish(job, Start(b)).out == [truth(a)]
  {
    var f := [truth(a)];
    SmallMissing(b, a, d);
    assert [a, d][..1] == [a] && Elems([a]) == {a} && Elems([a, d]) == {a, d};
    assert Hits(job.request, {a}) == {d};
    assert Elems([a]) * {a} == {a};
    assert !FitsAt(job.request, {a}, f, 1, 1);
    SmallCacheRun(job, b, a, d, truth(a));
  }

  lemma SmallMissing(b: Bodies, a: B256, d: B256)
    requires a != d && b.vals.Keys == {d}
    ensures Missing([a, d], b) == [a]
  {
    var r := [a, d];
    assert a in Elems(r) && d in Elems(r) && forall x :: x in Elems(r) ==> x == a || x == d;
    var m := Elems(r) - b.vals.Keys;
    assert m == {a};
    assert r[..1] == [a] && [a][..0] == [];
    assert Keep([a], m) == Keep([], m) + [a] == [a];
    assert Keep(r, m) == Keep([a], m) + [];
  }

  lemma SmallCacheRun(job: Job, b: Bodies, a: B256, d: B256, x: Body)
    requires a != d && job.request == [a, d] && b.Valid() && b.cap == 1 && b.order == [d] && b.vals.Keys == {d}
    requires job.peer([a]) == Some([x])
    ensures Finish(job, Start(b)).out == [x]
  {
    var bd := b.Touch(d);
    TouchFacts(b, d);
    PushValid(bd, a, x);
    PushOther(bd, a, x, d);
    assert |Above(bd.order, d) + {a}| >= 1;
    hide Finish;
    var s3 := Machine(bd, Merging, 0, [a], [x], 0, []);
    var s5 := Machine(bd.Push(a, x), Merging, 1, [a], [x], 1, [x]);
    FinishStep(job, Start(b), Machine(b, Filtering, 1, [a], [], 0, []));
    FinishStep(job, Machine(b, Filtering, 1, [a], [], 0, []), Machine(bd, Filtering, 2, [a], [], 0, []));
    FinishStep(job, Machine(bd, Filtering, 2, [a], [], 0, []), s3);
    FinishStep(job, s3, Machine(bd, Inserting(x), 0, [a], [x], 1, []));
    FinishStep(job, Machine(bd, Inserting(x), 0, [a], [x], 1, []), s5);
    FinishStep(job, s5, s5.(i := 2));
    FinishStep(job, s5.(i := 2), s5.(i := 2, phase := Done));
    FinishDone(job, s5.(i := 2, phase := Done));
  }
}
