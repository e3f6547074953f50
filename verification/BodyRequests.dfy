/** The GetBlockBodies branch as the handler runs it over the cache object. */
module BodyRequests {
  import opened Recency
  import opened LruMap
  import opened Types
  import C = BlockCaches
  import opened BodyMerge
  import opened BodyAlignment

  function TouchAll(l: Bodies, hashes: seq<B256>): Bodies {
    if hashes == [] then l else TouchAll(l, hashes[..|hashes| - 1]).Touch(hashes[|hashes| - 1])
  }

  function LookupIn(l: Bodies): B256 -> Option<Body> {
    h => l.Lookup(h)
  }

  lemma {:induction false} TouchAllFacts(l: Bodies, hashes: seq<B256>)
    requires l.Valid()
    ensures TouchAll(l, hashes).Valid() && TouchAll(l, hashes).cap == l.cap && TouchAll(l, hashes).vals == l.vals
  {
    if hashes != [] {
      TouchAllFacts(l, hashes[..|hashes| - 1]);
      TouchFacts(TouchAll(l, hashes[..|hashes| - 1]), hashes[|hashes| - 1]);
    }
  }

  /** Exactly the hits are promoted, in request order. */
  lemma {:induction false} TouchAllBumps(l: Bodies, hashes: seq<B256>)
    requires l.Valid()
    ensures TouchAll(l, hashes).order == BumpAll(l.order, Keep(hashes, l.vals.Keys))
  {
    if hashes != [] {
      var g, h := hashes[..|hashes| - 1], hashes[|hashes| - 1];
      TouchAllBumps(l, g);
      TouchAllFacts(l, g);
      BumpAllStep(l.order, Keep(g, l.vals.Keys), h);
      assert Keep(g, l.vals.Keys) + [] == Keep(g, l.vals.Keys);
    }
  }

  lemma TouchAllStep(l: Bodies, hashes: seq<B256>, i: nat)
    requires i < |hashes|
    ensures TouchAll(l, hashes[..i + 1]) == TouchAll(l, hashes[..i]).Touch(hashes[i])
  {
    PrefixStep(hashes, i);
  }

  /** The response in terms of the cache as it was: the cached bodies when none is missing or the fetch fails,
      else the merge of cached and fetched bodies. */
  function BodiesResponse(b: Bodies, request: seq<B256>, peer: seq<B256> -> Option<seq<Body>>): seq<Body> {
    var missing := Missing(request, b);
    if missing == [] || peer(missing).None? then Gather(request, LookupIn(b))
    else Gather(request, AnswerOf(request, Elems(missing), b.vals, peer(missing).value))
  }

  lemma {:induction false} AllFoundIffNoneMissing(request: seq<B256>, m: set<B256>, b: Bodies)
    requires Elems(request) - b.vals.Keys <= m && m !! b.vals.Keys
    ensures |Gather(request, LookupIn(b))| + |Keep(request, m)| == |request|
  {
    if request != [] {
      var g, h := request[..|request| - 1], request[|request| - 1];
      assert h in Elems(request);
      assert Elems(g) <= Elems(request);
      AllFoundIffNoneMissing(g, m, b);
    }
  }

  lemma GetBodyTouches(c: C.Cache, h: B256)
    ensures C.Apply(c, C.Op.GetBodyByHash(h)) == c.(bodiesByHash := c.bodiesByHash.Touch(h))
  {
  }

  lemma InsertBodyPushes(c: C.Cache, h: B256, x: Body)
    ensures C.Apply(c, C.Op.InsertBody(h, x)) == c.(bodiesByHash := c.bodiesByHash.Push(h, x))
  {
  }

  method ResolveBodiesFromCache(cache: C.BlockCache, hashes: seq<B256>) returns (bodies: seq<Body>)
    requires cache.Valid()
    modifies cache.Repr
    ensures cache.Valid()
    ensures bodies == Gather(hashes, LookupIn(old(cache.View()).bodiesByHash))
    ensures cache.View() == old(cache.View()).(bodiesByHash := TouchAll(old(cache.View()).bodiesByHash, hashes))
    ensures var b := old(cache.View()).bodiesByHash;
            cache.View().bodiesByHash.order == BumpAll(b.order, Keep(hashes, b.vals.Keys))
  {
    TouchAllBumps(cache.View().bodiesByHash, hashes);
    bodies := [];
    ghost var c := cache.View();
    for i := 0 to |hashes|
      invariant cache.Valid()
      invariant cache.View() == c.(bodiesByHash := TouchAll(c.bodiesByHash, hashes[..i]))
      invariant bodies == Gather(hashes[..i], LookupIn(c.bodiesByHash))
    {
      hide C.WellFormed, C.Apply, Gather, TouchAll;
      TouchAllFacts(c.bodiesByHash, hashes[..i]);
      TouchAllStep(c.bodiesByHash, hashes, i);
      GatherStep(hashes, i, LookupIn(c.bodiesByHash));
      GetBodyTouches(cache.View(), hashes[i]);
      var body := cache.GetBodyByHash(hashes[i]);
      if body.Some? {
        bodies := bodies + [body.value];
      }
    }
    assert hashes[..|hashes|] == hashes;
  }

  /** The filter loop: the hashes not found, each hit promoted. */
  method FilterMissing(cache: C.BlockCache, job: Job) returns (missing: seq<B256>, ghost s: Machine)
    requires cache.Valid()
    modifies cache.Repr
    ensures cache.Valid() && cache.View() == old(cache.View()).(bodiesByHash := s.bodies)
    ensures s == Machine(s.bodies, Filtering, |job.request|, missing, [], 0, [])
    ensures Finish(job, s) == Finish(job, Start(old(cache.View()).bodiesByHash))
  {
    hide Finish, C.WellFormed, C.Apply;
    missing := [];
    ghost var c := cache.View();
    s := Start(c.bodiesByHash);
    for i := 0 to |job.request|
      invariant cache.Valid() && cache.View() == c.(bodiesByHash := s.bodies)
      invariant s == Machine(s.bodies, Filtering, i, missing, [], 0, [])
      invariant Finish(job, s) == Finish(job, Start(c.bodiesByHash))
    {
      FinishStep(job, s, Handler(job, s));
      GetBodyTouches(cache.View(), job.request[i]);
      var body := cache.GetBodyByHash(job.request[i]);
      if body.None? {
        missing := missing + [job.request[i]];
      }
      s := Handler(job, s);
      assert s.missing == missing;
    }
  }

  /** The merge loop: cached bodies and fetched bodies in request order, each fetched body cached. */
  method Merge(cache: C.BlockCache, job: Job, missing: seq<B256>, fetched: seq<Body>, ghost s0: Machine)
    returns (allBodies: seq<Body>)
    requires cache.Valid() && s0 == Machine(cache.View().bodiesByHash, Merging, 0, missing, fetched, 0, [])
    modifies cache.Repr
    ensures cache.Valid() && cache.View() == old(cache.View()).(bodiesByHash := Finish(job, s0).bodies)
    ensures allBodies == Finish(job, s0).out
  {
    hide Finish, C.WellFormed, C.Apply;
    allBodies := [];
    var next := 0;
    ghost var c := cache.View();
    ghost var s := s0;
    for i := 0 to |job.request|
      invariant cache.Valid() && cache.View() == c.(bodiesByHash := s.bodies) && next <= |fetched|
      invariant s == Machine(s.bodies, Merging, i, missing, fetched, next, allBodies)
      invariant Finish(job, s) == Finish(job, s0)
    {
      var hash := job.request[i];
      FinishStep(job, s, Handler(job, s));
      GetBodyTouches(cache.View(), hash);
      var cached := cache.GetBodyByHash(hash);
      s := Handler(job, s);
      if cached.Some? {
        allBodies := allBodies + [cached.value];
      } else if next < |fetched| {
        var body := fetched[next];
        next := next + 1;
        FinishStep(job, s, Handler(job, s));
        InsertBodyPushes(cache.View(), hash, body);
        cache.InsertBody(hash, body);
        s := Handler(job, s);
        allBodies := allBodies + [body];
      }
    }
    FinishStep(job, s, Handler(job, s));
    FinishDone(job, Handler(job, s));
  }

  /** `peer` is the outcome of the network call for a list of missing hashes, None when it fails. With room for
      the requested hashes the response is the closed form over the cache as it was, whatever the peer replies. */
  method HandleGetBlockBodies(cache: C.BlockCache, request: seq<B256>, peer: seq<B256> -> Option<seq<Body>>)
    returns (response: seq<Body>)
    requires cache.Valid()
    modifies cache.Repr
    ensures cache.Valid()
    ensures var b := old(cache.View()).bodiesByHash;
            var b1, partial := TouchAll(b, request), Gather(request, LookupIn(b));
            var s := Finish(Job(request, peer, partial), Start(b1));
            if |partial| == |request| > 0
            then response == partial && cache.View() == old(cache.View()).(bodiesByHash := b1)
            else response == s.out && cache.View() == old(cache.View()).(bodiesByHash := s.bodies)
    ensures |Elems(request)| <= LruCapOf(cache) ==>
              response == BodiesResponse(old(cache.View()).bodiesByHash, request, peer)
  {
    ghost var b := cache.View().bodiesByHash;
    ClosedForm(b, request, peer, LruCapOf(cache));
    hide Finish, C.WellFormed, C.Apply;
    var bodies := ResolveBodiesFromCache(cache, request);
    if |bodies| == |request| && |request| > 0 {
      return bodies;
    }
    ghost var b1 := cache.View().bodiesByHash;
    var job := Job(request, peer, bodies);
    var missing: seq<B256>;
    ghost var s: Machine;
    missing, s := FilterMissing(cache, job);
    FinishStep(job, s, Handler(job, s));
    if missing == [] {
      FinishDone(job, Handler(job, s));
      return bodies;
    }
    var reply := peer(missing);
    if reply.None? {
      FinishDone(job, Handler(job, s));
      return bodies;
    }
    response := Merge(cache, job, missing, reply.value, Handler(job, s));
  }

  function LruCapOf(cache: C.BlockCache): nat {
    C.LruCap(cache.capacity)
  }

  lemma ClosedForm(b: Bodies, request: seq<B256>, peer: seq<B256> -> Option<seq<Body>>, cap: nat)
    requires b.Valid() && b.cap == cap
    ensures var b1, partial := TouchAll(b, request), Gather(request, LookupIn(b));
            |Elems(request)| <= cap ==>
              BodiesResponse(b, request, peer) ==
                if |partial| == |request| > 0 then partial else Finish(Job(request, peer, partial), Start(b1)).out
  {
    var b1, partial := TouchAll(b, request), Gather(request, LookupIn(b));
    TouchAllFacts(b, request);
    AllFoundIffNoneMissing(request, Elems(request) - b.vals.Keys, b);
    if |Elems(request)| <= cap {
      FinishAnswers(Job(request, peer, partial), b1);
    }
  }
}
