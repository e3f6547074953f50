/** The GetBlockHeaders branch: answer from the cache, or proxy to a peer and cache its reply. */
module HeaderProxy {
  import opened Recency
  import opened LruMap
  import opened Types
  import opened BlockCaches
  import opened Headers

  function InsertHeaders(c: Cache, hashOf: Header -> B256, hs: seq<Header>): Cache {
    if hs == [] then c
    else Apply(InsertHeaders(c, hashOf, hs[..|hs| - 1]), Op.InsertHeader(hashOf(hs[|hs| - 1]), hs[|hs| - 1]))
  }

  /** Every header of the reply is inserted, in order, under its own hash, whatever the reply. */
  lemma {:induction false} InsertHeadersRun(c: Cache, hashOf: Header -> B256, hs: seq<Header>, ops: seq<Op>)
    requires |ops| == |hs| && forall i :: 0 <= i < |hs| ==> ops[i] == Op.InsertHeader(hashOf(hs[i]), hs[i])
    ensures InsertHeaders(c, hashOf, hs) == Run(c, ops)
  {
    if hs != [] {
      InsertHeadersRun(c, hashOf, hs[..|hs| - 1], ops[..|hs| - 1]);
    }
  }

  /** `peer` is the outcome of the network call, None when it fails. */
  method HandleGetBlockHeaders(cache: BlockCache, request: Request, peer: ProxyRequest -> Option<seq<Header>>,
                               hashOf: Header -> B256)
    returns (response: seq<Header>, ghost cached: seq<Header>, ghost read: Cache)
    requires cache.Valid()
    modifies cache.Repr
    ensures cache.Valid() && Answers(old(cache.View()), request, cached)
    ensures SameContents(old(cache.View()), read) && WellFormed(read, LruCap(cache.capacity))
    ensures Promoted(old(cache.View()), read, cached) && StartPromoted(old(cache.View()), read, request.start)
    ensures cached != [] ==> response == cached
    ensures cached == [] ==>
              match peer(ProxyRequest(request.start, request.limit, request.rising))
              case None => response == []
              case Some(reply) => response == reply
    ensures cached == [] && response != [] && PeerStartsRight(peer, hashOf) ==>
              StartsAt(response, request.start, hashOf)
    ensures cache.View() == if cached == [] && peer(Proxied(request)).Some?
                            then InsertHeaders(read, hashOf, peer(Proxied(request)).value) else read
    ensures NumbersMatch(old(cache.View())) && CorrectPeer(peer) ==>
              (Spaced(response, request) <==> cached != [] || request.skip == 0 || |response| <= 1)
  {
    hide NumbersMatch, CorrectPeer, Spaced, Answers, ResolveReads, Run, InRange, Pos, Promoted, StartPromoted, StartsAt;
    ghost var rounds, lookups;
    var headers: seq<Header>;
    headers, rounds, lookups := ResolveHeadersFromCache(cache, request);
    cached, read := headers, cache.View();
    if NumbersMatch(old(cache.View())) && CorrectPeer(peer) {
      ResponseSpacedIff(old(cache.View()), request, peer, cached);
    }
    if headers != [] {
      return headers, cached, read;
    }
    var reply := peer(Proxied(request));
    if reply.None? {
      return [], cached, read;
    }
    var fetched := reply.value;
    for i := 0 to |fetched|
      invariant cache.Valid()
      invariant cache.View() == InsertHeaders(read, hashOf, fetched[..i])
    {
      assert fetched[..i + 1][..i] == fetched[..i];
      cache.InsertHeader(hashOf(fetched[i]), fetched[i]);
    }
    assert fetched[..|fetched|] == fetched;
    response := fetched;
  }

  function ByNumber(hs: seq<Header>): (kvs: seq<(u64, Header)>)
    ensures |kvs| == |hs| && forall i :: 0 <= i < |hs| ==> kvs[i] == (hs[i].number, hs[i])
  {
    if hs == [] then [] else ByNumber(hs[..|hs| - 1]) + [(hs[|hs| - 1].number, hs[|hs| - 1])]
  }

  function ByHash(hashOf: Header -> B256, hs: seq<Header>): (kvs: seq<(B256, Header)>)
    ensures |kvs| == |hs| && forall i :: 0 <= i < |hs| ==> kvs[i] == (hashOf(hs[i]), hs[i])
  {
    if hs == [] then [] else ByHash(hashOf, hs[..|hs| - 1]) + [(hashOf(hs[|hs| - 1]), hs[|hs| - 1])]
  }

  lemma {:induction false} InsertHeadersPushes(c: Cache, hashOf: Header -> B256, hs: seq<Header>)
    ensures InsertHeaders(c, hashOf, hs).headersByNumber == PushAll(c.headersByNumber, ByNumber(hs))
    ensures InsertHeaders(c, hashOf, hs).headersByHash == PushAll(c.headersByHash, ByHash(hashOf, hs))
  {
    if hs != [] {
      var g := hs[..|hs| - 1];
      InsertHeadersPushes(c, hashOf, g);
      assert ByNumber(hs)[..|g|] == ByNumber(g);
      assert ByHash(hashOf, hs)[..|g|] == ByHash(hashOf, g);
    }
  }

  /** The reply a correct peer gives: numbered consecutively from the requested start, one step at a time. */
  ghost predicate Consecutive(reply: seq<Header>, rising: bool) {
    forall i :: 0 <= i < |reply| ==> reply[i].number == if rising then reply[0].number + i else reply[0].number - i
  }

  /** The first header of the reply is the requested start. A start hash belongs to no later header. */
  ghost predicate StartsAt(reply: seq<Header>, start: HashOrNumber, hashOf: Header -> B256)
    requires reply != []
  {
    match start
    case Number(n) => reply[0].number == n
    case Hash(h) => hashOf(reply[0]) == h && forall i :: 0 < i < |reply| ==> hashOf(reply[i]) != h
  }

  /** Every non-empty reply of the peer starts where it was asked to. */
  ghost predicate PeerStartsRight(peer: ProxyRequest -> Option<seq<Header>>, hashOf: Header -> B256) {
    forall p :: peer(p).Some? && peer(p).value != [] ==> StartsAt(peer(p).value, p.start, hashOf)
  }

  lemma {:induction false} CachedReply(c: Cache, cap: nat, reply: seq<Header>, rising: bool, hashOf: Header -> B256,
                                       i: nat)
    requires WellFormed(c, cap) && i < |reply| <= cap && Consecutive(reply, rising)
    ensures var d := InsertHeaders(c, hashOf, reply);
            CachedAt(d.headersByNumber.vals, Pos(reply[0].number, 1, rising, i), reply[i])
  {
    hide InsertHeaders, PushAll, Above;
    InsertHeadersPushes(c, hashOf, reply);
    var kvs := ByNumber(reply);
    forall j | i < j < |kvs| ensures kvs[j].0 != kvs[i].0 {
      PosMonotone(reply[0].number, 1, rising, i, j);
    }
    PushedSurvives(c.headersByNumber, kvs, i);
  }

  lemma {:induction false} CachedStart(c: Cache, cap: nat, request: Request, reply: seq<Header>, hashOf: Header -> B256)
    requires WellFormed(c, cap) && 0 < |reply| <= cap && StartsAt(reply, request.start, hashOf)
    ensures StartNumber(InsertHeaders(c, hashOf, reply), request.start) == Some(reply[0].number)
  {
    if request.start.Hash? {
      InsertHeadersPushes(c, hashOf, reply);
      PushedSurvives(c.headersByHash, ByHash(hashOf, reply), 0);
    }
  }

  /** A maximal run is at least as long as any cached run from its start within the limit. */
  lemma NotShorter(m: map<u64, Header>, first: u64, rising: bool, limit: nat, reply: seq<Header>, answer: seq<Header>)
    requires MaximalRun(m, first, 1, rising, limit, answer) && |reply| <= limit
    requires forall i :: 0 <= i < |reply| ==> CachedAt(m, Pos(first, 1, rising, i), reply[i])
    ensures |reply| <= |answer|
  {
    hide Pos;
  }

  lemma AnswersFrom(c: Cache, request: Request, first: u64, answer: seq<Header>)
    requires Answers(c, request, answer) && StartNumber(c, request.start) == Some(first)
    ensures MaximalRun(c.headersByNumber.vals, first, request.skip + 1, request.rising, request.limit, answer)
  {
  }

  /** Proxy then cache: once a correct reply is cached, the same request answered from the cache starts with
      exactly that reply, and is that reply when it was as long as the limit. */
  lemma {:induction false} CachedReplyAnswers(c: Cache, cap: nat, request: Request, reply: seq<Header>,
                                              hashOf: Header -> B256, answer: seq<Header>)
    requires WellFormed(c, cap) && request.skip == 0
    requires 0 < |reply| <= cap && |reply| <= request.limit
    requires Consecutive(reply, request.rising) && StartsAt(reply, request.start, hashOf)
    requires Answers(InsertHeaders(c, hashOf, reply), request, answer)
    ensures reply <= answer
    ensures |reply| == request.limit ==> answer == reply
  {
    hide Pos, InsertHeaders, WellFormed, Consecutive, StartsAt, StartNumber, Answers;
    var d := InsertHeaders(c, hashOf, reply);
    var first, m := reply[0].number, d.headersByNumber.vals;
    CachedStart(c, cap, request, reply, hashOf);
    AnswersFrom(d, request, first, answer);
    forall i | 0 <= i < |reply| ensures CachedAt(m, Pos(first, 1, request.rising, i), reply[i]) {
      CachedReply(c, cap, reply, request.rising, hashOf, i);
    }
    NotShorter(m, first, request.rising, request.limit, reply, answer);
    forall i | 0 <= i < |reply| ensures answer[i] == reply[i] {
      assert CachedAt(m, Pos(first, 1, request.rising, i), answer[i]);
    }
    assert answer[..|reply|] == reply;
  }

  /** A reply spaced as the requester asked: every skip+1 numbers from the start. */
  ghost predicate Spaced(reply: seq<Header>, request: Request) {
    forall i :: 0 <= i < |reply| ==>
                  var d := i * (request.skip + 1);
                  reply[i].number == if request.rising then reply[0].number + d else reply[0].number - d
  }

  /** What the internet peer is asked for: the skip is dropped. */
  function Proxied(request: Request): ProxyRequest {
    ProxyRequest(request.start, request.limit, request.rising)
  }

  function HeadersResponse(cached: seq<Header>, reply: Option<seq<Header>>): seq<Header> {
    if cached != [] then cached else match reply case None => [] case Some(r) => r
  }

  /** The peer answers what it is asked: consecutive numbers in the asked direction, within the limit. */
  ghost predicate CorrectPeer(peer: ProxyRequest -> Option<seq<Header>>) {
    forall p :: peer(p).Some? ==> Consecutive(peer(p).value, p.rising) && |peer(p).value| <= p.limit
  }

  /** The response is spaced as requested exactly when it came from the cache, or the skip is 0, or it is at most
      one header: a correct peer never sees the skip. */
  lemma ResponseSpacedIff(c: Cache, request: Request, peer: ProxyRequest -> Option<seq<Header>>, cached: seq<Header>)
    requires NumbersMatch(c) && Answers(c, request, cached) && CorrectPeer(peer)
    ensures var response := HeadersResponse(cached, peer(Proxied(request)));
            && |response| <= request.limit
            && (Spaced(response, request) <==> cached != [] || request.skip == 0 || |response| <= 1)
  {
    var reply := HeadersResponse(cached, peer(Proxied(request)));
    if cached != [] {
      CachedSpaced(c, request, cached);
    } else if |reply| >= 2 && request.skip > 0 {
      assert reply[1].number == Pos(reply[0].number, 1, request.rising, 1);
      assert Pos(reply[0].number, request.skip + 1, request.rising, 1) != Pos(reply[0].number, 1, request.rising, 1);
    }
  }

  lemma CachedSpaced(c: Cache, request: Request, cached: seq<Header>)
    requires NumbersMatch(c) && Answers(c, request, cached) && cached != []
    ensures Spaced(cached, request) && |cached| <= request.limit
  {
    var first, m := StartNumber(c, request.start).value, c.headersByNumber.vals;
    assert CachedAt(m, Pos(first, request.skip + 1, request.rising, 0), cached[0]);
    hide Pos;
    assert cached[0].number == first by {
      PosZero(first, request.skip + 1, request.rising);
    }
    forall i | 0 <= i < |cached|
      ensures cached[i].number == Pos(cached[0].number, request.skip + 1, request.rising, i)
    {
      assert CachedAt(m, Pos(first, request.skip + 1, request.rising, i), cached[i]);
    }
  }

  lemma PosZero(first: u64, step: nat, rising: bool)
    ensures Pos(first, step, rising, 0) == first
  {
  }
}
