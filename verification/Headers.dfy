/** Answering GetBlockHeaders: a walk by number over the cache, else a proxied reply that is cached. */
module Headers {
  import opened Recency
  import opened LruMap
  import opened Types
  import opened BlockCaches

  datatype HashOrNumber = Hash(hash: B256) | Number(number: u64)

  datatype Request = Request(start: HashOrNumber, limit: u64, skip: u32, rising: bool)

  /** What is asked of an internet peer; the skip is not passed on. */
  datatype ProxyRequest = ProxyRequest(start: HashOrNumber, limit: u64, rising: bool)

  /** The i-th number of a walk. */
  function Pos(first: u64, step: nat, rising: bool, i: nat): int {
    if rising then first + i * step else first - i * step
  }

  function StartNumber(c: Cache, start: HashOrNumber): Option<u64> {
    match start
    case Number(n) => Some(n)
    case Hash(h) => if h in c.headersByHash.vals then Some(c.headersByHash.vals[h].number) else None
  }

  predicate InRange(n: int) {
    0 <= n < U64_RANGE
  }

  /** Position i of the walk is a block number that is cached with header h. */
  ghost predicate CachedAt(m: map<u64, Header>, n: int, h: Header) {
    InRange(n) && n in m && m[n] == h
  }

  /** r is the longest run of cached headers from `first`, cut at the limit, at the first uncached number, or
      where the next number would leave 64 bits. */
  ghost predicate MaximalRun(m: map<u64, Header>, first: u64, step: nat, rising: bool, limit: nat, r: seq<Header>) {
    && |r| <= limit
    && (forall i :: 0 <= i < |r| ==> CachedAt(m, Pos(first, step, rising, i), r[i]))
    && (|r| == limit || !InRange(Pos(first, step, rising, |r|)) || Pos(first, step, rising, |r|) !in m)
  }

  lemma PosStep(first: u64, step: nat, rising: bool, i: nat)
    ensures rising ==> Pos(first, step, rising, i + 1) == Pos(first, step, rising, i) + step
    ensures !rising ==> Pos(first, step, rising, i + 1) == Pos(first, step, rising, i) - step
  {
  }

  lemma PosMonotone(first: u64, step: nat, rising: bool, i: nat, j: nat)
    requires i < j && step >= 1
    ensures Pos(first, step, rising, i) != Pos(first, step, rising, j)
    ensures InRange(Pos(first, step, rising, j)) ==> InRange(Pos(first, step, rising, i))
  {
    assert j * step == i * step + (j - i) * step;
    assert (j - i) * step >= 1;
  }

  /** There is only one such run. */
  lemma MaximalRunUnique(m: map<u64, Header>, first: u64, step: nat, rising: bool, limit: nat, a: seq<Header>,
                         b: seq<Header>)
    requires MaximalRun(m, first, step, rising, limit, a) && MaximalRun(m, first, step, rising, limit, b)
    ensures a == b
  {
    hide Pos;
  }

  lemma {:induction false} WalkNumbers(m: map<u64, Header>, first: u64, step: nat, rising: bool, r: seq<Header>)
      returns (ns: set<u64>)
    requires step >= 1 && forall i :: 0 <= i < |r| ==> CachedAt(m, Pos(first, step, rising, i), r[i])
    ensures |ns| == |r| && ns <= m.Keys
    ensures forall n :: n in ns ==> exists i :: 0 <= i < |r| && n == Pos(first, step, rising, i)
  {
    if r == [] {
      ns := {};
    } else {
      hide Pos;
      var g := r[..|r| - 1];
      ns := WalkNumbers(m, first, step, rising, g);
      var last := Pos(first, step, rising, |g|);
      assert CachedAt(m, last, r[|g|]);
      forall i | 0 <= i < |g| ensures Pos(first, step, rising, i) != last {
        PosMonotone(first, step, rising, i, |g|);
      }
      ns := ns + {last};
    }
  }

  /** No run is longer than the map's capacity, whatever the limit. */
  lemma WalkBounded(l: Lru<u64, Header>, first: u64, step: nat, rising: bool, r: seq<Header>)
    requires l.Valid() && step >= 1 && forall i :: 0 <= i < |r| ==> CachedAt(l.vals, Pos(first, step, rising, i), r[i])
    ensures |r| <= l.cap
  {
    var ns := WalkNumbers(l.vals, first, step, rising, r);
    ElemsSize(l.order);
    SubsetCard(ns, l.vals.Keys);
  }

  /** The reads by number of a walk that made n lookups. */
  function Reads(first: u64, step: nat, rising: bool, n: nat): (ops: seq<Op>)
    requires n == 0 || InRange(Pos(first, step, rising, n - 1))
    requires step >= 1
    ensures forall op :: op in ops ==> op.GetHeaderByNumber?
  {
    if n == 0 then []
    else
      PosMonotoneIf(first, step, rising, n);
      Reads(first, step, rising, n - 1) + [Op.GetHeaderByNumber(Pos(first, step, rising, n - 1))]
  }

  lemma PosMonotoneIf(first: u64, step: nat, rising: bool, n: nat)
    requires n >= 1 && step >= 1 && InRange(Pos(first, step, rising, n - 1))
    ensures n >= 2 ==> InRange(Pos(first, step, rising, n - 2))
  {
    if n >= 2 {
      PosMonotone(first, step, rising, n - 2, n - 1);
    }
  }

  /** Nothing but recency changed. */
  ghost predicate SameContents(c: Cache, d: Cache) {
    && d.headersByHash.vals == c.headersByHash.vals
    && d.headersByNumber.vals == c.headersByNumber.vals
    && d.hashByNumber == c.hashByNumber
    && d.bodiesByHash == c.bodiesByHash
  }

  /** The promotions a resolve makes: the hash it starts from, then the numbers it looked up. */
  function ResolveReads(c: Cache, request: Request, lookups: nat): seq<Op>
    requires lookups > 0 ==> StartNumber(c, request.start).Some?
                             && InRange(Pos(StartNumber(c, request.start).value, request.skip + 1, request.rising,
                                            lookups - 1))
  {
    var byHash := match request.start case Hash(h) => [Op.GetHeaderByHash(h)] case Number(_) => [];
    byHash
    + if lookups == 0 then []
      else Reads(StartNumber(c, request.start).value, request.skip + 1, request.rising, lookups)
  }

  lemma ResolveReadsStep(c: Cache, request: Request, n: nat)
    requires StartNumber(c, request.start).Some?
    requires InRange(Pos(StartNumber(c, request.start).value, request.skip + 1, request.rising, n))
    ensures n > 0 ==> InRange(Pos(StartNumber(c, request.start).value, request.skip + 1, request.rising, n - 1))
    ensures ResolveReads(c, request, n + 1) ==
              ResolveReads(c, request, n)
              + [Op.GetHeaderByNumber(Pos(StartNumber(c, request.start).value, request.skip + 1, request.rising, n))]
  {
    var first, step: nat := StartNumber(c, request.start).value, request.skip + 1;
    PosMonotoneIf(first, step, request.rising, n + 1);
    var byHash := match request.start case Hash(h) => [Op.GetHeaderByHash(h)] case Number(_) => [];
    var rs: seq<Op> := if n == 0 then [] else Reads(first, step, request.rising, n);
    var op := Op.GetHeaderByNumber(Pos(first, step, request.rising, n));
    assert Reads(first, step, request.rising, n + 1) == rs + [op];
    assert byHash + (rs + [op]) == (byHash + rs) + [op];
  }

  lemma RunAppend(c: Cache, ops: seq<Op>, op: Op)
    ensures Run(c, ops + [op]) == Apply(Run(c, ops), op)
  {
    assert (ops + [op])[..|ops|] == ops;
  }

  /** Reads of headers change recency only. */
  lemma {:induction false} ReadsKeepContents(c: Cache, ops: seq<Op>, cap: nat)
    requires WellFormed(c, cap) && forall op :: op in ops ==> op.GetHeaderByHash? || op.GetHeaderByNumber?
    ensures SameContents(c, Run(c, ops)) && WellFormed(Run(c, ops), cap)
  {
    RunWellFormed(c, ops, cap);
    if ops != [] {
      var g, op := ops[..|ops| - 1], ops[|ops| - 1];
      assert op in ops && forall o :: o in g ==> o in ops;
      ReadsKeepContents(c, g, cap);
    }
  }

  /** The number the walk stands at after i steps, when it is a 64-bit number. */
  function Here(first: u64, step: nat, rising: bool, i: nat): Option<u64> {
    if InRange(Pos(first, step, rising, i)) then Some(Pos(first, step, rising, i)) else None
  }

  function NextNumber(n: u64, step: nat, rising: bool): Option<u64> {
    if rising then CheckedAdd(n, step) else CheckedSub(n, step)
  }

  lemma HereStep(first: u64, step: nat, rising: bool, i: nat)
    requires Here(first, step, rising, i).Some?
    ensures NextNumber(Here(first, step, rising, i).value, step, rising) == Here(first, step, rising, i + 1)
  {
    PosStep(first, step, rising, i);
  }

  ghost predicate RunSoFar(m: map<u64, Header>, first: u64, step: nat, rising: bool, r: seq<Header>) {
    forall i :: 0 <= i < |r| ==> CachedAt(m, Pos(first, step, rising, i), r[i])
  }

  lemma RunGrows(m: map<u64, Header>, first: u64, step: nat, rising: bool, r: seq<Header>, h: Header)
    requires RunSoFar(m, first, step, rising, r)
    requires var here := Here(first, step, rising, |r|); here.Some? && here.value in m && m[here.value] == h
    ensures RunSoFar(m, first, step, rising, r + [h])
  {
  }

  lemma RunStops(m: map<u64, Header>, first: u64, step: nat, rising: bool, limit: nat, r: seq<Header>)
    requires RunSoFar(m, first, step, rising, r) && |r| <= limit
    requires var here := Here(first, step, rising, |r|); |r| == limit || here.None? || here.value !in m
    ensures MaximalRun(m, first, step, rising, limit, r)
  {
  }

  function NumbersOf(hs: seq<Header>): (ns: seq<u64>)
    ensures |ns| == |hs| && forall i :: 0 <= i < |hs| ==> ns[i] == hs[i].number
  {
    if hs == [] then [] else NumbersOf(hs[..|hs| - 1]) + [hs[|hs| - 1].number]
  }

  lemma NumbersOfStep(hs: seq<Header>, h: Header)
    ensures NumbersOf(hs + [h]) == NumbersOf(hs) + [h.number]
  {
    assert (hs + [h])[..|hs|] == hs;
  }

  /** The numbers of these headers were made the most recent in turn, and nothing else was. */
  ghost predicate Promoted(c: Cache, d: Cache, hs: seq<Header>) {
    NumbersMatch(c) ==> d.headersByNumber.order == BumpAll(c.headersByNumber.order, NumbersOf(hs))
  }

  /** The start hash, if its header is held, was made the most recent, and nothing else was. */
  ghost predicate StartPromoted(c: Cache, d: Cache, start: HashOrNumber) {
    d.headersByHash.order == if start.Hash? && start.hash in c.headersByHash.vals
                             then Bump(c.headersByHash.order, start.hash) else c.headersByHash.order
  }

  /** A read of n promotes n if its header is held. */
  lemma PromotesNext(c: Cache, d: Cache, n: u64, hs: seq<Header>)
    requires Promoted(c, d, hs) && d.headersByNumber.vals == c.headersByNumber.vals
    ensures var e := Apply(d, Op.GetHeaderByNumber(n));
            && e.headersByHash == d.headersByHash
            && Promoted(c, e, if n in c.headersByNumber.vals then hs + [c.headersByNumber.vals[n]] else hs)
  {
    if NumbersMatch(c) && n in c.headersByNumber.vals {
      NumbersOfStep(hs, c.headersByNumber.vals[n]);
      BumpAllStep(c.headersByNumber.order, NumbersOf(hs), n);
    }
  }

  /** The loop of the walk. `rounds` counts the executions of its body and `lookups` the reads among them. */
  method Walk(cache: BlockCache, first: u64, request: Request, ghost c: Cache)
    returns (headers: seq<Header>, ghost rounds: nat, ghost lookups: nat)
    requires cache.Valid() && WellFormed(c, LruCap(cache.capacity))
    requires StartNumber(c, request.start) == Some(first)
    requires cache.View() == Run(c, ResolveReads(c, request, 0)) && Promoted(c, cache.View(), [])
    modifies cache.Repr
    ensures cache.Valid()
    ensures MaximalRun(c.headersByNumber.vals, first, request.skip + 1, request.rising, request.limit, headers)
    ensures rounds <= |headers| + 1 && |headers| <= lookups <= |headers| + 1
    ensures lookups > 0 ==> InRange(Pos(first, request.skip + 1, request.rising, lookups - 1))
    ensures cache.View() == Run(c, ResolveReads(c, request, lookups))
    ensures cache.View().headersByHash == old(cache.View()).headersByHash && Promoted(c, cache.View(), headers)
  {
    hide Pos, Here, RunSoFar, MaximalRun, Run, WellFormed, CheckedAdd, CheckedSub, Promoted;
    ghost var start := cache.View();
    headers := [];
    rounds, lookups := 0, 0;
    var step: nat := request.skip + 1;
    ghost var m := c.headersByNumber.vals;
    var current: Option<u64> := Some(first);
    StartOfWalk(m, first, step, request.rising);
    var i := 0;
    while i < request.limit
      invariant 0 <= i <= request.limit && i == |headers| == rounds == lookups
      invariant cache.Valid()
      invariant current == Here(first, step, request.rising, i)
      invariant RunSoFar(m, first, step, request.rising, headers)
      invariant lookups > 0 ==> InRange(Pos(first, step, request.rising, lookups - 1))
      invariant cache.View() == Run(c, ResolveReads(c, request, lookups))
      invariant cache.View().headersByHash == start.headersByHash && Promoted(c, cache.View(), headers)
    {
      rounds := rounds + 1;
      if current.None? {
        break;
      }
      var num := current.value;
      HereIsPos(first, step, request.rising, i);
      ghost var before := ResolveReads(c, request, lookups);
      ReadsAreReads(c, request, lookups);
      ReadsKeepContents(c, before, LruCap(cache.capacity));
      PromotesNext(c, cache.View(), num, headers);
      var header := cache.GetHeaderByNumber(num);
      ResolveReadsStep(c, request, lookups);
      RunAppend(c, before, Op.GetHeaderByNumber(num));
      lookups := lookups + 1;
      if header.None? {
        break;
      }
      RunGrows(m, first, step, request.rising, headers, header.value);
      headers := headers + [header.value];
      HereStep(first, step, request.rising, i);
      current := NextNumber(num, step, request.rising);
      i := i + 1;
    }
    RunStops(m, first, step, request.rising, request.limit, headers);
  }

  lemma NothingPromoted(c: Cache, d: Cache)
    requires d.headersByNumber == c.headersByNumber
    ensures Promoted(c, d, [])
  {
  }

  lemma StartOfWalk(m: map<u64, Header>, first: u64, step: nat, rising: bool)
    ensures Here(first, step, rising, 0) == Some(first) && RunSoFar(m, first, step, rising, [])
  {
  }

  lemma HereIsPos(first: u64, step: nat, rising: bool, i: nat)
    requires Here(first, step, rising, i).Some?
    ensures InRange(Pos(first, step, rising, i)) && Here(first, step, rising, i).value == Pos(first, step, rising, i)
  {
  }

  lemma ReadsAreReads(c: Cache, request: Request, lookups: nat)
    requires lookups > 0 ==> StartNumber(c, request.start).Some?
                             && InRange(Pos(StartNumber(c, request.start).value, request.skip + 1, request.rising,
                                            lookups - 1))
    ensures forall op :: op in ResolveReads(c, request, lookups) ==> op.GetHeaderByHash? || op.GetHeaderByNumber?
  {
  }

  /** Resolve headers from the cache only: the maximal run from the start, and nothing changed but recency. */
  method ResolveHeadersFromCache(cache: BlockCache, request: Request)
    returns (headers: seq<Header>, ghost rounds: nat, ghost lookups: nat)
    requires cache.Valid()
    modifies cache.Repr
    ensures cache.Valid() && SameContents(old(cache.View()), cache.View())
    ensures Answers(old(cache.View()), request, headers)
    ensures |headers| <= LruCap(cache.capacity)
    ensures rounds <= |headers| + 1 && lookups <= |headers| + 1
    ensures lookups > 0 ==> StartNumber(old(cache.View()), request.start).Some?
                            && InRange(Pos(StartNumber(old(cache.View()), request.start).value, request.skip + 1,
                                           request.rising, lookups - 1))
    ensures cache.View() == Run(old(cache.View()), ResolveReads(old(cache.View()), request, lookups))
    ensures Promoted(old(cache.View()), cache.View(), headers)
    ensures StartPromoted(old(cache.View()), cache.View(), request.start)
  {
    hide Promoted, StartPromoted, MaximalRun, Pos, Run, ResolveReads, StartNumber, WellFormed;
    ghost var c := cache.View();
    var current := StartOf(cache, request);
    NothingPromoted(c, cache.View());
    ghost var d := cache.View();
    if current.Some? {
      headers, rounds, lookups := Walk(cache, current.value, request, c);
      MaximalRunBounded(c, request, headers, LruCap(cache.capacity));
      StartStaysPromoted(c, d, cache.View(), request.start);
    } else {
      headers, rounds, lookups := [], if request.limit == 0 then 0 else 1, 0;
    }
    ReadsAreReads(c, request, lookups);
    ReadsKeepContents(c, ResolveReads(c, request, lookups), LruCap(cache.capacity));
  }

  lemma StartStaysPromoted(c: Cache, d: Cache, e: Cache, start: HashOrNumber)
    requires StartPromoted(c, d, start) && e.headersByHash == d.headersByHash
    ensures StartPromoted(c, e, start)
  {
  }

  /** The number to start from; a start hash is read in the cache. */
  method StartOf(cache: BlockCache, request: Request) returns (current: Option<u64>)
    requires cache.Valid()
    modifies cache.Repr
    ensures cache.Valid()
    ensures current == StartNumber(old(cache.View()), request.start)
    ensures cache.View() == Run(old(cache.View()), ResolveReads(old(cache.View()), request, 0))
    ensures cache.View().headersByNumber == old(cache.View()).headersByNumber
    ensures StartPromoted(old(cache.View()), cache.View(), request.start)
  {
    hide Run, WellFormed, Bump, Lru.Touch;
    ghost var c := cache.View();
    StartReads(c, request);
    match request.start {
      case Number(n) => current := Some(n);
      case Hash(h) =>
        var header := cache.GetHeaderByHash(h);
        current := match header case None => None case Some(hd) => Some(hd.number);
    }
  }

  /** What finding the start does to the cache. */
  lemma StartReads(c: Cache, request: Request)
    ensures var d := if request.start.Hash? then Apply(c, Op.GetHeaderByHash(request.start.hash)) else c;
            Run(c, ResolveReads(c, request, 0)) == d && StartPromoted(c, d, request.start)
  {
    if request.start.Hash? {
      RunAppend(c, [], Op.GetHeaderByHash(request.start.hash));
      assert ResolveReads(c, request, 0) == [] + [Op.GetHeaderByHash(request.start.hash)];
    } else {
      assert ResolveReads(c, request, 0) == [];
    }
  }

  /** What the cache answers: the maximal run from the start number, or nothing when the start hash is unknown. */
  ghost predicate Answers(c: Cache, request: Request, headers: seq<Header>) {
    match StartNumber(c, request.start)
    case None => headers == []
    case Some(first) =>
      MaximalRun(c.headersByNumber.vals, first, request.skip + 1, request.rising, request.limit, headers)
  }

  /** A cached start hash: the answer is empty when headers_by_number lost its number, and otherwise starts with the
      last insert for that number. So it starts with the block of the hash exactly when that insert carried it. */
  lemma StartHashAnsweredIff(capacity: nat, ops: seq<Op>, request: Request, answer: seq<Header>)
    requires request.start.Hash? && request.limit >= 1
    requires request.start.hash in Run(New(capacity), ops).headersByHash.vals
    requires Answers(Run(New(capacity), ops), request, answer)
    ensures var c := Run(New(capacity), ops);
            var x := c.headersByHash.vals[request.start.hash];
            && (answer != [] <==> x.number in c.headersByNumber.vals)
            && (answer != [] ==> LastFor(Entries(ops), x.number).Some?)
            && (answer != [] && answer[0] == x <==>
                  x.number in c.headersByNumber.vals && LastFor(Entries(ops), x.number).value.header == x)
  {
    NumberMapsAreCoherent(capacity, ops);
    hide Run, LastFor, Entries;
    var c := Run(New(capacity), ops);
    var x := c.headersByHash.vals[request.start.hash];
    if answer != [] {
      assert CachedAt(c.headersByNumber.vals, Pos(x.number, request.skip + 1, request.rising, 0), answer[0]);
    }
  }

  lemma TwoInserts(capacity: nat, h1: B256, x: Header, h2: B256, y: Header)
    requires capacity != 1 && h1 != h2 && x.number == y.number
    ensures var c := Run(New(capacity), [InsertHeader(h1, x), InsertHeader(h2, y)]);
            c.headersByHash.Lookup(h1) == Some(x) && c.headersByNumber.Lookup(x.number) == Some(y)
  {
    var c0, o1, o2 := New(capacity), InsertHeader(h1, x), InsertHeader(h2, y);
    var c1 := Apply(c0, o1);
    RunAppend(c0, [], o1);
    RunAppend(c0, [o1], o2);
    assert [] + [o1] == [o1] && [o1] + [o2] == [o1, o2];
    PushValid(c0.headersByHash, h1, x);
    PushOther(c1.headersByHash, h2, y, h1);
    PushValid(c0.headersByNumber, x.number, x);
    PushValid(c1.headersByNumber, y.number, y);
  }

  /** Two headers of one number under two hashes: a request for the first hash is answered with the second. */
  lemma StartHashGetsSibling(capacity: nat, h1: B256, x: Header, h2: B256, y: Header, request: Request,
                             answer: seq<Header>)
    requires capacity != 1 && h1 != h2 && x.number == y.number
    requires request.start == Hash(h1) && request.limit == 1
    requires Answers(Run(New(capacity), [InsertHeader(h1, x), InsertHeader(h2, y)]), request, answer)
    ensures answer == [y]
  {
    TwoInserts(capacity, h1, x, h2, y);
    hide Run;
    var m := Run(New(capacity), [InsertHeader(h1, x), InsertHeader(h2, y)]).headersByNumber.vals;
    assert CachedAt(m, Pos(x.number, request.skip + 1, request.rising, 0), y);
    assert MaximalRun(m, x.number, request.skip + 1, request.rising, 1, answer);
    assert answer != [];
    assert CachedAt(m, Pos(x.number, request.skip + 1, request.rising, 0), answer[0]);
  }

  /** The answer in plain arithmetic: each header is held under the number skip+1 further than the one before, at most
      limit of them, and the answer stops short of the limit only where the next number is not held or is no 64-bit
      number. */
  lemma AnswerInNumbers(c: Cache, request: Request, headers: seq<Header>)
    requires Answers(c, request, headers) && NumbersMatch(c)
    ensures |headers| <= request.limit
    ensures forall i :: 0 <= i < |headers| ==>
                          var d := i * (request.skip + 1);
                          && headers[i].number
                             == (if request.rising then headers[0].number + d else headers[0].number - d)
                          && c.headersByNumber.Lookup(headers[i].number) == Some(headers[i])
    ensures headers != [] && |headers| < request.limit ==>
              var d := |headers| * (request.skip + 1);
              var next := if request.rising then headers[0].number + d else headers[0].number - d;
              0 <= next < 0x1_0000_0000_0000_0000 ==> next !in c.headersByNumber.vals
    ensures request.start.Number? && request.limit > 0 ==>
              if request.start.number in c.headersByNumber.vals
              then headers != [] && headers[0].number == request.start.number else headers == []
    ensures request.start.Hash? && request.start.hash !in c.headersByHash.vals ==> headers == []
  {
    match StartNumber(c, request.start)
    case None =>
    case Some(first) =>
      var m, step := c.headersByNumber.vals, request.skip + 1;
      assert headers != [] ==> CachedAt(m, Pos(first, step, request.rising, 0), headers[0]);
      forall i | 0 <= i < |headers|
        ensures headers[i].number == Pos(first, step, request.rising, i)
        ensures c.headersByNumber.Lookup(headers[i].number) == Some(headers[i])
      {
        assert CachedAt(m, Pos(first, step, request.rising, i), headers[i]);
      }
  }

  /** For any limit, at most capacity headers are returned. */
  lemma MaximalRunBounded(c: Cache, request: Request, headers: seq<Header>, cap: nat)
    requires WellFormed(c, cap) && Answers(c, request, headers)
    ensures |headers| <= cap
  {
    match StartNumber(c, request.start)
    case None =>
    case Some(first) => WalkBounded(c.headersByNumber, first, request.skip + 1, request.rising, headers);
  }

  function CheckedAdd(n: u64, step: nat): Option<u64> {
    if n + step < U64_RANGE then Some(n + step) else None
  }

  function CheckedSub(n: u64, step: nat): Option<u64> {
    if step <= n then Some(n - step) else None
  }
}
