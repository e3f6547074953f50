/** The header walk as other tasks see it: it takes the cache's lock once per read, so their operations, inserts of
    headers included, fall between any two of its reads. */
module HeaderWalk {
  import opened Recency
  import opened LruMap
  import opened Types
  import opened BlockCaches
  import opened Headers

  datatype Phase = Starting | Walking(current: Option<u64>) | Ended

  datatype WalkState = WalkState(cache: Cache, phase: Phase, headers: seq<Header>)

  datatype WalkStep = Read | Other(op: Op)

  function BeginWalk(c: Cache): WalkState {
    WalkState(c, Starting, [])
  }

  /** The walk's next locked call. */
  function ReadNext(request: Request, s: WalkState): WalkState {
    match s.phase
    case Starting =>
      var c := match request.start case Number(_) => s.cache case Hash(h) => Apply(s.cache, Op.GetHeaderByHash(h));
      WalkState(c, Walking(StartNumber(s.cache, request.start)), [])
    case Walking(current) =>
      if |s.headers| >= request.limit || current.None? then s.(phase := Ended)
      else
        var n := current.value;
        var c := Apply(s.cache, Op.GetHeaderByNumber(n));
        if n !in s.cache.headersByNumber.vals then WalkState(c, Ended, s.headers)
        else WalkState(c, Walking(NextNumber(n, request.skip + 1, request.rising)),
                       s.headers + [s.cache.headersByNumber.vals[n]])
    case Ended => s
  }

  function WalkOn(request: Request, s: WalkState, steps: seq<WalkStep>): WalkState {
    if steps == [] then s
    else
      var t := WalkOn(request, s, steps[..|steps| - 1]);
      match steps[|steps| - 1]
      case Read => ReadNext(request, t)
      case Other(op) => t.(cache := Apply(t.cache, op))
  }

  /** The headers other tasks insert during the walk, in order. */
  function InsertedHeaders(steps: seq<WalkStep>): seq<Header> {
    if steps == [] then []
    else
      var step := steps[|steps| - 1];
      InsertedHeaders(steps[..|steps| - 1]) + if step.Other? && BearsHeader(step.op) then [step.op.header] else []
  }

  // ---------- what the walk can find ----------

  /** Every held header was held at the start or inserted since, and is held under its own number. */
  ghost predicate Sourced(c0: Cache, c: Cache, inserted: seq<Header>) {
    && NumbersMatch(c)
    && forall n :: n in c.headersByNumber.vals ==>
         && (c0.headersByNumber.Lookup(n) == Some(c.headersByNumber.vals[n])
             || c.headersByNumber.vals[n] in inserted)
  }

  lemma ApplySourced(c0: Cache, c: Cache, cap: nat, inserted: seq<Header>, op: Op)
    requires WellFormed(c, cap) && Sourced(c0, c, inserted)
    ensures Sourced(c0, Apply(c, op), inserted + if BearsHeader(op) then [op.header] else [])
  {
    if BearsHeader(op) {
      PushVals(c.headersByNumber, op.header.number, op.header);
    } else {
      assert inserted + [] == inserted;
      match op
      case GetHeaderByNumber(n) => TouchFacts(c.headersByNumber, n);
      case _ =>
    }
  }

  /** The headers found so far are numbered as asked from the first, and the walk stands at the next number. */
  ghost predicate OnCourse(request: Request, s: WalkState) {
    && |s.headers| <= request.limit
    && (s.phase.Starting? ==> s.headers == [])
    && (forall i :: 0 <= i < |s.headers| ==>
          s.headers[i].number == Pos(s.headers[0].number, request.skip + 1, request.rising, i))
    && (s.headers != [] && s.phase.Walking? ==>
          s.phase.current == Here(s.headers[0].number, request.skip + 1, request.rising, |s.headers|))
    && (request.start.Number? ==>
          && (s.headers != [] ==> s.headers[0].number == request.start.number)
          && (s.headers == [] && s.phase.Walking? ==> s.phase.current == Some(request.start.number)))
  }

  ghost predicate WalkInv(request: Request, c0: Cache, cap: nat, s: WalkState, inserted: seq<Header>) {
    && WellFormed(s.cache, cap) && Sourced(c0, s.cache, inserted) && OnCourse(request, s)
    && forall h :: h in s.headers ==> c0.headersByNumber.Lookup(h.number) == Some(h) || h in inserted
  }

  lemma CourseGrows(request: Request, s: WalkState, t: WalkState, h: Header)
    requires OnCourse(request, s) && s.phase.Walking? && s.phase.current == Some(h.number)
    requires |s.headers| < request.limit && t.headers == s.headers + [h]
    requires t.phase == Walking(NextNumber(h.number, request.skip + 1, request.rising))
    ensures OnCourse(request, t)
  {
    var first, n := t.headers[0].number, |s.headers|;
    PosFirst(first, request.skip + 1, request.rising);
    assert Here(first, request.skip + 1, request.rising, n) == Some(h.number);
    HereStep(first, request.skip + 1, request.rising, n);
    HereIsPos(first, request.skip + 1, request.rising, n);
    hide Pos, Here, NextNumber;
  }

  lemma PosIs(step: nat, rising: bool)
    ensures forall first: u64, i: nat ::
              Pos(first, step, rising, i) == if rising then first + i * step else first - i * step
  {
  }

  lemma PosFirst(first: u64, step: nat, rising: bool)
    ensures Pos(first, step, rising, 0) == first && Here(first, step, rising, 0) == Some(first)
  {
  }

  lemma ReadKeeps(request: Request, c0: Cache, cap: nat, s: WalkState, inserted: seq<Header>)
    requires WalkInv(request, c0, cap, s, inserted)
    ensures WalkInv(request, c0, cap, ReadNext(request, s), inserted)
  {
    hide Pos, Here, NextNumber, Sourced, WellFormed, Apply;
    var t := ReadNext(request, s);
    assert inserted + [] == inserted;
    match s.phase
    case Starting =>
      if request.start.Hash? {
        ApplyWellFormed(s.cache, Op.GetHeaderByHash(request.start.hash), cap);
        ApplySourced(c0, s.cache, cap, inserted, Op.GetHeaderByHash(request.start.hash));
      }
    case Walking(current) =>
      if |s.headers| < request.limit && current.Some? {
        ApplyWellFormed(s.cache, Op.GetHeaderByNumber(current.value), cap);
        ApplySourced(c0, s.cache, cap, inserted, Op.GetHeaderByNumber(current.value));
        if current.value in s.cache.headersByNumber.vals {
          HeldSourced(c0, s.cache, inserted, current.value);
          CourseGrows(request, s, t, s.cache.headersByNumber.vals[current.value]);
        }
      }
    case Ended =>
  }

  lemma HeldSourced(c0: Cache, c: Cache, inserted: seq<Header>, n: u64)
    requires Sourced(c0, c, inserted) && n in c.headersByNumber.vals
    ensures var h := c.headersByNumber.vals[n];
            h.number == n && (c0.headersByNumber.Lookup(n) == Some(h) || h in inserted)
  {
  }

  lemma OtherKeeps(request: Request, c0: Cache, cap: nat, s: WalkState, inserted: seq<Header>, op: Op)
    requires WalkInv(request, c0, cap, s, inserted)
    ensures WalkInv(request, c0, cap, s.(cache := Apply(s.cache, op)),
                    inserted + if BearsHeader(op) then [op.header] else [])
  {
    ApplyWellFormed(s.cache, op, cap);
    ApplySourced(c0, s.cache, cap, inserted, op);
    hide Pos, Here, Sourced, WellFormed, Apply;
  }

  lemma {:induction false} WalkKeeps(request: Request, c0: Cache, cap: nat, steps: seq<WalkStep>)
    requires WellFormed(c0, cap) && NumbersMatch(c0)
    ensures WalkInv(request, c0, cap, WalkOn(request, BeginWalk(c0), steps), InsertedHeaders(steps))
  {
    hide WellFormed;
    if steps != [] {
      hide WalkInv, ReadNext, Apply;
      var g, step := steps[..|steps| - 1], steps[|steps| - 1];
      WalkKeeps(request, c0, cap, g);
      assert InsertedHeaders(g) + [] == InsertedHeaders(g);
      match step
      case Read => ReadKeeps(request, c0, cap, WalkOn(request, BeginWalk(c0), g), InsertedHeaders(g));
      case Other(op) => OtherKeeps(request, c0, cap, WalkOn(request, BeginWalk(c0), g), InsertedHeaders(g), op);
    }
  }

  // ---------- main results ----------

  lemma NumbersDiffer(request: Request, s: WalkState)
    requires OnCourse(request, s)
    ensures NoDup(NumbersOf(s.headers))
  {
    forall i, j | 0 <= i < j < |s.headers| ensures s.headers[i].number != s.headers[j].number {
      PosMonotone(s.headers[0].number, request.skip + 1, request.rising, i, j);
    }
  }

  lemma WalkSize(request: Request, c0: Cache, cap: nat, s: WalkState, inserted: seq<Header>)
    requires WalkInv(request, c0, cap, s, inserted) && WellFormed(c0, cap)
    ensures |s.headers| <= cap + |inserted|
  {
    var ns, o, late := NumbersOf(s.headers), c0.headersByNumber.order, NumbersOf(inserted);
    NumbersDiffer(request, s);
    SizeOfElems(ns);
    forall n | n in Elems(ns) ensures n in Elems(o) + Elems(late) {
      var i :| 0 <= i < |ns| && ns[i] == n;
      var h := s.headers[i];
      if h in inserted {
        var j :| 0 <= j < |inserted| && inserted[j] == h;
        assert late[j] == n;
      }
    }
    SubsetCard(Elems(ns), Elems(o) + Elems(late));
    ElemsSize(o);
    ElemsSize(late);
  }

  /** Whatever other tasks do to the cache between the reads of a walk: the answer is numbered as asked from its first
      header on, which for a start number is that number; each of its headers was held at the start or inserted
      during the walk; and it has at most capacity headers and one more for each header inserted meanwhile. */
  lemma WalkUnderInterference(capacity: nat, before: seq<Op>, request: Request, steps: seq<WalkStep>)
    ensures var c0 := BlockCaches.Run(New(capacity), before);
            var hs := WalkOn(request, BeginWalk(c0), steps).headers;
            && |hs| <= request.limit && |hs| <= LruCap(capacity) + |InsertedHeaders(steps)|
            && (forall i :: 0 <= i < |hs| ==>
                  var d := i * (request.skip + 1);
                  hs[i].number == if request.rising then hs[0].number + d else hs[0].number - d)
            && (hs != [] && request.start.Number? ==> hs[0].number == request.start.number)
            && (forall h :: h in hs ==> c0.headersByNumber.Lookup(h.number) == Some(h) || h in InsertedHeaders(steps))
  {
    hide WellFormed, BlockCaches.Run, WalkOn, Pos, Here, Sourced, NumbersMatch;
    var c0 := BlockCaches.Run(New(capacity), before);
    RunWellFormed(New(capacity), before, LruCap(capacity));
    ReachableNumbersMatch(capacity, before);
    WalkKeeps(request, c0, LruCap(capacity), steps);
    WalkSize(request, c0, LruCap(capacity), WalkOn(request, BeginWalk(c0), steps), InsertedHeaders(steps));
    PosIs(request.skip + 1, request.rising);
  }

  function ReadCount(steps: seq<WalkStep>): nat {
    if steps == [] then 0 else ReadCount(steps[..|steps| - 1]) + if steps[|steps| - 1].Read? then 1 else 0
  }

  /** Under any interference the walk ends two reads after its last header at the latest. */
  lemma {:induction false} ReadsBounded(request: Request, c0: Cache, steps: seq<WalkStep>)
    ensures var s := WalkOn(request, BeginWalk(c0), steps);
            && (s.phase.Starting? ==> s.headers == [])
            && (!s.phase.Ended? ==> ReadCount(steps) == |s.headers| + if s.phase.Starting? then 0 else 1)
  {
    if steps != [] {
      hide Apply, NextNumber;
      ReadsBounded(request, c0, steps[..|steps| - 1]);
    }
  }

  /** A read that finds a header makes its number the most recent, whatever other tasks did before. */
  lemma ReadPromotes(request: Request, s: WalkState, cap: nat)
    requires WellFormed(s.cache, cap) && NumbersMatch(s.cache)
    ensures var t := ReadNext(request, s);
            |t.headers| > |s.headers| ==>
              t.cache.headersByNumber.order == Bump(s.cache.headersByNumber.order, t.headers[|s.headers|].number)
    ensures var t := ReadNext(request, s);
            s.phase.Starting? && request.start.Hash? && request.start.hash in s.cache.headersByHash.vals ==>
              t.cache.headersByHash.order == Bump(s.cache.headersByHash.order, request.start.hash)
  {
  }

  // ---------- without interference ----------

  /** Left alone, the walk is on the maximal run. */
  ghost predicate QuietInv(request: Request, c0: Cache, s: WalkState) {
    && SameContents(c0, s.cache)
    && match s.phase
       case Starting => s.headers == []
       case Walking(current) => QuietlyAt(request, c0, s.headers, current)
       case Ended => Answers(c0, request, s.headers)
  }

  ghost predicate QuietlyAt(request: Request, c0: Cache, hs: seq<Header>, current: Option<u64>) {
    match StartNumber(c0, request.start)
    case None => current == None && hs == []
    case Some(first) =>
      && current == Here(first, request.skip + 1, request.rising, |hs|) && |hs| <= request.limit
      && RunSoFar(c0.headersByNumber.vals, first, request.skip + 1, request.rising, hs)
  }

  lemma QuietRead(request: Request, c0: Cache, s: WalkState)
    requires QuietInv(request, c0, s) && s.cache.headersByNumber.Valid() && s.cache.headersByHash.Valid()
    ensures QuietInv(request, c0, ReadNext(request, s))
  {
    var m, t := c0.headersByNumber.vals, ReadNext(request, s);
    match s.phase
    case Ended =>
    case Starting =>
      if request.start.Hash? {
        TouchFacts(s.cache.headersByHash, request.start.hash);
      }
      if StartNumber(c0, request.start).Some? {
        StartOfWalk(m, StartNumber(c0, request.start).value, request.skip + 1, request.rising);
      }
      hide Here, RunSoFar;
    case Walking(current) =>
      hide Here, RunSoFar, MaximalRun;
      if current.Some? {
        TouchFacts(s.cache.headersByNumber, current.value);
      }
      QuietWalking(request, c0, s.headers, current);
  }

  lemma QuietWalking(request: Request, c0: Cache, hs: seq<Header>, current: Option<u64>)
    requires QuietlyAt(request, c0, hs, current)
    ensures var m := c0.headersByNumber.vals;
            if |hs| >= request.limit || current.None? || current.value !in m then Answers(c0, request, hs)
            else QuietlyAt(request, c0, hs + [m[current.value]],
                           NextNumber(current.value, request.skip + 1, request.rising))
  {
    var m, step := c0.headersByNumber.vals, request.skip + 1;
    if StartNumber(c0, request.start).Some? {
      var first := StartNumber(c0, request.start).value;
      if |hs| >= request.limit || current.None? || current.value !in m {
        RunStops(m, first, step, request.rising, request.limit, hs);
      } else {
        RunGrows(m, first, step, request.rising, hs, m[current.value]);
        HereStep(first, step, request.rising, |hs|);
      }
    }
    hide Here, RunSoFar, MaximalRun, NextNumber;
  }

  /** Without interference the walk's answer is the maximal run from the start, as when it runs in one piece. */
  lemma {:induction false} QuietWalkAnswers(request: Request, c0: Cache, cap: nat, steps: seq<WalkStep>)
    requires WellFormed(c0, cap) && forall step :: step in steps ==> step.Read?
    ensures var s := WalkOn(request, BeginWalk(c0), steps);
            WellFormed(s.cache, cap) && QuietInv(request, c0, s)
    ensures WalkOn(request, BeginWalk(c0), steps).phase.Ended? ==>
              Answers(c0, request, WalkOn(request, BeginWalk(c0), steps).headers)
  {
    if steps != [] {
      hide Answers, QuietlyAt, ReadNext, Apply;
      var g := steps[..|steps| - 1];
      assert steps[|steps| - 1] in steps && forall x :: x in g ==> x in steps;
      QuietWalkAnswers(request, c0, cap, g);
      QuietRead(request, c0, WalkOn(request, BeginWalk(c0), g));
      ReadWellFormed(request, WalkOn(request, BeginWalk(c0), g), cap);
    }
  }

  lemma ReadWellFormed(request: Request, s: WalkState, cap: nat)
    requires WellFormed(s.cache, cap)
    ensures WellFormed(ReadNext(request, s).cache, cap)
  {
    if s.phase.Starting? && request.start.Hash? {
      ApplyWellFormed(s.cache, Op.GetHeaderByHash(request.start.hash), cap);
    } else if s.phase.Walking? && s.phase.current.Some? {
      ApplyWellFormed(s.cache, Op.GetHeaderByNumber(s.phase.current.value), cap);
    }
    hide WellFormed, Apply;
  }

  // ---------- an answer longer than the capacity ----------

  /** Capacity 1 with header 5 held, a rising walk from 5 for 2 headers: between its reads header 6 is imported and
      evicts 5, and the answer is both. */
  lemma InterleavedWalkExceedsCapacity(h5: B256, x5: Header, h6: B256, x6: Header, request: Request)
    requires x5.number == 5 && x6.number == 6 && request == Request(Number(5), 2, 0, true)
    ensures var c0 := Apply(New(1), InsertHeader(h5, x5));
            WalkOn(request, BeginWalk(c0), [Read] + [Read] + [Other(InsertHeader(h6, x6))] + [Read]).headers == [x5, x6]
  {
    var c0, other := Apply(New(1), InsertHeader(h5, x5)), Other(InsertHeader(h6, x6));
    var s0 := BeginWalk(c0);
    PushValid(New(1).headersByNumber, 5, x5);
    var c2 := Apply(c0, Op.GetHeaderByNumber(5));
    TouchFacts(c0.headersByNumber, 5);
    PushValid(c2.headersByNumber, 6, x6);
    var c3 := Apply(c2, InsertHeader(h6, x6));
    assert c0.headersByNumber.Lookup(5) == Some(x5) && c3.headersByNumber.Lookup(6) == Some(x6);
    assert ReadNext(request, s0) == WalkState(c0, Walking(Some(5)), []);
    hide Apply;
    assert ReadNext(request, WalkState(c0, Walking(Some(5)), [])) == WalkState(c2, Walking(Some(6)), [x5]);
    assert ReadNext(request, WalkState(c3, Walking(Some(6)), [x5])).headers == [x5, x6];
    hide ReadNext;
    WalkOnStep(request, s0, [], Read);
    WalkOnStep(request, s0, [Read], Read);
    WalkOnStep(request, s0, [Read] + [Read], other);
    WalkOnStep(request, s0, [Read] + [Read] + [other], Read);
    assert [] + [Read] == [Read];
  }

  lemma WalkOnStep(request: Request, s: WalkState, steps: seq<WalkStep>, step: WalkStep)
    ensures var t := WalkOn(request, s, steps);
            WalkOn(request, s, steps + [step])
            == match step case Read => ReadNext(request, t) case Other(op) => t.(cache := Apply(t.cache, op))
  {
    assert (steps + [step])[..|steps|] == steps;
  }
}
