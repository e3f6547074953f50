/** The block cache: four LRU maps written together that evict independently, since each get promotes
    only the map it reads. */
module BlockCaches {
  import opened Recency
  import opened LruMap
  import opened Types

  const DEFAULT_CACHE_SIZE: nat := 256

  datatype Block = Block(hash: B256, header: Header, body: Body)

  datatype Cache = Cache(
    headersByHash: Lru<B256, Header>,
    headersByNumber: Lru<u64, Header>,
    hashByNumber: Lru<u64, B256>,
    bodiesByHash: Lru<B256, Body>)

  datatype Op =
    | Insert(hash: B256, header: Header, body: Body)
    | InsertHeader(hash: B256, header: Header)
    | InsertBody(hash: B256, body: Body)
    | GetHeaderByHash(hash: B256)
    | GetHeaderByNumber(number: u64)
    | GetBodyByHash(hash: B256)
    | GetHashByNumber(number: u64)

  function LruCap(capacity: nat): nat {
    if capacity == 0 then DEFAULT_CACHE_SIZE else capacity
  }

  function New(capacity: nat): Cache {
    var cap := LruCap(capacity);
    Cache(Fresh(cap), Fresh(cap), Fresh(cap), Fresh(cap))
  }

  function PushHeader(c: Cache, hash: B256, header: Header): Cache {
    c.(headersByHash := c.headersByHash.Push(hash, header),
       headersByNumber := c.headersByNumber.Push(header.number, header),
       hashByNumber := c.hashByNumber.Push(header.number, hash))
  }

  function Apply(c: Cache, op: Op): Cache {
    match op
    case Insert(h, hd, b) => PushHeader(c, h, hd).(bodiesByHash := c.bodiesByHash.Push(h, b))
    case InsertHeader(h, hd) => PushHeader(c, h, hd)
    case InsertBody(h, b) => c.(bodiesByHash := c.bodiesByHash.Push(h, b))
    case GetHeaderByHash(h) => c.(headersByHash := c.headersByHash.Touch(h))
    case GetHeaderByNumber(n) => c.(headersByNumber := c.headersByNumber.Touch(n))
    case GetBodyByHash(h) => c.(bodiesByHash := c.bodiesByHash.Touch(h))
    case GetHashByNumber(n) => c.(hashByNumber := c.hashByNumber.Touch(n))
  }

  function Run(c: Cache, ops: seq<Op>): Cache {
    if ops == [] then c else Apply(Run(c, ops[..|ops| - 1]), ops[|ops| - 1])
  }

  ghost predicate WellFormed(c: Cache, cap: nat) {
    && c.headersByHash.Valid() && c.headersByHash.cap == cap
    && c.headersByNumber.Valid() && c.headersByNumber.cap == cap
    && c.hashByNumber.Valid() && c.hashByNumber.cap == cap
    && c.bodiesByHash.Valid() && c.bodiesByHash.cap == cap
  }

  predicate BearsHeader(op: Op) {
    op.Insert? || op.InsertHeader?
  }

  lemma PushVals<K(!new), V>(l: Lru<K, V>, k: K, v: V)
    requires l.Valid()
    ensures l.Push(k, v).Valid() && l.Push(k, v).cap == l.cap
    ensures forall x :: x in l.Push(k, v).vals ==>
                          if x == k then l.Push(k, v).vals[x] == v
                          else x in l.vals && l.Push(k, v).vals[x] == l.vals[x]
  {
    PushValid(l, k, v);
    forall x | x in l.Push(k, v).vals && x != k ensures x in l.vals && l.Push(k, v).vals[x] == l.vals[x] {
      PushOther(l, k, v, x);
    }
  }

  lemma ApplyWellFormed(c: Cache, op: Op, cap: nat)
    requires WellFormed(c, cap)
    ensures WellFormed(Apply(c, op), cap)
  {
    match op
    case Insert(h, hd, b) =>
      PushValid(c.headersByHash, h, hd);
      PushValid(c.headersByNumber, hd.number, hd);
      PushValid(c.hashByNumber, hd.number, h);
      PushValid(c.bodiesByHash, h, b);
    case InsertHeader(h, hd) =>
      PushValid(c.headersByHash, h, hd);
      PushValid(c.headersByNumber, hd.number, hd);
      PushValid(c.hashByNumber, hd.number, h);
    case InsertBody(h, b) => PushValid(c.bodiesByHash, h, b);
    case GetHeaderByHash(h) => TouchFacts(c.headersByHash, h);
    case GetHeaderByNumber(n) => TouchFacts(c.headersByNumber, n);
    case GetBodyByHash(h) => TouchFacts(c.bodiesByHash, h);
    case GetHashByNumber(n) => TouchFacts(c.hashByNumber, n);
  }

  lemma {:induction false} RunWellFormed(c: Cache, ops: seq<Op>, cap: nat)
    requires WellFormed(c, cap)
    ensures WellFormed(Run(c, ops), cap)
  {
    if ops != [] {
      RunWellFormed(c, ops[..|ops| - 1], cap);
      ApplyWellFormed(Run(c, ops[..|ops| - 1]), ops[|ops| - 1], cap);
    }
  }

  // ---------- what the maps hold, over all runs ----------

  /** The hash and header of one header-bearing insert. */
  datatype Entry = Entry(hash: B256, header: Header)

  function EntryOf(op: Op): seq<Entry> {
    if BearsHeader(op) then [Entry(op.hash, op.header)] else []
  }

  /** The header-bearing inserts of a run, in order. */
  function Entries(ops: seq<Op>): seq<Entry> {
    if ops == [] then [] else Entries(ops[..|ops| - 1]) + EntryOf(ops[|ops| - 1])
  }

  /** The last entry for block number n. */
  function LastFor(es: seq<Entry>, n: u64): (r: Option<Entry>)
    ensures r.Some? ==> r.value in es && r.value.header.number == n
  {
    if es == [] then None
    else if es[|es| - 1].header.number == n then Some(es[|es| - 1])
    else LastFor(es[..|es| - 1], n)
  }

  /** Whatever a number map still holds for n is what the last insert for n put there. */
  ghost predicate Coherent(c: Cache, es: seq<Entry>) {
    && (forall n :: n in c.headersByNumber.vals ==>
          LastFor(es, n).Some? && LastFor(es, n).value.header == c.headersByNumber.vals[n])
    && (forall n :: n in c.hashByNumber.vals ==>
          LastFor(es, n).Some? && LastFor(es, n).value.hash == c.hashByNumber.vals[n])
  }

  lemma PushHeaderCoherent(c: Cache, cap: nat, es: seq<Entry>, e: Entry)
    requires WellFormed(c, cap) && Coherent(c, es)
    ensures Coherent(PushHeader(c, e.hash, e.header), es + [e])
  {
    PushVals(c.headersByNumber, e.header.number, e.header);
    PushVals(c.hashByNumber, e.header.number, e.hash);
    forall n ensures LastFor(es + [e], n) == if n == e.header.number then Some(e) else LastFor(es, n) {
      assert (es + [e])[..|es|] == es;
    }
  }

  lemma BodyCoherent(c: Cache, es: seq<Entry>, d: Cache)
    requires Coherent(c, es)
    requires d.headersByNumber.vals == c.headersByNumber.vals && d.hashByNumber.vals == c.hashByNumber.vals
    ensures Coherent(d, es)
  {
  }

  lemma ApplyCoherent(c: Cache, cap: nat, es: seq<Entry>, op: Op)
    requires WellFormed(c, cap) && Coherent(c, es)
    ensures Coherent(Apply(c, op), es + EntryOf(op))
  {
    hide Coherent;
    if BearsHeader(op) {
      PushHeaderCoherent(c, cap, es, Entry(op.hash, op.header));
      BodyCoherent(PushHeader(c, op.hash, op.header), es + EntryOf(op), Apply(c, op));
    } else {
      assert es + EntryOf(op) == es;
      BodyCoherent(c, es, Apply(c, op));
    }
  }

  /** Coherence under independent eviction, in every reachable state: a number found in both number maps
      carries the header and the hash of one and the same insert, the last one for that number. */
  lemma {:induction false} NumberMapsAreCoherent(capacity: nat, ops: seq<Op>)
    ensures WellFormed(Run(New(capacity), ops), LruCap(capacity))
    ensures Coherent(Run(New(capacity), ops), Entries(ops))
  {
    hide Apply, EntryOf;
    RunWellFormed(New(capacity), ops, LruCap(capacity));
    if ops != [] {
      var g := ops[..|ops| - 1];
      NumberMapsAreCoherent(capacity, g);
      ApplyCoherent(Run(New(capacity), g), LruCap(capacity), Entries(g), ops[|ops| - 1]);
    }
  }

  /** Each header is held under its own number. */
  ghost predicate NumbersMatch(c: Cache) {
    forall n :: n in c.headersByNumber.vals ==> c.headersByNumber.vals[n].number == n
  }

  lemma ReachableNumbersMatch(capacity: nat, ops: seq<Op>)
    ensures NumbersMatch(Run(New(capacity), ops))
  {
    NumberMapsAreCoherent(capacity, ops);
  }

  /** Two inserts under one hash carry one header. */
  ghost predicate HashDeterminesHeader(es: seq<Entry>) {
    forall a, b :: a in es && b in es && a.hash == b.hash ==> a.header == b.header
  }

  ghost predicate HashMapFrom(c: Cache, es: seq<Entry>) {
    forall h :: h in c.headersByHash.vals ==> Entry(h, c.headersByHash.vals[h]) in es
  }

  lemma PushHeaderHashMapFrom(c: Cache, es: seq<Entry>, e: Entry)
    requires c.headersByHash.Valid() && HashMapFrom(c, es)
    ensures HashMapFrom(PushHeader(c, e.hash, e.header), es + [e])
  {
    PushVals(c.headersByHash, e.hash, e.header);
  }

  lemma ApplyHashMapFrom(c: Cache, cap: nat, es: seq<Entry>, op: Op)
    requires WellFormed(c, cap) && HashMapFrom(c, es)
    ensures HashMapFrom(Apply(c, op), es + EntryOf(op))
  {
    if BearsHeader(op) {
      PushHeaderHashMapFrom(c, es, Entry(op.hash, op.header));
    }
  }

  lemma {:induction false} HashMapComesFromInserts(capacity: nat, ops: seq<Op>)
    ensures HashMapFrom(Run(New(capacity), ops), Entries(ops))
  {
    hide Apply, EntryOf;
    if ops != [] {
      var g := ops[..|ops| - 1];
      RunWellFormed(New(capacity), g, LruCap(capacity));
      HashMapComesFromInserts(capacity, g);
      ApplyHashMapFrom(Run(New(capacity), g), LruCap(capacity), Entries(g), ops[|ops| - 1]);
    }
  }

  /** Cross-index agreement: the header found through a number's hash is the header found by the number. */
  lemma IndexesAgree(capacity: nat, ops: seq<Op>, n: u64)
    requires HashDeterminesHeader(Entries(ops))
    ensures var c := Run(New(capacity), ops);
            n in c.headersByNumber.vals && n in c.hashByNumber.vals && c.hashByNumber.vals[n] in c.headersByHash.vals
            ==> c.headersByHash.vals[c.hashByNumber.vals[n]] == c.headersByNumber.vals[n]
  {
    NumberMapsAreCoherent(capacity, ops);
    HashMapComesFromInserts(capacity, ops);
  }

  /** While nobody reads by number, the two number maps hold the same numbers in the same order. */
  lemma {:induction false} NumberMapsInLockstep(capacity: nat, ops: seq<Op>)
    requires forall op :: op in ops ==> !op.GetHeaderByNumber? && !op.GetHashByNumber?
    ensures var c := Run(New(capacity), ops);
            && c.headersByNumber.order == c.hashByNumber.order
            && c.headersByNumber.vals.Keys == c.hashByNumber.vals.Keys
  {
    RunWellFormed(New(capacity), ops, LruCap(capacity));
    var d := Run(New(capacity), ops);
    if ops != [] {
      var g, op := ops[..|ops| - 1], ops[|ops| - 1];
      assert op in ops && forall o :: o in g ==> o in ops;
      var c := Run(New(capacity), g);
      RunWellFormed(New(capacity), g, LruCap(capacity));
      NumberMapsInLockstep(capacity, g);
      if BearsHeader(op) {
        PushValid(c.headersByNumber, op.header.number, op.header);
        PushValid(c.hashByNumber, op.header.number, op.hash);
      }
    }
    assert Elems(d.headersByNumber.order) == Elems(d.hashByNumber.order);
  }

  // ---------- the latest block ----------

  function MaxNumber(s: seq<u64>): (m: u64)
    requires s != []
    ensures m in s && forall x :: x in s ==> x <= m
  {
    if |s| == 1 then s[0]
    else
      var m := MaxNumber(s[1..]);
      assert s == [s[0]] + s[1..];
      if s[0] > m then s[0] else m
  }

  function Latest(c: Cache): Option<(B256, Header)> {
    if c.hashByNumber.order == [] then None
    else
      var n := MaxNumber(c.hashByNumber.order);
      if n in c.headersByNumber.vals && n in c.hashByNumber.vals
      then Some((c.hashByNumber.vals[n], c.headersByNumber.vals[n])) else None
  }

  /** latest() is fixed by any number held in both number maps that no held number exceeds. */
  lemma LatestAt(c: Cache, n: u64)
    requires c.hashByNumber.Valid()
    requires n in c.hashByNumber.vals && n in c.headersByNumber.vals
    requires forall m :: m in c.hashByNumber.vals ==> m <= n
    ensures Latest(c) == Some((c.hashByNumber.vals[n], c.headersByNumber.vals[n]))
  {
    var o := c.hashByNumber.order;
    assert n in Elems(o);
    assert MaxNumber(o) in Elems(o);
  }

  /** Header-bearing inserts come with strictly increasing block numbers. */
  ghost predicate Rising(es: seq<Entry>) {
    forall i, j :: 0 <= i < j < |es| ==> es[i].header.number < es[j].header.number
  }

  ghost predicate AtTip(c: Cache, tip: Entry) {
    var n := tip.header.number;
    && n in c.hashByNumber.vals && c.hashByNumber.vals[n] == tip.hash
    && n in c.headersByNumber.vals && c.headersByNumber.vals[n] == tip.header
    && forall m :: m in c.hashByNumber.vals ==> m <= n
  }

  /** Either nothing was inserted yet, or the cache is at the tip set by the last entry. */
  ghost predicate Follows(c: Cache, es: seq<Entry>) {
    if es == [] then c.hashByNumber.vals == map[] && c.hashByNumber.order == [] else AtTip(c, es[|es| - 1])
  }

  lemma PushHeaderFollows(c: Cache, es: seq<Entry>, e: Entry)
    requires c.headersByNumber.Valid() && c.hashByNumber.Valid()
    requires Follows(c, es) && Rising(es + [e])
    ensures Follows(PushHeader(c, e.hash, e.header), es + [e])
  {
    PushValid(c.headersByNumber, e.header.number, e.header);
    PushValid(c.hashByNumber, e.header.number, e.hash);
    PushVals(c.hashByNumber, e.header.number, e.hash);
    if es != [] {
      assert (es + [e])[|es| - 1] == es[|es| - 1];
      assert (es + [e])[|es|] == e;
    }
  }

  lemma ApplyFollows(c: Cache, cap: nat, es: seq<Entry>, op: Op)
    requires WellFormed(c, cap) && Follows(c, es) && Rising(es + EntryOf(op))
    ensures Follows(Apply(c, op), es + EntryOf(op))
  {
    if BearsHeader(op) {
      PushHeaderFollows(c, es, Entry(op.hash, op.header));
    } else {
      assert es + EntryOf(op) == es;
    }
  }

  lemma {:induction false} RunFollows(capacity: nat, ops: seq<Op>)
    requires Rising(Entries(ops))
    ensures Follows(Run(New(capacity), ops), Entries(ops))
  {
    hide Apply, EntryOf;
    if ops != [] {
      var g := ops[..|ops| - 1];
      assert Entries(g) == Entries(ops)[..|Entries(g)|];
      RunWellFormed(New(capacity), g, LruCap(capacity));
      RunFollows(capacity, g);
      ApplyFollows(Run(New(capacity), g), LruCap(capacity), Entries(g), ops[|ops| - 1]);
    }
  }

  /** Following the tip: with strictly increasing numbers, whatever gets and body inserts come between,
      latest() is exactly the hash and header of the last header-bearing insert. */
  lemma LatestFollowsTip(capacity: nat, ops: seq<Op>)
    requires Rising(Entries(ops))
    ensures var es := Entries(ops);
            Latest(Run(New(capacity), ops)) ==
              if es == [] then None else Some((es[|es| - 1].hash, es[|es| - 1].header))
  {
    RunFollows(capacity, ops);
    RunWellFormed(New(capacity), ops, LruCap(capacity));
    var es := Entries(ops);
    if es != [] {
      LatestAt(Run(New(capacity), ops), es[|es| - 1].header.number);
    }
  }

  /** Without reads by number, latest() is None only on a cache without headers, and otherwise is the last
      insert for the largest number held. */
  lemma LatestWithoutNumberReads(capacity: nat, ops: seq<Op>)
    requires forall op :: op in ops ==> !op.GetHeaderByNumber? && !op.GetHashByNumber?
    ensures var c := Run(New(capacity), ops);
            && (Latest(c).None? ==> c.headersByNumber.order == [] && c.hashByNumber.order == [])
            && (Latest(c).Some? ==>
                  var n := Latest(c).value.1.number;
                  && n in c.hashByNumber.vals
                  && (forall m :: m in c.hashByNumber.vals ==> m <= n)
                  && LastFor(Entries(ops), n) == Some(Entry(Latest(c).value.0, Latest(c).value.1)))
  {
    var c := Run(New(capacity), ops);
    NumberMapsInLockstep(capacity, ops);
    NumberMapsAreCoherent(capacity, ops);
    var o := c.hashByNumber.order;
    if o != [] {
      assert MaxNumber(o) in Elems(o);
      forall m | m in c.hashByNumber.vals ensures m <= MaxNumber(o) {
        assert m in Elems(o);
      }
    }
  }

  // ---------- exactly when latest() is the highest cached block ----------

  lemma NonEmptyAfterPush<V>(l: Lru<u64, V>, n: u64, v: V)
    requires l.Valid()
    ensures l.Push(n, v).order != []
  {
    PushValid(l, n, v);
    assert n in Elems(l.Push(n, v).order);
  }

  lemma NonEmptyAfterTouch<V>(l: Lru<u64, V>, n: u64)
    requires l.Valid() && l.order != []
    ensures l.Touch(n).order != []
  {
    TouchFacts(l, n);
  }

  /** Once a header-bearing insert ran, neither number map is ever empty again. */
  lemma {:induction false} NumberMapsStayNonEmpty(capacity: nat, ops: seq<Op>)
    requires Entries(ops) != []
    ensures var c := Run(New(capacity), ops);
            c.headersByNumber.order != [] && c.hashByNumber.order != []
  {
    var g, op := ops[..|ops| - 1], ops[|ops| - 1];
    var c := Run(New(capacity), g);
    RunWellFormed(New(capacity), g, LruCap(capacity));
    if BearsHeader(op) {
      NonEmptyAfterPush(c.headersByNumber, op.header.number, op.header);
      NonEmptyAfterPush(c.hashByNumber, op.header.number, op.hash);
    } else {
      NumberMapsStayNonEmpty(capacity, g);
      match op
      case GetHeaderByNumber(n) => NonEmptyAfterTouch(c.headersByNumber, n);
      case GetHashByNumber(n) => NonEmptyAfterTouch(c.hashByNumber, n);
      case _ =>
    }
  }

  lemma HeldNumber<V>(l: Lru<u64, V>)
    requires l.Valid() && l.order != []
    ensures MaxNumber(l.order) in l.vals && forall k :: k in l.vals ==> k <= MaxNumber(l.order)
  {
    assert MaxNumber(l.order) in Elems(l.order);
    forall k | k in l.vals ensures k <= MaxNumber(l.order) {
      assert k in Elems(l.order);
    }
  }

  /** In every state after a header-bearing insert, n being the highest number a header is held for: latest() is
      the last insert for n if and only if n is also the highest number a hash is held for. Otherwise it is None,
      when the header of that number is not held, or the last insert for a lower number. */
  lemma LatestIsHighestIff(capacity: nat, ops: seq<Op>)
    requires Entries(ops) != []
    ensures var c := Run(New(capacity), ops);
            && c.headersByNumber.order != [] && c.hashByNumber.order != []
            && var n, k := MaxNumber(c.headersByNumber.order), MaxNumber(c.hashByNumber.order);
            && LastFor(Entries(ops), n).Some?
            && var e := LastFor(Entries(ops), n).value;
            && (Latest(c) == Some((e.hash, e.header)) <==> n == k)
            && (Latest(c).None? <==> k !in c.headersByNumber.vals)
            && (Latest(c).Some? && n != k ==>
                  k < n && LastFor(Entries(ops), k) == Some(Entry(Latest(c).value.0, Latest(c).value.1)))
  {
    var c := Run(New(capacity), ops);
    NumberMapsStayNonEmpty(capacity, ops);
    NumberMapsAreCoherent(capacity, ops);
    HeldNumber(c.headersByNumber);
    HeldNumber(c.hashByNumber);
    hide MaxNumber, Run;
  }

  // ---------- the same condition in terms of the operations ----------

  /** What a run does to headers_by_number. */
  function HeaderNumberOps(ops: seq<Op>): seq<LruOp<u64, Header>> {
    if ops == [] then []
    else
      HeaderNumberOps(ops[..|ops| - 1])
      + match ops[|ops| - 1]
        case Insert(_, hd, _) => [LruOp.Push(hd.number, hd)]
        case InsertHeader(_, hd) => [LruOp.Push(hd.number, hd)]
        case GetHeaderByNumber(n) => [LruOp.Get(n)]
        case _ => []
  }

  /** What a run does to hash_by_number. */
  function HashNumberOps(ops: seq<Op>): seq<LruOp<u64, B256>> {
    if ops == [] then []
    else
      HashNumberOps(ops[..|ops| - 1])
      + match ops[|ops| - 1]
        case Insert(h, hd, _) => [LruOp.Push(hd.number, h)]
        case InsertHeader(h, hd) => [LruOp.Push(hd.number, h)]
        case GetHashByNumber(n) => [LruOp.Get(n)]
        case _ => []
  }

  /** What a run does to headers_by_hash. */
  function HeaderHashOps(ops: seq<Op>): seq<LruOp<B256, Header>> {
    if ops == [] then []
    else
      HeaderHashOps(ops[..|ops| - 1])
      + match ops[|ops| - 1]
        case Insert(h, hd, _) => [LruOp.Push(h, hd)]
        case InsertHeader(h, hd) => [LruOp.Push(h, hd)]
        case GetHeaderByHash(h) => [LruOp.Get(h)]
        case _ => []
  }

  /** What a run does to bodies_by_hash. */
  function BodyHashOps(ops: seq<Op>): seq<LruOp<B256, Body>> {
    if ops == [] then []
    else
      BodyHashOps(ops[..|ops| - 1])
      + match ops[|ops| - 1]
        case Insert(h, _, b) => [LruOp.Push(h, b)]
        case InsertBody(h, b) => [LruOp.Push(h, b)]
        case GetBodyByHash(h) => [LruOp.Get(h)]
        case _ => []
  }

  lemma RunOpsStep<K(!new), V>(l: Lru<K, V>, ops: seq<LruOp<K, V>>, more: seq<LruOp<K, V>>)
    requires |more| <= 1
    ensures RunOps(l, ops + more) == if more == [] then RunOps(l, ops) else ApplyOp(RunOps(l, ops), more[0])
  {
    if more == [] {
      assert ops + more == ops;
    } else {
      assert (ops + more)[..|ops|] == ops;
    }
  }

  /** The two number maps evolve on their own, each by its own pushes and gets. */
  lemma {:induction false} NumberMapsByOps(capacity: nat, ops: seq<Op>)
    ensures var c := Run(New(capacity), ops);
            && c.headersByNumber == RunOps(Fresh(LruCap(capacity)), HeaderNumberOps(ops))
            && c.hashByNumber == RunOps(Fresh(LruCap(capacity)), HashNumberOps(ops))
  {
    if ops != [] {
      var g := ops[..|ops| - 1];
      var d, h := HeaderNumberOps(g), HashNumberOps(g);
      NumberMapsByOps(capacity, g);
      RunOpsStep(Fresh(LruCap(capacity)), d, HeaderNumberOps(ops)[|d|..]);
      RunOpsStep(Fresh(LruCap(capacity)), h, HashNumberOps(ops)[|h|..]);
    }
  }

  /** And so do the two hash maps. */
  lemma {:induction false} HashMapsByOps(capacity: nat, ops: seq<Op>)
    ensures var c := Run(New(capacity), ops);
            && c.headersByHash == RunOps(Fresh(LruCap(capacity)), HeaderHashOps(ops))
            && c.bodiesByHash == RunOps(Fresh(LruCap(capacity)), BodyHashOps(ops))
  {
    if ops != [] {
      var g := ops[..|ops| - 1];
      var x, b := HeaderHashOps(g), BodyHashOps(g);
      HashMapsByOps(capacity, g);
      RunOpsStep(Fresh(LruCap(capacity)), x, HeaderHashOps(ops)[|x|..]);
      RunOpsStep(Fresh(LruCap(capacity)), b, BodyHashOps(ops)[|b|..]);
    }
  }

  lemma HeldIffRecent<K(!new), V>(cap: nat, ops: seq<LruOp<K, V>>, k: K)
    requires 1 <= cap
    ensures k in RunOps(Fresh(cap), ops).vals <==> Recently(Touches<K, V>(Fresh(cap), ops), cap, k)
    ensures k in RunOps(Fresh(cap), ops).vals ==> LastPushed(ops, k) == Some(RunOps(Fresh(cap), ops).vals[k])
  {
    var l := RunOps<K, V>(Fresh(cap), ops);
    KeepsMostRecent(cap, ops);
    StackDistance(Touches<K, V>(Fresh(cap), ops), cap, k);
    assert k in l.vals <==> k in Elems(l.order);
  }

  /** Over every history a hash is held in a hash map if and only if its last push or successful get there was
      followed by fewer than capacity other hashes, and it has what was last pushed for it. */
  lemma HashHeldIffRecent(capacity: nat, ops: seq<Op>, h: B256)
    ensures var c, cap := Run(New(capacity), ops), LruCap(capacity);
            && (h in c.headersByHash.vals
                <==> Recently(Touches<B256, Header>(Fresh(cap), HeaderHashOps(ops)), cap, h))
            && (h in c.bodiesByHash.vals
                <==> Recently(Touches<B256, Body>(Fresh(cap), BodyHashOps(ops)), cap, h))
            && (h in c.headersByHash.vals ==> LastPushed(HeaderHashOps(ops), h) == Some(c.headersByHash.vals[h]))
            && (h in c.bodiesByHash.vals ==> LastPushed(BodyHashOps(ops), h) == Some(c.bodiesByHash.vals[h]))
  {
    hide Recently, Touches, RunOps, Run, HeaderHashOps, BodyHashOps, LastPushed;
    HashMapsByOps(capacity, ops);
    HeldIffRecent(LruCap(capacity), HeaderHashOps(ops), h);
    HeldIffRecent(LruCap(capacity), BodyHashOps(ops), h);
  }

  // ---------- what a get protects ----------

  /** k is held, and at most n keys are more recent. */
  ghost predicate Within<K(!new), V>(l: Lru<K, V>, k: K, n: nat) {
    l.Valid() && k in l.vals && |Above(l.order, k)| <= n
  }

  lemma PushWithin<K(!new), V>(l: Lru<K, V>, k: K, n: nat, x: K, v: V)
    requires Within(l, k, n) && n + 1 < l.cap
    ensures Within(l.Push(x, v), k, n + 1)
  {
    PushValid(l, x, v);
    if x != k {
      PushOther(l, x, v, k);
    }
  }

  lemma TouchWithin<K(!new), V>(l: Lru<K, V>, k: K, n: nat, x: K)
    requires Within(l, k, n)
    ensures Within(l.Touch(x), k, n + 1) && Within(l.Touch(k), k, 0)
  {
    TouchFacts(l, x);
    TouchFacts(l, k);
    TouchAbove(l, k, k);
    if x in l.vals {
      TouchAbove(l, x, k);
    }
  }

  /** In the map the get reads its key is held with at most n more recent ones. */
  ghost predicate Guarded(c: Cache, get: Op, n: nat) {
    match get
    case GetHeaderByHash(h) => Within(c.headersByHash, h, n)
    case GetHeaderByNumber(m) => Within(c.headersByNumber, m, n)
    case GetHashByNumber(m) => Within(c.hashByNumber, m, n)
    case GetBodyByHash(h) => Within(c.bodiesByHash, h, n)
    case _ => true
  }

  lemma ApplyGuarded(c: Cache, get: Op, n: nat, op: Op, cap: nat)
    requires WellFormed(c, cap) && Guarded(c, get, n) && n + 1 < cap
    ensures Guarded(Apply(c, op), get, n + 1)
  {
    hide Within, Lru.Push, Lru.Touch;
    WithinMore(c, get, n);
    match op
    case GetHeaderByHash(h) => if get.GetHeaderByHash? { TouchWithin(c.headersByHash, get.hash, n, h); }
    case GetHeaderByNumber(m) => if get.GetHeaderByNumber? { TouchWithin(c.headersByNumber, get.number, n, m); }
    case GetHashByNumber(m) => if get.GetHashByNumber? { TouchWithin(c.hashByNumber, get.number, n, m); }
    case GetBodyByHash(h) => if get.GetBodyByHash? { TouchWithin(c.bodiesByHash, get.hash, n, h); }
    case InsertBody(h, b) => if get.GetBodyByHash? { PushWithin(c.bodiesByHash, get.hash, n, h, b); }
    case Insert(h, hd, b) =>
      PushHeaderGuarded(c, get, n, h, hd);
      if get.GetBodyByHash? {
        PushWithin(c.bodiesByHash, get.hash, n, h, b);
      }
    case InsertHeader(h, hd) => PushHeaderGuarded(c, get, n, h, hd);
  }

  lemma PushHeaderGuarded(c: Cache, get: Op, n: nat, h: B256, hd: Header)
    requires c.headersByHash.cap == c.headersByNumber.cap == c.hashByNumber.cap
    requires Guarded(c, get, n) && n + 1 < c.headersByHash.cap
    ensures Guarded(PushHeader(c, h, hd), get, n + 1)
  {
    match get
    case GetHeaderByHash(k) => PushWithin(c.headersByHash, k, n, h, hd);
    case GetHeaderByNumber(m) => PushWithin(c.headersByNumber, m, n, hd.number, hd);
    case GetHashByNumber(m) => PushWithin(c.hashByNumber, m, n, hd.number, h);
    case _ => WithinMore(c, get, n);
  }

  lemma WithinMore(c: Cache, get: Op, n: nat)
    requires Guarded(c, get, n)
    ensures Guarded(c, get, n + 1)
  {
  }

  /** The get names a key its map holds. */
  predicate Finds(c: Cache, get: Op) {
    match get
    case GetHeaderByHash(h) => h in c.headersByHash.vals
    case GetHeaderByNumber(m) => m in c.headersByNumber.vals
    case GetHashByNumber(m) => m in c.hashByNumber.vals
    case GetBodyByHash(h) => h in c.bodiesByHash.vals
    case _ => false
  }

  lemma {:induction false} GuardedThrough(c: Cache, get: Op, after: seq<Op>, cap: nat)
    requires WellFormed(c, cap) && Guarded(c, get, 0) && |after| < cap
    ensures Guarded(Run(c, after), get, |after|)
  {
    hide Guarded, Apply, WellFormed;
    if after != [] {
      var g := after[..|after| - 1];
      GuardedThrough(c, get, g, cap);
      RunWellFormed(c, g, cap);
      ApplyGuarded(Run(c, g), get, |g|, after[|g|], cap);
    }
  }

  lemma GetGuards(c: Cache, get: Op, cap: nat)
    requires WellFormed(c, cap) && Finds(c, get)
    ensures Guarded(Apply(c, get), get, 0)
  {
    match get
    case GetHeaderByHash(h) => GetWithin(c.headersByHash, h);
    case GetHeaderByNumber(m) => GetWithin(c.headersByNumber, m);
    case GetHashByNumber(m) => GetWithin(c.hashByNumber, m);
    case GetBodyByHash(h) => GetWithin(c.bodiesByHash, h);
  }

  lemma GetWithin<K(!new), V>(l: Lru<K, V>, k: K)
    requires l.Valid() && k in l.vals
    ensures Within(l.Touch(k), k, 0)
  {
    TouchFacts(l, k);
    TouchAbove(l, k, k);
  }

  /** A get that finds its key protects it in that map: whatever fewer than capacity operations follow, the key is
      still held. */
  lemma GetProtects(capacity: nat, before: seq<Op>, get: Op, after: seq<Op>)
    requires Finds(Run(New(capacity), before), get) && |after| < LruCap(capacity)
    ensures Finds(Run(Apply(Run(New(capacity), before), get), after), get)
  {
    var c, cap := Run(New(capacity), before), LruCap(capacity);
    hide Run, Apply;
    RunWellFormed(New(capacity), before, cap);
    ApplyWellFormed(c, get, cap);
    GetGuards(c, get, cap);
    GuardedThrough(Apply(c, get), get, after, cap);
  }

  /** latest() is the last insert for n, and n the highest number a header is held for, if and only if each number
      map touched n, and since then fewer than its capacity of other numbers, and did that for no higher number. */
  lemma LatestIffRecent(capacity: nat, ops: seq<Op>, n: u64)
    ensures var c, cap := Run(New(capacity), ops), LruCap(capacity);
            var headers := Touches<u64, Header>(Fresh(cap), HeaderNumberOps(ops));
            var hashes := Touches<u64, B256>(Fresh(cap), HashNumberOps(ops));
            && c.headersByNumber.order != [] && n == MaxNumber(c.headersByNumber.order)
            && LastFor(Entries(ops), n).Some?
            && Latest(c) == Some((LastFor(Entries(ops), n).value.hash, LastFor(Entries(ops), n).value.header))
            <==>
            && Recently(headers, cap, n) && Recently(hashes, cap, n)
            && forall k: u64 :: n < k ==> !Recently(headers, cap, k) && !Recently(hashes, cap, k)
  {
    hide Recently, Touches, RunOps, MaxNumber, Run, Latest, LastFor, Entries, HeaderNumberOps, HashNumberOps;
    var c, cap := Run(New(capacity), ops), LruCap(capacity);
    NumberMapsByOps(capacity, ops);
    forall k: u64
      ensures k in c.headersByNumber.vals <==> Recently(Touches<u64, Header>(Fresh(cap), HeaderNumberOps(ops)), cap, k)
      ensures k in c.hashByNumber.vals <==> Recently(Touches<u64, B256>(Fresh(cap), HashNumberOps(ops)), cap, k)
    {
      HeldIffRecent(cap, HeaderNumberOps(ops), k);
      HeldIffRecent(cap, HashNumberOps(ops), k);
    }
    LatestIffTop(capacity, ops, n);
  }

  lemma NothingForNone(n: u64)
    ensures LastFor([], n) == None
  {
  }

  lemma LatestIffTop(capacity: nat, ops: seq<Op>, n: u64)
    ensures var c := Run(New(capacity), ops);
            && c.headersByNumber.order != [] && n == MaxNumber(c.headersByNumber.order)
            && LastFor(Entries(ops), n).Some?
            && Latest(c) == Some((LastFor(Entries(ops), n).value.hash, LastFor(Entries(ops), n).value.header))
            <==>
            && n in c.headersByNumber.vals && n in c.hashByNumber.vals
            && forall k :: n < k ==> k !in c.headersByNumber.vals && k !in c.hashByNumber.vals
  {
    hide MaxNumber, Run, Latest, LastFor;
    var c := Run(New(capacity), ops);
    NumberMapsAreCoherent(capacity, ops);
    if Entries(ops) != [] {
      LatestIsHighestIff(capacity, ops);
      HeldNumber(c.headersByNumber);
      HeldNumber(c.hashByNumber);
    } else {
      NothingForNone(n);
    }
  }

  lemma PushPair<V>(a: u64, va: V, b: u64, vb: V)
    requires a != b
    ensures Fresh<u64, V>(2).Push(a, va).Push(b, vb) == Lru(2, [b, a], map[a := va, b := vb])
  {
    var l0 := Fresh<u64, V>(2);
    PushRoom(l0, a, va);
    var l1 := l0.Push(a, va);
    assert l1 == Lru(2, [a], map[a := va]);
    PushValid(l0, a, va);
    PushRoom(l1, b, vb);
    assert Remove<u64>([a], b) == [a] + Remove<u64>([], b);
  }

  /** A third key pushed into a full cache of two. */
  lemma PushThird<V>(a: u64, va: V, b: u64, vb: V, k: u64, v: V)
    requires a != b && a != k && b != k
    ensures var l: Lru<u64, V> := Lru(2, [a, b], map[a := va, b := vb]);
            l.Push(k, v) == Lru(2, [k, a], map[a := va, k := v])
  {
    var l: Lru<u64, V> := Lru(2, [a, b], map[a := va, b := vb]);
    assert l.Valid();
    PushFull(l, k, v);
    assert map[a := va, b := vb] - {b} == map[a := va];
  }

  /** Two keys, then a third: the first is evicted, or the second if the first was read in between. */
  lemma PushPairThird<V>(a: u64, va: V, b: u64, vb: V, k: u64, v: V)
    requires a != b && a != k && b != k
    ensures var l := Fresh<u64, V>(2).Push(a, va).Push(b, vb);
            && l.Push(k, v) == Lru(2, [k, b], map[b := vb, k := v])
            && l.Touch(a).Push(k, v) == Lru(2, [k, a], map[a := va, k := v])
  {
    PushPair(a, va, b, vb);
    assert map[a := va, b := vb] == map[b := vb, a := va];
    PushThird(b, vb, a, va, k, v);
    var l: Lru<u64, V> := Lru(2, [b, a], map[a := va, b := vb]);
    var o: seq<u64> := [b, a];
    assert o[1..] == [a] && Remove([a], a) == [];
    assert l.Touch(a) == Lru(2, [a, b], map[a := va, b := vb]);
    PushThird(a, va, b, vb, k, v);
  }

  lemma InsertNumbers(c: Cache, h: B256, x: Header, b: Body)
    ensures var d := Apply(c, Insert(h, x, b));
            && d.headersByNumber == c.headersByNumber.Push(x.number, x)
            && d.hashByNumber == c.hashByNumber.Push(x.number, h)
  {
  }

  lemma ReadNumber(c: Cache, n: u64)
    ensures var d := Apply(c, Op.GetHeaderByNumber(n));
            d.headersByNumber == c.headersByNumber.Touch(n) && d.hashByNumber == c.hashByNumber
  {
  }

  /** Capacity 2: insert x, insert y, read the header of x by number, insert z: each number map evicted another. */
  lemma ReadBetween(hx: B256, x: Header, hy: B256, y: Header, hz: B256, z: Header, b: Body)
    requires x.number != y.number && x.number != z.number && y.number != z.number
    ensures var c := Run(New(2), [Insert(hx, x, b), Insert(hy, y, b),
                                  Op.GetHeaderByNumber(x.number), Insert(hz, z, b)]);
            && c.headersByNumber == Lru(2, [z.number, x.number], map[x.number := x, z.number := z])
            && c.hashByNumber == Lru(2, [z.number, y.number], map[y.number := hy, z.number := hz])
  {
    var ox, oy, r, oz := Insert(hx, x, b), Insert(hy, y, b), Op.GetHeaderByNumber(x.number), Insert(hz, z, b);
    FourOps(New(2), ox, oy, r, oz);
    var cx := Apply(New(2), ox);
    InsertNumbers(New(2), hx, x, b);
    InsertNumbers(cx, hy, y, b);
    ReadNumber(Apply(cx, oy), x.number);
    InsertNumbers(Apply(Apply(cx, oy), r), hz, z, b);
    hide Run, Apply, Lru.Push, Lru.Touch;
    PushPairThird(x.number, x, y.number, y, z.number, z);
    PushPairThird(x.number, hx, y.number, hy, z.number, hz);
  }

  /** Capacity 2: insert 1, insert 5, read header 1, insert 2. Number 5 is then in hash_by_number only, so
      latest() is None on a cache that holds two headers. */
  lemma LatestCanBeLostAfterReads(h: B256, b: Body)
    ensures var c := Run(New(2), [Insert(h, Header(1, []), b), Insert(h, Header(5, []), b),
                                  Op.GetHeaderByNumber(1), Insert(h, Header(2, []), b)]);
            Latest(c) == None && c.headersByNumber.order == [2, 1] && c.hashByNumber.order == [2, 5]
  {
    ReadBetween(h, Header(1, []), h, Header(5, []), h, Header(2, []), b);
    MaxOfTwo(2, 5);
    hide Run;
  }

  /** Capacity 2: insert 9, insert 1, read header 9, insert 2. latest() is then block 2, although header 9 is
      still held by its number. */
  lemma LatestCanBeLowerAfterReads(h9: B256, h1: B256, h2: B256, b: Body)
    ensures var c := Run(New(2), [Insert(h9, Header(9, []), b), Insert(h1, Header(1, []), b),
                                  Op.GetHeaderByNumber(9), Insert(h2, Header(2, []), b)]);
            && Latest(c) == Some((h2, Header(2, [])))
            && c.headersByNumber.Lookup(9) == Some(Header(9, []))
  {
    ReadBetween(h9, Header(9, []), h1, Header(1, []), h2, Header(2, []), b);
    MaxOfTwo(2, 1);
    hide Run;
  }

  lemma MaxOfTwo(a: u64, b: u64)
    ensures MaxNumber([a, b]) == if a > b then a else b
  {
    var o: seq<u64> := [a, b];
    assert o[1..] == [b] && MaxNumber([b]) == b;
  }

  lemma FourOps(c: Cache, a: Op, b: Op, d: Op, e: Op)
    ensures Run(c, [a, b, d, e]) == Apply(Apply(Apply(Apply(c, a), b), d), e)
  {
    assert [a][..0] == [] && [a, b][..1] == [a] && [a, b, d][..2] == [a, b] && [a, b, d, e][..3] == [a, b, d];
    assert Run(c, [a]) == Apply(c, a);
    assert Run(c, [a, b]) == Apply(Apply(c, a), b);
    assert Run(c, [a, b, d]) == Apply(Apply(Apply(c, a), b), d);
  }

  // ---------- the cache object ----------

  class BlockCache {
    const headersByHash: LruCache<B256, Header>
    const headersByNumber: LruCache<u64, Header>
    const hashByNumber: LruCache<u64, B256>
    const bodiesByHash: LruCache<B256, Body>
    const capacity: nat

    ghost const Repr: set<object> := {headersByHash, headersByNumber, hashByNumber, bodiesByHash}

    ghost predicate Valid()
      reads Repr
    {
      && WellFormed(View(), LruCap(capacity))
      && headersByHash as object != headersByNumber
      && headersByHash as object != hashByNumber
      && headersByHash as object != bodiesByHash
      && headersByNumber as object != hashByNumber
      && headersByNumber as object != bodiesByHash
      && hashByNumber as object != bodiesByHash
    }

    ghost function View(): Cache
      reads Repr
    {
      Cache(headersByHash.View(), headersByNumber.View(), hashByNumber.View(), bodiesByHash.View())
    }

    constructor (capacity: nat)
      ensures Valid() && fresh(Repr) && this.capacity == capacity
      ensures View() == New(capacity)
      ensures View().headersByHash.cap == View().headersByNumber.cap == View().hashByNumber.cap
              == View().bodiesByHash.cap == if capacity == 0 then 256 else capacity
    {
      var cap := if capacity == 0 then DEFAULT_CACHE_SIZE else capacity;
      headersByHash := new LruCache(cap);
      headersByNumber := new LruCache(cap);
      hashByNumber := new LruCache(cap);
      bodiesByHash := new LruCache(cap);
      this.capacity := capacity;
    }

    method Insert(hash: B256, header: Header, body: Body)
      requires Valid()
      modifies Repr
      ensures Valid() && View() == Apply(old(View()), Op.Insert(hash, header, body))
    {
      ApplyWellFormed(View(), Op.Insert(hash, header, body), LruCap(capacity));
      var number := header.number;
      headersByHash.Push(hash, header);
      headersByNumber.Push(number, header);
      hashByNumber.Push(number, hash);
      bodiesByHash.Push(hash, body);
    }

    method InsertHeader(hash: B256, header: Header)
      requires Valid()
      modifies Repr
      ensures Valid() && View() == Apply(old(View()), Op.InsertHeader(hash, header))
    {
      ApplyWellFormed(View(), Op.InsertHeader(hash, header), LruCap(capacity));
      var number := header.number;
      headersByHash.Push(hash, header);
      headersByNumber.Push(number, header);
      hashByNumber.Push(number, hash);
    }

    method InsertBody(hash: B256, body: Body)
      requires Valid()
      modifies Repr
      ensures Valid() && View() == Apply(old(View()), Op.InsertBody(hash, body))
    {
      bodiesByHash.Push(hash, body);
    }

    method GetHeaderByHash(hash: B256) returns (r: Option<Header>)
      requires Valid()
      modifies Repr
      ensures Valid() && View() == Apply(old(View()), Op.GetHeaderByHash(hash))
      ensures r == old(View()).headersByHash.Lookup(hash)
    {
      r := headersByHash.Get(hash);
      TouchFacts(old(View()).headersByHash, hash);
    }

    method GetHeaderByNumber(number: u64) returns (r: Option<Header>)
      requires Valid()
      modifies Repr
      ensures Valid() && View() == Apply(old(View()), Op.GetHeaderByNumber(number))
      ensures r == old(View()).headersByNumber.Lookup(number)
    {
      r := headersByNumber.Get(number);
      TouchFacts(old(View()).headersByNumber, number);
    }

    method GetBodyByHash(hash: B256) returns (r: Option<Body>)
      requires Valid()
      modifies Repr
      ensures Valid() && View() == Apply(old(View()), Op.GetBodyByHash(hash))
      ensures r == old(View()).bodiesByHash.Lookup(hash)
    {
      r := bodiesByHash.Get(hash);
      TouchFacts(old(View()).bodiesByHash, hash);
    }

    method GetHashByNumber(number: u64) returns (r: Option<B256>)
      requires Valid()
      modifies Repr
      ensures Valid() && View() == Apply(old(View()), Op.GetHashByNumber(number))
      ensures r == old(View()).hashByNumber.Lookup(number)
    {
      r := hashByNumber.Get(number);
      TouchFacts(old(View()).hashByNumber, number);
    }

    /** The hash and header of the largest number in hash_by_number, when headers_by_number has it too. */
    method GetLatest() returns (r: Option<(B256, Header)>)
      requires Valid()
      ensures r == Latest(View())
    {
      if hashByNumber.order == [] {
        return None;
      }
      var number := hashByNumber.order[0];
      for i := 1 to |hashByNumber.order|
        invariant number in hashByNumber.order[..i]
        invariant forall j :: 0 <= j < i ==> hashByNumber.order[j] <= number
      {
        if hashByNumber.order[i] >= number {
          number := hashByNumber.order[i];
        }
      }
      assert number in Elems(hashByNumber.order);
      var hash := hashByNumber.vals[number];
      var header := headersByNumber.Peek(number);
      r := match header case None => None case Some(h) => Some((hash, h));
    }
  }
}
