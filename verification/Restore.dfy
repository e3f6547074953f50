/** Saving and restoring the cache object, and what a restore gives back. */
module Restore {
  import opened Recency
  import opened LruMap
  import opened Types
  import opened BlockCaches
  import opened Persistence

  function InsertOf(b: Block): Op {
    Op.Insert(b.hash, b.header, b.body)
  }

  function Inserts(bs: seq<Block>): (ops: seq<Op>)
    ensures |ops| == |bs|
    ensures forall i :: 0 <= i < |bs| ==> ops[i] == InsertOf(bs[i])
  {
    if bs == [] then [] else Inserts(bs[..|bs| - 1]) + [InsertOf(bs[|bs| - 1])]
  }

  function InsertAll(c: Cache, bs: seq<Block>): Cache {
    Run(c, Inserts(bs))
  }

  lemma InsertAllStep(c: Cache, bs: seq<Block>, b: Block)
    ensures InsertAll(c, bs + [b]) == Apply(InsertAll(c, bs), InsertOf(b))
  {
    assert (bs + [b])[..|bs|] == bs;
    assert Inserts(bs + [b])[..|bs|] == Inserts(bs);
  }

  // ---------- inserting few enough blocks loses none ----------

  /** A map to which the given keys were pushed: nothing else, nothing lost. */
  ghost predicate Kept<K(!new), V>(l: Lru<K, V>, keys: set<K>, pushes: nat) {
    l.Valid() && l.vals.Keys == keys && |l.order| <= pushes
  }

  lemma PushKept<K(!new), V>(l: Lru<K, V>, keys: set<K>, pushes: nat, k: K, v: V)
    requires Kept(l, keys, pushes) && pushes < l.cap
    ensures Kept(l.Push(k, v), keys + {k}, pushes + 1)
    ensures l.Push(k, v).vals == l.vals[k := v] && l.Push(k, v).cap == l.cap
  {
    PushRoom(l, k, v);
    PushValid(l, k, v);
    BumpNoDup(l.order, k);
  }

  function Numbers(bs: seq<Block>): set<u64> {
    set b | b in bs :: b.header.number
  }

  function BlockHashes(bs: seq<Block>): set<B256> {
    set b | b in bs :: b.hash
  }

  /** Every map holds exactly the keys of the inserted blocks. */
  ghost predicate HoldsAll(c: Cache, bs: seq<Block>) {
    && Kept(c.headersByHash, BlockHashes(bs), |bs|)
    && Kept(c.headersByNumber, Numbers(bs), |bs|)
    && Kept(c.hashByNumber, Numbers(bs), |bs|)
    && Kept(c.bodiesByHash, BlockHashes(bs), |bs|)
  }

  lemma KeysStep(bs: seq<Block>, b: Block)
    ensures Numbers(bs + [b]) == Numbers(bs) + {b.header.number}
    ensures BlockHashes(bs + [b]) == BlockHashes(bs) + {b.hash}
  {
    assert forall x :: x in bs + [b] <==> x in bs || x == b;
  }

  lemma {:induction false} FewInsertsKeptAll(capacity: nat, bs: seq<Block>)
    requires |bs| <= LruCap(capacity)
    ensures HoldsAll(InsertAll(New(capacity), bs), bs)
    ensures WellFormed(InsertAll(New(capacity), bs), LruCap(capacity))
  {
    RunWellFormed(New(capacity), Inserts(bs), LruCap(capacity));
    if bs != [] {
      var g, b := bs[..|bs| - 1], bs[|bs| - 1];
      assert bs == g + [b];
      FewInsertsKeptAll(capacity, g);
      InsertAllStep(New(capacity), g, b);
      KeysStep(g, b);
      var c := InsertAll(New(capacity), g);
      PushKept(c.headersByHash, BlockHashes(g), |g|, b.hash, b.header);
      PushKept(c.headersByNumber, Numbers(g), |g|, b.header.number, b.header);
      PushKept(c.hashByNumber, Numbers(g), |g|, b.header.number, b.hash);
      PushKept(c.bodiesByHash, BlockHashes(g), |g|, b.hash, b.body);
    }
  }

  /** Blocks that can all be complete in one cache: distinct numbers, one body per hash. */
  ghost predicate Compatible(bs: seq<Block>) {
    && Ascending(bs)
    && forall a, b :: a in bs && b in bs && a.hash == b.hash ==> a.body == b.body
  }

  lemma StoredAfterInsert(c: Cache, d: Cache, b: Block, l: Block)
    requires Stored(c, b) && b.header.number != l.header.number && (b.hash == l.hash ==> b.body == l.body)
    requires d.headersByNumber.vals == c.headersByNumber.vals[l.header.number := l.header]
    requires d.hashByNumber.vals == c.hashByNumber.vals[l.header.number := l.hash]
    requires d.bodiesByHash.vals == c.bodiesByHash.vals[l.hash := l.body]
    ensures Stored(d, b)
  {
  }

  lemma CompatibleLast(g: seq<Block>, l: Block)
    requires Compatible(g + [l])
    ensures forall b :: b in g ==> b.header.number != l.header.number && (b.hash == l.hash ==> b.body == l.body)
  {
    var bs := g + [l];
    assert bs[|g|] == l;
    forall b | b in g ensures b.header.number != l.header.number && (b.hash == l.hash ==> b.body == l.body) {
      var i :| 0 <= i < |g| && g[i] == b;
      assert bs[i] == b;
    }
  }

  lemma {:induction false} InsertedAreStored(capacity: nat, bs: seq<Block>)
    requires |bs| <= LruCap(capacity) && Compatible(bs)
    ensures forall b :: b in bs ==> Stored(InsertAll(New(capacity), bs), b)
  {
    if bs != [] {
      var g, l := bs[..|bs| - 1], bs[|bs| - 1];
      assert bs == g + [l];
      CompatiblePrefix(bs, |g|);
      CompatibleLast(g, l);
      InsertedAreStored(capacity, g);
      FewInsertsKeptAll(capacity, g);
      InsertAllStep(New(capacity), g, l);
      var c := InsertAll(New(capacity), g);
      var d := Apply(c, InsertOf(l));
      PushKept(c.headersByNumber, Numbers(g), |g|, l.header.number, l.header);
      PushKept(c.hashByNumber, Numbers(g), |g|, l.header.number, l.hash);
      PushKept(c.bodiesByHash, BlockHashes(g), |g|, l.hash, l.body);
      forall b | b in g ensures Stored(d, b) {
        StoredAfterInsert(c, d, b, l);
      }
      assert Stored(d, l);
    }
  }

  /** Loading compatible blocks that fit into a fresh cache makes exactly them complete. */
  lemma DrainAfterInserts(capacity: nat, bs: seq<Block>)
    requires |bs| <= LruCap(capacity) && Compatible(bs)
    ensures Drain(InsertAll(New(capacity), bs)) == bs
  {
    var c := InsertAll(New(capacity), bs);
    FewInsertsKeptAll(capacity, bs);
    InsertedAreStored(capacity, bs);
    RunWellFormed(New(capacity), Inserts(bs), LruCap(capacity));
    ReachableNumbersMatch(capacity, Inserts(bs));
    DrainFacts(c, LruCap(capacity));
    forall b ensures b in Drain(c) <==> b in bs {
      if Stored(c, b) {
        assert b.header.number in Numbers(bs);
        var x :| x in bs && x.header.number == b.header.number;
        assert Stored(c, x);
      }
    }
    AscendingUnique(Drain(c), bs);
  }

  lemma DrainIsCompatible(capacity: nat, ops: seq<Op>)
    ensures var d := Drain(Run(New(capacity), ops));
            Compatible(d) && |d| <= LruCap(capacity)
  {
    var c := Run(New(capacity), ops);
    RunWellFormed(New(capacity), ops, LruCap(capacity));
    ReachableNumbersMatch(capacity, ops);
    DrainFacts(c, LruCap(capacity));
  }

  /** In every reachable state a block is saved exactly when its number maps to its hash and to its header and its
      hash to its body, whatever else is cached. */
  lemma SavedIff(capacity: nat, ops: seq<Op>, b: Block)
    ensures var c := Run(New(capacity), ops);
            b in Drain(c) <==>
              && c.hashByNumber.Lookup(b.header.number) == Some(b.hash)
              && c.headersByNumber.Lookup(b.header.number) == Some(b.header)
              && c.bodiesByHash.Lookup(b.hash) == Some(b.body)
  {
    var c := Run(New(capacity), ops);
    RunWellFormed(New(capacity), ops, LruCap(capacity));
    ReachableNumbersMatch(capacity, ops);
    DrainFacts(c, LruCap(capacity));
  }

  lemma CompatiblePrefix(bs: seq<Block>, n: nat)
    requires Compatible(bs) && n <= |bs|
    ensures Compatible(bs[..n])
  {
  }

  // ---------- main results ----------

  /** The cache that loading `data` into a new cache yields. */
  function Load(k: Codec, capacity: nat, data: Bytes): Cache
    requires |data| >= 4
  {
    InsertAll(New(capacity), Loaded(k, data, capacity))
  }

  function Save(k: Codec, c: Cache): Bytes {
    FileBytes(k, Drain(c))
  }

  /** Every length the file format writes in 32 bits does fit there. */
  ghost predicate Saveable(k: Codec, c: Cache) {
    |Drain(c)| < U32_RANGE && FitsAll(k, Drain(c))
  }

  /** What a load takes from the first n >= 4 bytes of a saved file: the whole entries, in order, at most
      `capacity` of them. */
  lemma LoadedFromPrefix(k: Codec, bs: seq<Block>, capacity: nat, n: nat)
    requires k.Lawful() && |bs| < U32_RANGE && FitsAll(k, bs)
    requires 4 <= n <= |FileBytes(k, bs)|
    ensures Loaded(k, FileBytes(k, bs)[..n], capacity) == Take(bs[..Whole(k, bs, n - 4)], capacity)
  {
    hide Le32, FromLe32, ParseBlocks;
    var e := EntriesBytes(k, bs);
    Le32Truncates(|bs|);
    HeadOfFile(k, bs, n);
    var m := if |bs| <= capacity then |bs| else capacity;
    ParsePrefix(k, bs, e[..n - 4], m);
    LoadedSplit(k, FileBytes(k, bs)[..n], |bs|, e[..n - 4], capacity);
    var whole := bs[..Whole(k, bs, n - 4)];
    assert Take(whole, m) == Take(whole, capacity);
  }

  lemma HeadOfFile(k: Codec, bs: seq<Block>, n: nat)
    requires 4 <= n <= |FileBytes(k, bs)|
    ensures FileBytes(k, bs)[..n][..4] == Le32(|bs|)
    ensures FileBytes(k, bs)[..n][4..] == EntriesBytes(k, bs)[..n - 4]
  {
    SplitHead(Le32(|bs|), EntriesBytes(k, bs), n);
  }

  lemma LoadedSplit(k: Codec, data: Bytes, count: nat, rest: Bytes, capacity: nat)
    requires |data| >= 4 && FromLe32(data[..4]) == count && data[4..] == rest
    ensures Loaded(k, data, capacity) == ParseBlocks(k, rest, if count <= capacity then count else capacity)
  {
  }

  lemma AllWhole(k: Codec, bs: seq<Block>)
    ensures Whole(k, bs, |EntriesBytes(k, bs)|) == |bs|
  {
    assert bs[..|bs|] == bs;
    WholeIsGreatest(k, bs, |EntriesBytes(k, bs)|, |bs|);
  }

  /** Loading the first n >= 4 bytes of a saved file into a new cache. */
  lemma ReloadPrefix(k: Codec, bs: seq<Block>, newCapacity: nat, n: nat)
    requires k.Lawful() && Compatible(bs) && |bs| < U32_RANGE && FitsAll(k, bs)
    requires 4 <= n <= |FileBytes(k, bs)|
    ensures var kept := Take(bs[..Whole(k, bs, n - 4)], newCapacity);
            && Load(k, newCapacity, FileBytes(k, bs)[..n]) == InsertAll(New(newCapacity), kept)
            && Drain(InsertAll(New(newCapacity), kept)) == kept
  {
    LoadedFromPrefix(k, bs, newCapacity, n);
    var whole := bs[..Whole(k, bs, n - 4)];
    CompatiblePrefix(bs, |whole|);
    if newCapacity < |whole| {
      CompatiblePrefix(whole, newCapacity);
    }
    DrainAfterInserts(newCapacity, Take(whole, newCapacity));
  }

  lemma ReloadAll(k: Codec, bs: seq<Block>, newCapacity: nat)
    requires k.Lawful() && Compatible(bs) && |bs| < U32_RANGE && FitsAll(k, bs)
    ensures Drain(Load(k, newCapacity, FileBytes(k, bs))) == Take(bs, newCapacity)
  {
    var f := FileBytes(k, bs);
    assert f[..|f|] == f;
    ReloadPrefix(k, bs, newCapacity, |f|);
    AllWhole(k, bs);
    assert bs[..|bs|] == bs;
  }

  /** Truncated-file recovery: from any prefix of at least 4 bytes, a cache of at least the saved count
      restores exactly the blocks whose whole entries lie in the prefix, in ascending number order. */
  lemma TruncatedFileRecovery(k: Codec, capacity: nat, ops: seq<Op>, newCapacity: nat, n: nat)
    requires k.Lawful()
    requires var c := Run(New(capacity), ops); Saveable(k, c) && |Drain(c)| <= newCapacity && 4 <= n <= |Save(k, c)|
    ensures var c := Run(New(capacity), ops);
            var whole := Drain(c)[..Whole(k, Drain(c), n - 4)];
            && Load(k, newCapacity, Save(k, c)[..n]) == InsertAll(New(newCapacity), whole)
            && Drain(Load(k, newCapacity, Save(k, c)[..n])) == whole
  {
    hide Drain, FileBytes, Run, InsertAll, Loaded;
    DrainIsCompatible(capacity, ops);
    var bs := Drain(Run(New(capacity), ops));
    ReloadPrefix(k, bs, newCapacity, n);
    var whole := bs[..Whole(k, bs, n - 4)];
    assert Take(whole, newCapacity) == whole;
  }

  /** Loading a saved file restores the lowest-numbered saved blocks, as many as fit. */
  lemma LoadRestoresLowest(k: Codec, capacity: nat, ops: seq<Op>, newCapacity: nat)
    requires k.Lawful() && Saveable(k, Run(New(capacity), ops))
    ensures var c := Run(New(capacity), ops);
            Drain(Load(k, newCapacity, Save(k, c))) == Take(Drain(c), newCapacity)
  {
    DrainIsCompatible(capacity, ops);
    ReloadAll(k, Drain(Run(New(capacity), ops)), newCapacity);
  }

  /** Save, load into a new cache of the same configured capacity, save writes the same bytes again, unless that
      capacity is 0: then the maps hold 256 entries but a load restores nothing. */
  lemma SaveLoadSave(k: Codec, capacity: nat, ops: seq<Op>)
    requires k.Lawful() && Saveable(k, Run(New(capacity), ops))
    ensures var c := Run(New(capacity), ops);
            Save(k, Load(k, capacity, Save(k, c))) == Save(k, c) <==> capacity >= 1 || Drain(c) == []
  {
    DrainIsCompatible(capacity, ops);
    hide Drain, Run, Load, FileBytes, LruCap, Compatible;
    ResaveIff(k, Drain(Run(New(capacity), ops)), capacity);
  }

  lemma ResaveIff(k: Codec, bs: seq<Block>, capacity: nat)
    requires k.Lawful() && Compatible(bs) && |bs| <= LruCap(capacity) && |bs| < U32_RANGE && FitsAll(k, bs)
    ensures Save(k, Load(k, capacity, FileBytes(k, bs))) == FileBytes(k, bs) <==> capacity >= 1 || bs == []
  {
    ReloadAll(k, bs, capacity);
    EmptyFile(k, bs);
    hide Drain, Run, Load, FileBytes;
    assert Take(bs, capacity) == if capacity >= 1 then bs else [];
  }

  lemma EmptyFile(k: Codec, bs: seq<Block>)
    ensures FileBytes(k, bs) == FileBytes(k, []) <==> bs == []
  {
    assert bs != [] ==> |EntriesBytes(k, bs)| > 0;
  }

  /** Startup head, for every file: the number maps agree, and latest() is None exactly when nothing was
      loaded, otherwise the last loaded block of the largest number. */
  lemma StartupHead(k: Codec, capacity: nat, data: Bytes)
    requires |data| >= 4
    ensures var c := Load(k, capacity, data);
            var bs := Loaded(k, data, capacity);
            && c.headersByNumber.order == c.hashByNumber.order
            && c.headersByNumber.vals.Keys == c.hashByNumber.vals.Keys == Numbers(bs)
            && (Latest(c).None? <==> bs == [])
            && forall i :: 0 <= i < |bs| && LastOfLargest(bs, i) ==> Latest(c) == Some((bs[i].hash, bs[i].header))
  {
    HeadAfterInserts(capacity, Loaded(k, data, capacity));
  }

  lemma HeadAfterInserts(capacity: nat, bs: seq<Block>)
    requires |bs| <= LruCap(capacity)
    ensures var c := InsertAll(New(capacity), bs);
            && c.headersByNumber.order == c.hashByNumber.order
            && c.headersByNumber.vals.Keys == c.hashByNumber.vals.Keys == Numbers(bs)
            && (Latest(c).None? <==> bs == [])
            && forall i :: 0 <= i < |bs| && LastOfLargest(bs, i) ==> Latest(c) == Some((bs[i].hash, bs[i].header))
  {
    hide Latest, Run, WellFormed;
    var c := InsertAll(New(capacity), bs);
    FewInsertsKeptAll(capacity, bs);
    NumberMapsInLockstep(capacity, Inserts(bs));
    LatestWithoutNumberReads(capacity, Inserts(bs));
    if bs == [] {
      EmptyLatest(c);
    } else {
      assert bs[0].header.number in Numbers(bs);
      assert bs[0].header.number in Elems(c.hashByNumber.order);
    }
    forall i | 0 <= i < |bs| && LastOfLargest(bs, i) ensures Latest(c) == Some((bs[i].hash, bs[i].header)) {
      assert bs[i].header.number in Numbers(bs);
      LastForInserts(bs, i);
    }
  }

  lemma EmptyLatest(c: Cache)
    requires c.hashByNumber.Valid() && c.hashByNumber.vals.Keys == {}
    ensures Latest(c) == None
  {
    ElemsNonEmpty(c.hashByNumber.order);
  }

  /** Block i has the largest number, and no later block has the same. */
  ghost predicate LastOfLargest(bs: seq<Block>, i: nat)
    requires i < |bs|
  {
    && (forall j :: 0 <= j < |bs| ==> bs[j].header.number <= bs[i].header.number)
    && (forall j :: i < j < |bs| ==> bs[j].header.number < bs[i].header.number)
  }

  lemma {:induction false} LastForInserts(bs: seq<Block>, i: nat)
    requires i < |bs| && forall j :: i < j < |bs| ==> bs[j].header.number != bs[i].header.number
    ensures LastFor(Entries(Inserts(bs)), bs[i].header.number) == Some(Entry(bs[i].hash, bs[i].header))
  {
    var g, l := bs[..|bs| - 1], bs[|bs| - 1];
    assert Inserts(bs)[..|g|] == Inserts(g);
    var es := Entries(Inserts(g));
    assert Entries(Inserts(bs)) == es + [Entry(l.hash, l.header)];
    assert (es + [Entry(l.hash, l.header)])[..|es|] == es;
    if i < |g| {
      LastForInserts(g, i);
    }
  }

  // ---------- the file operations ----------

  /** An open file and its cursor. */
  class FileReader {
    const data: Bytes
    var pos: nat

    ghost predicate Valid()
      reads this
    {
      pos <= |data|
    }

    function Rest(): Bytes
      requires Valid()
      reads this
    {
      data[pos..]
    }

    constructor (data: Bytes)
      ensures Valid() && this.data == data && pos == 0
    {
      this.data := data;
      pos := 0;
    }

    /** Exactly n bytes, or an error when fewer remain. */
    method ReadExact(n: nat) returns (r: Option<Bytes>)
      requires Valid()
      modifies this
      ensures Valid()
      ensures r.Some? <==> n <= |old(Rest())|
      ensures r.Some? ==> r.value == old(Rest())[..n] && Rest() == old(Rest())[n..]
    {
      if n <= |data| - pos {
        r := Some(data[pos..pos + n]);
        pos := pos + n;
      } else {
        r := None;
        pos := |data|;
      }
    }
  }

  /** A length-prefixed field. */
  method ReadField(file: FileReader) returns (r: Option<Bytes>)
    requires file.Valid()
    modifies file
    ensures file.Valid()
    ensures r.Some? <==> ReadChunk(old(file.Rest())).Some?
    ensures r.Some? ==> ReadChunk(old(file.Rest())) == Some((r.value, file.Rest()))
  {
    ghost var d := file.Rest();
    var len := file.ReadExact(4);
    if len.None? {
      return None;
    }
    var n := FromLe32(len.value);
    r := file.ReadExact(n);
    if r.Some? {
      assert d[4..][..n] == d[4..4 + n] && d[4..][n..] == d[4 + n..];
    }
  }

  method ReadBlockEntry(k: Codec, file: FileReader) returns (r: Option<Block>)
    requires file.Valid()
    modifies file
    ensures file.Valid()
    ensures r.Some? <==> ParseEntry(k, old(file.Rest())).Some?
    ensures r.Some? ==> ParseEntry(k, old(file.Rest())) == Some((r.value, file.Rest()))
  {
    var hash := file.ReadExact(32);
    if hash.None? {
      return None;
    }
    var headerBytes := ReadField(file);
    if headerBytes.None? {
      return None;
    }
    var header := k.decodeHeader(headerBytes.value);
    if header.None? {
      return None;
    }
    var bodyBytes := ReadField(file);
    if bodyBytes.None? {
      return None;
    }
    var body := k.decodeBody(bodyBytes.value);
    if body.None? {
      return None;
    }
    r := Some(Block(B256(hash.value), header.value, body.value));
  }

  /** Load the cache from a file. A missing file is no error; one too short for its count is, and both leave
      the cache unchanged; otherwise the blocks read before the first bad entry are inserted in file order. */
  method LoadFromFile(k: Codec, cache: BlockCache, file: Option<Bytes>) returns (ok: bool)
    requires cache.Valid()
    modifies cache.Repr
    ensures cache.Valid()
    ensures ok <==> file.None? || |file.value| >= 4
    ensures cache.View() == if file.None? || |file.value| < 4 then old(cache.View())
                            else InsertAll(old(cache.View()), Loaded(k, file.value, cache.capacity))
  {
    if file.None? {
      return true;
    }
    var reader := new FileReader(file.value);
    assert reader.Rest() == file.value;
    var countBytes := reader.ReadExact(4);
    if countBytes.None? {
      return false;
    }
    var count := FromLe32(countBytes.value);
    var loadCount := if count <= cache.capacity then count else cache.capacity;
    LoadEntries(k, cache, reader, loadCount);
    ok := true;
  }

  /** The loop of the load. */
  method LoadEntries(k: Codec, cache: BlockCache, reader: FileReader, loadCount: nat)
    requires cache.Valid() && reader.Valid() && reader as object !in cache.Repr
    modifies cache.Repr, reader
    ensures cache.Valid()
    ensures cache.View() == InsertAll(old(cache.View()), ParseBlocks(k, old(reader.Rest()), loadCount))
  {
    hide ParseEntry;
    ghost var c := cache.View();
    ghost var target := ParseBlocks(k, reader.Rest(), loadCount);
    ghost var done: seq<Block> := [];
    var i := 0;
    while i < loadCount
      invariant 0 <= i <= loadCount && reader.Valid() && cache.Valid()
      invariant cache.View() == InsertAll(c, done)
      invariant StillToRead(k, target, done, reader.Rest(), loadCount - i)
    {
      ghost var d := reader.Rest();
      ReadStep(k, target, done, d, loadCount - i);
      var block := ReadBlockEntry(k, reader);
      if block.None? {
        break;
      }
      assert StillToRead(k, target, done + [block.value], reader.Rest(), loadCount - i - 1);
      InsertAllStep(c, done, block.value);
      cache.Insert(block.value.hash, block.value.header, block.value.body);
      done := done + [block.value];
      i := i + 1;
    }
    assert target == done;
  }

  /** The blocks read so far, then those the rest of the file still gives, are the target. */
  ghost predicate StillToRead(k: Codec, target: seq<Block>, done: seq<Block>, rest: Bytes, n: nat) {
    target == done + ParseBlocks(k, rest, n)
  }

  lemma ReadStep(k: Codec, target: seq<Block>, done: seq<Block>, d: Bytes, n: nat)
    requires n > 0 && StillToRead(k, target, done, d, n)
    ensures ParseEntry(k, d).None? ==> target == done
    ensures forall b, r :: ParseEntry(k, d) == Some((b, r)) ==> StillToRead(k, target, done + [b], r, n - 1)
  {
    if ParseEntry(k, d).Some? {
      var p := ParseEntry(k, d).value;
      assert done + ([p.0] + ParseBlocks(k, p.1, n - 1)) == (done + [p.0]) + ParseBlocks(k, p.1, n - 1);
    }
  }

  /** The blocks complete in the cache, ascending by number. */
  method DrainBlocks(cache: BlockCache) returns (blocks: seq<Block>)
    requires cache.Valid()
    ensures blocks == Drain(cache.View())
  {
    blocks := [];
    var numbers := cache.hashByNumber.order;
    for i := 0 to |numbers|
      invariant blocks == Collect(cache.View(), numbers[..i])
    {
      assert numbers[..i + 1][..i] == numbers[..i];
      assert numbers[i] in Elems(numbers);
      var number := numbers[i];
      var hash := cache.hashByNumber.vals[number];
      var header := cache.headersByNumber.Peek(number);
      if header.Some? {
        var body := cache.bodiesByHash.Peek(hash);
        if body.Some? {
          blocks := blocks + [Block(hash, header.value, body.value)];
        }
      }
    }
    assert numbers[..|numbers|] == numbers;
    blocks := SortByNumber(blocks);
  }

  /** The bytes written to the file. */
  method SaveToFile(k: Codec, cache: BlockCache) returns (file: Bytes)
    requires cache.Valid()
    ensures file == Save(k, cache.View())
    ensures |file| >= 4 && file[0] == |Drain(cache.View())| % 256
  {
    hide EntryBytes;
    var blocks := DrainBlocks(cache);
    file := Le32(|blocks|);
    var i := 0;
    while i < |blocks|
      invariant 0 <= i <= |blocks|
      invariant file + EntriesBytes(k, blocks[i..]) == FileBytes(k, blocks)
    {
      EntriesFrom(k, blocks, i);
      assert file + (EntryBytes(k, blocks[i]) + EntriesBytes(k, blocks[i + 1..]))
             == (file + EntryBytes(k, blocks[i])) + EntriesBytes(k, blocks[i + 1..]);
      file := WriteEntry(k, file, blocks[i]);
      i := i + 1;
    }
    assert file + [] == file;
  }

  /** The body of the save loop. */
  method WriteEntry(k: Codec, before: Bytes, block: Block) returns (file: Bytes)
    ensures file == before + EntryBytes(k, block)
  {
    file := before + block.hash.bytes;
    var headerBytes := k.encodeHeader(block.header);
    file := file + Le32(|headerBytes|);
    file := file + headerBytes;
    var bodyBytes := k.encodeBody(block.body);
    file := file + Le32(|bodyBytes|);
    file := file + bodyBytes;
  }
}
