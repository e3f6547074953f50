/** The file a block cache is saved to, printed and parsed. It is a 4-byte number of entries and then the entries.
    An entry is a 32-byte hash, then the encoded header and then the encoded body, each behind its own length in
    4 bytes. All three numbers are little-endian. */
module Persistence {
  import opened Recency
  import opened LruMap
  import opened Types
  import opened BlockCaches

  type Bytes = seq<byte>

  /** The header and body encodings, which the node takes from a library. */
  datatype Codec = Codec(
    encodeHeader: Header -> Bytes, decodeHeader: Bytes -> Option<Header>,
    encodeBody: Body -> Bytes, decodeBody: Bytes -> Option<Body>)
  {
    ghost predicate Lawful() {
      && (forall h :: decodeHeader(encodeHeader(h)) == Some(h))
      && (forall b :: decodeBody(encodeBody(b)) == Some(b))
    }
  }

  // ---------- bytes ----------

  /** The low 32 bits of n, little-endian. */
  function Le32(n: nat): Bytes {
    [n % 0x100, n / 0x100 % 0x100, n / 0x1_0000 % 0x100, n / 0x100_0000 % 0x100]
  }

  function FromLe32(b: Bytes): nat
    requires |b| == 4
  {
    var b0: nat, b1: nat, b2: nat, b3: nat := b[0], b[1], b[2], b[3];
    b0 + 0x100 * b1 + 0x1_0000 * b2 + 0x100_0000 * b3
  }

  lemma Le32Truncates(n: nat)
    ensures FromLe32(Le32(n)) == n % U32_RANGE
    ensures n < U32_RANGE ==> FromLe32(Le32(n)) == n
  {
    var a := n / 0x100;
    var b := a / 0x100;
    var c := b / 0x100;
    assert n / 0x1_0000 == b && n / 0x100_0000 == c && n / U32_RANGE == c / 0x100;
    assert n == n % 0x100 + 0x100 * (a % 0x100 + 0x100 * (b % 0x100 + 0x100 * (c % 0x100 + 0x100 * (c / 0x100))));
  }

  function Chunk(x: Bytes): Bytes {
    Le32(|x|) + x
  }

  function EntryBytes(k: Codec, b: Block): Bytes {
    b.hash.bytes + (Chunk(k.encodeHeader(b.header)) + Chunk(k.encodeBody(b.body)))
  }

  function EntriesBytes(k: Codec, bs: seq<Block>): Bytes {
    if bs == [] then [] else EntryBytes(k, bs[0]) + EntriesBytes(k, bs[1..])
  }

  function FileBytes(k: Codec, bs: seq<Block>): Bytes {
    Le32(|bs|) + EntriesBytes(k, bs)
  }

  /** A length-prefixed field and what follows it. */
  function ReadChunk(d: Bytes): Option<(Bytes, Bytes)> {
    if |d| < 4 then None
    else
      var len := FromLe32(d[..4]);
      if |d| - 4 < len then None else Some((d[4..4 + len], d[4 + len..]))
  }

  /** One entry and what follows it; None when a read or a decode fails. */
  function ParseEntry(k: Codec, d: Bytes): Option<(Block, Bytes)> {
    if |d| < 32 then None else
    match ReadChunk(d[32..])
    case None => None
    case Some(h) =>
      match k.decodeHeader(h.0)
      case None => None
      case Some(header) =>
        match ReadChunk(h.1)
        case None => None
        case Some(b) =>
          match k.decodeBody(b.0)
          case None => None
          case Some(body) => Some((Block(B256(d[..32]), header, body), b.1))
  }

  /** At most n entries, stopping at the first that fails. */
  function ParseBlocks(k: Codec, d: Bytes, n: nat): (bs: seq<Block>)
    ensures |bs| <= n
  {
    if n == 0 || ParseEntry(k, d).None? then []
    else [ParseEntry(k, d).value.0] + ParseBlocks(k, ParseEntry(k, d).value.1, n - 1)
  }

  /** The blocks a load takes from a file of at least four bytes, the count clamped to the capacity. */
  function Loaded(k: Codec, data: Bytes, capacity: nat): (bs: seq<Block>)
    requires |data| >= 4
    ensures |bs| <= capacity
  {
    var count := FromLe32(data[..4]);
    ParseBlocks(k, data[4..], if count <= capacity then count else capacity)
  }

  // ---------- parsing what was printed, whole or cut short ----------

  ghost predicate EntryFits(k: Codec, b: Block) {
    |k.encodeHeader(b.header)| < U32_RANGE && |k.encodeBody(b.body)| < U32_RANGE
  }

  ghost predicate FitsAll(k: Codec, bs: seq<Block>) {
    forall b :: b in bs ==> EntryFits(k, b)
  }

  lemma FitsSplit(k: Codec, bs: seq<Block>)
    requires FitsAll(k, bs) && bs != []
    ensures EntryFits(k, bs[0]) && FitsAll(k, bs[1..])
  {
    assert bs[0] in bs;
    assert forall b :: b in bs[1..] ==> b in bs;
  }

  lemma ReadWholeChunk(x: Bytes, rest: Bytes)
    requires |x| < U32_RANGE
    ensures ReadChunk(Chunk(x) + rest) == Some((x, rest))
  {
    var d := Chunk(x) + rest;
    Le32Truncates(|x|);
    assert d[..4] == Le32(|x|);
    assert d[4..4 + |x|] == x;
    assert d[4 + |x|..] == rest;
  }

  lemma ReadCutChunk(x: Bytes, n: nat)
    requires |x| < U32_RANGE && n < |Chunk(x)|
    ensures ReadChunk(Chunk(x)[..n]) == None
  {
    if n >= 4 {
      Le32Truncates(|x|);
      assert Chunk(x)[..n][..4] == Le32(|x|);
    }
  }

  lemma ParseWholeEntry(k: Codec, b: Block, rest: Bytes)
    requires k.Lawful() && EntryFits(k, b)
    ensures ParseEntry(k, EntryBytes(k, b) + rest) == Some((b, rest))
  {
    hide Chunk, ReadChunk;
    var x, y := k.encodeHeader(b.header), k.encodeBody(b.body);
    var d := EntryBytes(k, b) + rest;
    assert d[..32] == b.hash.bytes;
    assert d[32..] == Chunk(x) + (Chunk(y) + rest);
    ReadWholeChunk(x, Chunk(y) + rest);
    ReadWholeChunk(y, rest);
  }

  lemma SplitHead<T>(a: seq<T>, r: seq<T>, n: nat)
    requires |a| <= n <= |a| + |r|
    ensures (a + r)[..n][..|a|] == a
    ensures (a + r)[..n][|a|..] == r[..n - |a|]
  {
  }

  lemma ParseCutEntry(k: Codec, b: Block, n: nat)
    requires k.Lawful() && EntryFits(k, b) && n < |EntryBytes(k, b)|
    ensures ParseEntry(k, EntryBytes(k, b)[..n]) == None
  {
    hide Chunk, ReadChunk;
    var x, y := k.encodeHeader(b.header), k.encodeBody(b.body);
    var d := EntryBytes(k, b)[..n];
    if n >= 32 {
      var m := n - 32;
      SplitHead(b.hash.bytes, Chunk(x) + Chunk(y), n);
      assert d[32..] == (Chunk(x) + Chunk(y))[..m];
      if m < |Chunk(x)| {
        assert d[32..] == Chunk(x)[..m];
        ReadCutChunk(x, m);
      } else {
        var r := Chunk(y)[..m - |Chunk(x)|];
        assert d[32..] == Chunk(x) + r;
        ReadWholeChunk(x, r);
        ReadCutChunk(y, m - |Chunk(x)|);
      }
    }
  }

  /** How many entries lie wholly in the first n bytes. */
  function Whole(k: Codec, bs: seq<Block>, n: nat): (w: nat)
    ensures w <= |bs|
  {
    if bs == [] || |EntryBytes(k, bs[0])| > n then 0
    else 1 + Whole(k, bs[1..], n - |EntryBytes(k, bs[0])|)
  }

  lemma {:induction false} WholeIsGreatest(k: Codec, bs: seq<Block>, n: nat, j: nat)
    requires j <= |bs|
    ensures j <= Whole(k, bs, n) <==> |EntriesBytes(k, bs[..j])| <= n
  {
    hide EntryBytes;
    if j > 0 {
      assert bs[..j][0] == bs[0] && bs[..j][1..] == bs[1..][..j - 1];
      if |EntryBytes(k, bs[0])| <= n {
        WholeIsGreatest(k, bs[1..], n - |EntryBytes(k, bs[0])|, j - 1);
      }
    }
  }

  lemma ParseStep(k: Codec, b: Block, rest: Bytes, count: nat)
    requires k.Lawful() && EntryFits(k, b) && count > 0
    ensures ParseBlocks(k, EntryBytes(k, b) + rest, count) == [b] + ParseBlocks(k, rest, count - 1)
  {
    ParseWholeEntry(k, b, rest);
  }

  lemma ParseCut(k: Codec, b: Block, d: Bytes, count: nat)
    requires k.Lawful() && EntryFits(k, b) && d < EntryBytes(k, b)
    ensures ParseBlocks(k, d, count) == []
  {
    assert EntryBytes(k, b)[..|d|] == d;
    ParseCutEntry(k, b, |d|);
  }

  lemma ParseNothing(k: Codec, count: nat)
    ensures ParseBlocks(k, [], count) == []
  {
  }

  /** A prefix of e + r either stops inside e or goes on into r. */
  lemma PrefixOfSum<T>(d: seq<T>, e: seq<T>, r: seq<T>)
    requires d <= e + r
    ensures |d| < |e| ==> d < e
    ensures |e| <= |d| ==> d == e + d[|e|..] && d[|e|..] <= r
  {
    if |e| <= |d| {
      assert d[..|e|] == e;
    }
  }

  /** Reading a printed list of entries, cut anywhere, yields exactly its whole entries, up to the count. */
  lemma {:induction false} ParsePrefix(k: Codec, bs: seq<Block>, d: Bytes, count: nat)
    requires k.Lawful() && FitsAll(k, bs)
    requires d <= EntriesBytes(k, bs)
    ensures ParseBlocks(k, d, count) == Take(bs[..Whole(k, bs, |d|)], count)
    decreases |bs|
  {
    hide EntryBytes, ParseEntry;
    if count == 0 {
    } else if bs == [] {
      ParseNothing(k, count);
    } else {
      var b, t := bs[0], bs[1..];
      var e, r := EntryBytes(k, b), EntriesBytes(k, t);
      FitsSplit(k, bs);
      PrefixOfSum(d, e, r);
      if |d| < |e| {
        ParseCut(k, b, d, count);
      } else {
        var d1 := d[|e|..];
        ParseStep(k, b, d1, count);
        ParsePrefix(k, t, d1, count - 1);
        var w := Whole(k, t, |d1|);
        TakeCons(b, t[..w], count - 1);
        assert bs[..1 + w] == [b] + t[..w];
      }
    }
  }

  // ---------- what parses, whoever wrote it ----------

  lemma DivStep(b: nat, r: nat)
    requires b < 0x100
    ensures (b + 0x100 * r) / 0x100 == r && (b + 0x100 * r) % 0x100 == b
  {
  }

  lemma Le32Inverse(b: Bytes)
    requires |b| == 4
    ensures FromLe32(b) < U32_RANGE && Le32(FromLe32(b)) == b
  {
    var n, r3: nat := FromLe32(b), b[3];
    var r2: nat := b[2] + 0x100 * r3;
    var r1: nat := b[1] + 0x100 * r2;
    assert n == b[0] + 0x100 * r1;
    DivStep(b[0], r1);
    DivStep(b[1], r2);
    DivStep(b[2], r3);
    assert n / 0x1_0000 == n / 0x100 / 0x100 && n / 0x100_0000 == n / 0x1_0000 / 0x100;
  }

  lemma ChunkBack(d: Bytes)
    requires ReadChunk(d).Some?
    ensures var x, rest := ReadChunk(d).value.0, ReadChunk(d).value.1;
            |x| < U32_RANGE && d == Chunk(x) + rest
  {
    var x, rest := ReadChunk(d).value.0, ReadChunk(d).value.1;
    Le32Inverse(d[..4]);
    hide Le32, FromLe32;
    assert d == d[..4] + (d[4..4 + |x|] + d[4 + |x|..]);
  }

  /** A field is read exactly from its printed form and what follows. */
  lemma ReadChunkIff(d: Bytes, x: Bytes, rest: Bytes)
    ensures ReadChunk(d) == Some((x, rest)) <==> |x| < U32_RANGE && d == Chunk(x) + rest
  {
    hide Chunk, ReadChunk;
    if ReadChunk(d).Some? {
      ChunkBack(d);
    }
    if |x| < U32_RANGE && d == Chunk(x) + rest {
      ReadWholeChunk(x, rest);
    }
  }

  /** The bytes of an entry with these encoded parts. */
  function RawEntry(hash: B256, x: Bytes, y: Bytes): Bytes {
    hash.bytes + (Chunk(x) + Chunk(y))
  }

  lemma PartsOf(k: Codec, d: Bytes) returns (x: Bytes, y: Bytes)
    requires ParseEntry(k, d).Some?
    ensures var b, rest := ParseEntry(k, d).value.0, ParseEntry(k, d).value.1;
            && |x| < U32_RANGE && |y| < U32_RANGE && d == RawEntry(b.hash, x, y) + rest
            && k.decodeHeader(x) == Some(b.header) && k.decodeBody(y) == Some(b.body)
  {
    hide Chunk, ReadChunk;
    x := ReadChunk(d[32..]).value.0;
    var d1, rest := ReadChunk(d[32..]).value.1, ParseEntry(k, d).value.1;
    y := ReadChunk(d1).value.0;
    ReadChunkIff(d[32..], x, d1);
    ReadChunkIff(d1, y, rest);
    hide ParseEntry;
    assert d == d[..32] + (Chunk(x) + (Chunk(y) + rest));
    assert d[..32] + (Chunk(x) + (Chunk(y) + rest)) == (d[..32] + (Chunk(x) + Chunk(y))) + rest;
  }

  lemma PartsParse(k: Codec, hash: B256, x: Bytes, y: Bytes, rest: Bytes)
    requires |x| < U32_RANGE && |y| < U32_RANGE && k.decodeHeader(x).Some? && k.decodeBody(y).Some?
    ensures ParseEntry(k, RawEntry(hash, x, y) + rest)
            == Some((Block(hash, k.decodeHeader(x).value, k.decodeBody(y).value), rest))
  {
    hide Chunk, ReadChunk;
    var d := RawEntry(hash, x, y) + rest;
    assert d[..32] == hash.bytes && d[32..] == Chunk(x) + (Chunk(y) + rest);
    hide RawEntry;
    ReadChunkIff(d[32..], x, Chunk(y) + rest);
    ReadChunkIff(Chunk(y) + rest, y, rest);
  }

  /** Over all byte strings: an entry is parsed exactly from a hash and two fields that decode to its header and
      body. */
  lemma ParseEntryIff(k: Codec, d: Bytes, b: Block, rest: Bytes)
    ensures ParseEntry(k, d) == Some((b, rest)) <==>
              exists x: Bytes, y: Bytes ::
                && |x| < U32_RANGE && |y| < U32_RANGE && d == RawEntry(b.hash, x, y) + rest
                && k.decodeHeader(x) == Some(b.header) && k.decodeBody(y) == Some(b.body)
  {
    hide ParseEntry, RawEntry;
    if ParseEntry(k, d) == Some((b, rest)) {
      var x, y := PartsOf(k, d);
    }
    if x: Bytes, y: Bytes :| && |x| < U32_RANGE && |y| < U32_RANGE && d == RawEntry(b.hash, x, y) + rest
                             && k.decodeHeader(x) == Some(b.header) && k.decodeBody(y) == Some(b.body)
    {
      PartsParse(k, b.hash, x, y, rest);
    }
  }

  /** A hash, a header field and what follows, where the header does not decode, or it does and a body field follows
      that does not decode. */
  ghost predicate DamagedEntry(k: Codec, d: Bytes) {
    exists hash: B256, x: Bytes, more: Bytes ::
      && |x| < U32_RANGE && d == hash.bytes + (Chunk(x) + more)
      && (k.decodeHeader(x).None?
          || exists y: Bytes, rest: Bytes :: |y| < U32_RANGE && more == Chunk(y) + rest && k.decodeBody(y).None?)
  }

  lemma DamagedFails(k: Codec, d: Bytes)
    requires DamagedEntry(k, d)
    ensures ParseEntry(k, d).None?
  {
    hide Chunk, ReadChunk;
    var hash: B256, x: Bytes, more: Bytes :|
      && |x| < U32_RANGE && d == hash.bytes + (Chunk(x) + more)
      && (k.decodeHeader(x).None?
          || exists y: Bytes, rest: Bytes :: |y| < U32_RANGE && more == Chunk(y) + rest && k.decodeBody(y).None?);
    assert d[32..] == Chunk(x) + more;
    ReadChunkIff(d[32..], x, more);
    if k.decodeHeader(x).Some? {
      var y: Bytes, rest: Bytes :| |y| < U32_RANGE && more == Chunk(y) + rest && k.decodeBody(y).None?;
      ReadChunkIff(more, y, rest);
    }
  }

  /** Printed entries and then anything, read up to a count. */
  lemma {:induction false} ParseThen(k: Codec, bs: seq<Block>, rest: Bytes, count: nat)
    requires k.Lawful() && FitsAll(k, bs)
    ensures ParseBlocks(k, EntriesBytes(k, bs) + rest, count)
            == if count <= |bs| then bs[..count] else bs + ParseBlocks(k, rest, count - |bs|)
  {
    hide EntryBytes, ParseEntry, EntriesBytes, ParseBlocks;
    NoEntries(k, EntriesBytes(k, bs) + rest);
    if bs == [] {
      assert EntriesBytes(k, bs) + rest == rest;
    } else if count > 0 {
      var b, t := bs[0], bs[1..];
      FitsSplit(k, bs);
      EntriesFrom(k, bs, 0);
      assert bs[0..] == bs && [b] + t == bs;
      var e, r := EntryBytes(k, b), EntriesBytes(k, t);
      assert (e + r) + rest == e + (r + rest);
      ParseStep(k, b, r + rest, count);
      ParseThen(k, t, rest, count - 1);
      if count > |bs| {
        assert [b] + (t + ParseBlocks(k, rest, count - |bs|)) == bs + ParseBlocks(k, rest, count - |bs|);
      } else {
        assert [b] + t[..count - 1] == bs[..count];
      }
    }
  }

  lemma NoEntries(k: Codec, d: Bytes)
    ensures ParseBlocks(k, d, 0) == [] && EntriesBytes(k, []) == []
  {
  }

  /** A file of whole entries, then a damaged one and anything, loads exactly the entries before the damage. */
  lemma LoadStopsAtDamage(k: Codec, bs: seq<Block>, damaged: Bytes, count: nat, capacity: nat)
    requires k.Lawful() && FitsAll(k, bs) && |bs| < count < U32_RANGE && DamagedEntry(k, damaged)
    ensures Loaded(k, Le32(count) + (EntriesBytes(k, bs) + damaged), capacity) == Take(bs, capacity)
  {
    var data := Le32(count) + (EntriesBytes(k, bs) + damaged);
    Le32Truncates(count);
    assert data[..4] == Le32(count) && data[4..] == EntriesBytes(k, bs) + damaged;
    var n := if count <= capacity then count else capacity;
    DamagedFails(k, damaged);
    ParseThen(k, bs, damaged, n);
    hide ParseEntry, Le32, FromLe32, DamagedEntry;
    assert n > |bs| ==> bs + ParseBlocks(k, damaged, n - |bs|) == bs;
  }

  /** A count below the number of entries is obeyed. */
  lemma LoadTakesCount(k: Codec, bs: seq<Block>, rest: Bytes, count: nat, capacity: nat)
    requires k.Lawful() && FitsAll(k, bs) && count <= |bs| && count < U32_RANGE
    ensures Loaded(k, Le32(count) + (EntriesBytes(k, bs) + rest), capacity) == Take(bs[..count], capacity)
  {
    var data := Le32(count) + (EntriesBytes(k, bs) + rest);
    Le32Truncates(count);
    assert data[..4] == Le32(count) && data[4..] == EntriesBytes(k, bs) + rest;
    ParseThen(k, bs, rest, if count <= capacity then count else capacity);
  }

  // ---------- where each byte of a saved file is ----------

  /** The place of entry i in a file: behind the count, and behind each earlier hash, header and body with two
      lengths. */
  function Offset(k: Codec, bs: seq<Block>, i: nat): nat
    requires i <= |bs|
  {
    if i == 0 then 4
    else Offset(k, bs, i - 1) + 32 + 4 + |k.encodeHeader(bs[i - 1].header)| + 4 + |k.encodeBody(bs[i - 1].body)|
  }

  /** The bytes at p are n's four bytes, the lowest first. */
  predicate LittleEndianAt(d: Bytes, p: nat, n: nat) {
    && p + 4 <= |d|
    && d[p] == n % 256 && d[p + 1] == n / 256 % 256 && d[p + 2] == n / 65536 % 256 && d[p + 3] == n / 16777216 % 256
  }

  lemma {:induction false} EntriesSplit(k: Codec, bs: seq<Block>, i: nat)
    requires i <= |bs|
    ensures EntriesBytes(k, bs) == EntriesBytes(k, bs[..i]) + EntriesBytes(k, bs[i..])
    ensures 4 + |EntriesBytes(k, bs[..i])| == Offset(k, bs, i)
  {
    hide EntryBytes;
    if i > 0 {
      EntriesSplit(k, bs, i - 1);
      EntriesSnoc(k, bs[..i - 1], bs[i - 1]);
      EntryLength(k, bs[i - 1]);
      assert bs[..i] == bs[..i - 1] + [bs[i - 1]];
      assert bs[i - 1..][0] == bs[i - 1] && bs[i - 1..][1..] == bs[i..];
    }
  }

  lemma EntryLength(k: Codec, b: Block)
    ensures |EntryBytes(k, b)| == 32 + 4 + |k.encodeHeader(b.header)| + 4 + |k.encodeBody(b.body)|
  {
  }

  lemma {:induction false} EntriesSnoc(k: Codec, bs: seq<Block>, b: Block)
    ensures EntriesBytes(k, bs + [b]) == EntriesBytes(k, bs) + EntryBytes(k, b)
  {
    hide EntryBytes;
    if bs == [] {
      assert ([] + [b])[1..] == [];
    } else {
      EntriesSnoc(k, bs[1..], b);
      assert (bs + [b])[1..] == bs[1..] + [b];
    }
  }

  lemma ChunkLayout(x: Bytes, rest: Bytes)
    ensures var d := Chunk(x) + rest;
            LittleEndianAt(d, 0, |x|) && d[4..4 + |x|] == x && d[4 + |x|..] == rest
  {
  }

  lemma Shift(a: Bytes, d: Bytes, n: nat)
    ensures LittleEndianAt(d, 0, n) ==> LittleEndianAt(a + d, |a|, n)
    ensures forall i: nat, j: nat :: i <= j <= |d| ==> (a + d)[|a| + i..|a| + j] == d[i..j]
  {
    assert forall j :: 0 <= j < |d| ==> (a + d)[|a| + j] == d[j];
    assert |d| > 0 ==> (a + d)[|a| + 0] == d[0];
  }

  /** A field behind a: its length, then its bytes. */
  lemma ChunkAt(a: Bytes, x: Bytes, rest: Bytes)
    ensures var d, o := a + (Chunk(x) + rest), |a|;
            && o + 4 + |x| <= |d| && LittleEndianAt(d, o, |x|) && d[o + 4..o + 4 + |x|] == x
            && d == (a + Chunk(x)) + rest && |a + Chunk(x)| == o + 4 + |x|
  {
    ChunkLayout(x, rest);
    Shift(a, Chunk(x) + rest, |x|);
    hide LittleEndianAt;
    assert (a + (Chunk(x) + rest))[|a| + 4..|a| + (4 + |x|)] == x;
  }

  /** An entry behind `before`: the hash, the header behind its length, the body behind its length. */
  lemma EntryLayout(k: Codec, b: Block, before: Bytes, after: Bytes)
    ensures var x, y := k.encodeHeader(b.header), k.encodeBody(b.body);
            var o, d := |before|, before + (EntryBytes(k, b) + after);
            var p := o + 36 + |x|;
            && p + 4 + |y| <= |d| && d[o..o + 32] == b.hash.bytes
            && LittleEndianAt(d, o + 32, |x|) && d[o + 36..p] == x
            && LittleEndianAt(d, p, |y|) && d[p + 4..p + 4 + |y|] == y
  {
    hide Chunk, LittleEndianAt;
    var x, y := k.encodeHeader(b.header), k.encodeBody(b.body);
    var d, a := before + (EntryBytes(k, b) + after), before + b.hash.bytes;
    assert d == a + (Chunk(x) + (Chunk(y) + after));
    assert d[|before|..|before| + 32] == b.hash.bytes;
    ChunkAt(a, x, Chunk(y) + after);
    ChunkAt(a + Chunk(x), y, after);
  }

  /** A saved file byte by byte: the count and every length lowest byte first, every part at its place, and no
      byte more. */
  lemma SavedFileLayout(k: Codec, bs: seq<Block>, i: nat)
    requires i < |bs|
    ensures var d, o, b := FileBytes(k, bs), Offset(k, bs, i), bs[i];
            var x, y := k.encodeHeader(b.header), k.encodeBody(b.body);
            var p := o + 36 + |x|;
            && |d| == Offset(k, bs, |bs|) && p + 4 + |y| <= |d| && LittleEndianAt(d, 0, |bs|)
            && d[o..o + 32] == b.hash.bytes
            && LittleEndianAt(d, o + 32, |x|) && d[o + 36..p] == x
            && LittleEndianAt(d, p, |y|) && d[p + 4..p + 4 + |y|] == y
  {
    hide EntryBytes, LittleEndianAt, FileBytes, EntriesBytes, Offset, Le32;
    var b, before, after := bs[i], Le32(|bs|) + EntriesBytes(k, bs[..i]), EntriesBytes(k, bs[i + 1..]);
    FileSplit(k, bs, i);
    FileSize(k, bs);
    EntryLayout(k, b, before, after);
  }

  lemma FileSize(k: Codec, bs: seq<Block>)
    ensures LittleEndianAt(FileBytes(k, bs), 0, |bs|) && |FileBytes(k, bs)| == Offset(k, bs, |bs|)
  {
    EntriesSplit(k, bs, |bs|);
    assert bs[..|bs|] == bs;
  }

  lemma FileSplit(k: Codec, bs: seq<Block>, i: nat)
    requires i < |bs|
    ensures FileBytes(k, bs)
            == (Le32(|bs|) + EntriesBytes(k, bs[..i])) + (EntryBytes(k, bs[i]) + EntriesBytes(k, bs[i + 1..]))
    ensures |Le32(|bs|) + EntriesBytes(k, bs[..i])| == Offset(k, bs, i)
  {
    hide EntryBytes, EntriesBytes, Le32, Offset;
    EntriesSplit(k, bs, i);
    EntriesFrom(k, bs, i);
    Le32Size(|bs|);
    var c, g, e, r := Le32(|bs|), EntriesBytes(k, bs[..i]), EntryBytes(k, bs[i]), EntriesBytes(k, bs[i + 1..]);
    assert c + (g + (e + r)) == (c + g) + (e + r);
  }

  lemma EntriesFrom(k: Codec, bs: seq<Block>, i: nat)
    requires i < |bs|
    ensures EntriesBytes(k, bs[i..]) == EntryBytes(k, bs[i]) + EntriesBytes(k, bs[i + 1..])
  {
    assert bs[i..][1..] == bs[i + 1..];
  }

  lemma Le32Size(n: nat)
    ensures |Le32(n)| == 4
  {
  }

  // ---------- what is saved ----------

  /** The blocks complete in the cache, in the iteration order of the given numbers. */
  function Collect(c: Cache, numbers: seq<u64>): seq<Block> {
    if numbers == [] then []
    else Collect(c, numbers[..|numbers| - 1]) + CollectOne(c, numbers[|numbers| - 1])
  }

  function CollectOne(c: Cache, n: u64): seq<Block> {
    if n in c.hashByNumber.vals && n in c.headersByNumber.vals && c.hashByNumber.vals[n] in c.bodiesByHash.vals
    then [Block(c.hashByNumber.vals[n], c.headersByNumber.vals[n], c.bodiesByHash.vals[c.hashByNumber.vals[n]])]
    else []
  }

  /** Stable insertion by block number. */
  function InsertSorted(bs: seq<Block>, b: Block): seq<Block> {
    if bs == [] || bs[|bs| - 1].header.number <= b.header.number then bs + [b]
    else InsertSorted(bs[..|bs| - 1], b) + [bs[|bs| - 1]]
  }

  function SortByNumber(bs: seq<Block>): seq<Block> {
    if bs == [] then [] else InsertSorted(SortByNumber(bs[..|bs| - 1]), bs[|bs| - 1])
  }

  function Drain(c: Cache): seq<Block> {
    SortByNumber(Collect(c, c.hashByNumber.order))
  }

  /** b is complete in the cache: its hash and header under its number, and its body under that hash. */
  ghost predicate Stored(c: Cache, b: Block) {
    var n := b.header.number;
    && n in c.hashByNumber.vals && c.hashByNumber.vals[n] == b.hash
    && n in c.headersByNumber.vals && c.headersByNumber.vals[n] == b.header
    && b.hash in c.bodiesByHash.vals && c.bodiesByHash.vals[b.hash] == b.body
  }

  ghost predicate Ascending(bs: seq<Block>) {
    forall i, j :: 0 <= i < j < |bs| ==> bs[i].header.number < bs[j].header.number
  }

  ghost predicate DistinctNumbers(bs: seq<Block>) {
    forall i, j :: 0 <= i < j < |bs| ==> bs[i].header.number != bs[j].header.number
  }

  lemma AscendingAppend(bs: seq<Block>, l: Block)
    requires Ascending(bs) && forall x :: x in bs ==> x.header.number < l.header.number
    ensures Ascending(bs + [l])
  {
  }

  lemma {:induction false} InsertSortedAscends(bs: seq<Block>, b: Block)
    requires Ascending(bs) && forall x :: x in bs ==> x.header.number != b.header.number
    ensures Ascending(InsertSorted(bs, b))
    ensures forall x :: x in InsertSorted(bs, b) <==> x == b || x in bs
    ensures |InsertSorted(bs, b)| == |bs| + 1
  {
    if bs == [] || bs[|bs| - 1].header.number <= b.header.number {
      AscendingAppend(bs, b);
    } else {
      var g, l := bs[..|bs| - 1], bs[|bs| - 1];
      assert bs == g + [l];
      assert forall x :: x in g ==> x.header.number < l.header.number;
      InsertSortedAscends(g, b);
      hide Ascending;
      AscendingAppend(InsertSorted(g, b), l);
    }
  }

  lemma {:induction false} SortAscends(bs: seq<Block>)
    requires DistinctNumbers(bs)
    ensures Ascending(SortByNumber(bs))
    ensures forall x :: x in SortByNumber(bs) <==> x in bs
    ensures |SortByNumber(bs)| == |bs|
  {
    if bs != [] {
      var g, l := bs[..|bs| - 1], bs[|bs| - 1];
      SortAscends(g);
      assert bs == g + [l];
      InsertSortedAscends(SortByNumber(g), l);
    }
  }

  lemma {:induction false} CollectFacts(c: Cache, numbers: seq<u64>)
    requires NumbersMatch(c) && NoDup(numbers)
    ensures DistinctNumbers(Collect(c, numbers)) && |Collect(c, numbers)| <= |numbers|
    ensures forall b :: b in Collect(c, numbers) <==> b.header.number in numbers && Stored(c, b)
  {
    if numbers != [] {
      var g, n := numbers[..|numbers| - 1], numbers[|numbers| - 1];
      CollectFacts(c, g);
      assert numbers == g + [n] && n !in g;
      forall b ensures b in CollectOne(c, n) <==> b.header.number == n && Stored(c, b) {
      }
    }
  }

  /** What a save writes: exactly the complete blocks, once each, in strictly ascending number order. */
  lemma DrainFacts(c: Cache, cap: nat)
    requires WellFormed(c, cap) && NumbersMatch(c)
    ensures Ascending(Drain(c)) && |Drain(c)| <= cap
    ensures forall b :: b in Drain(c) <==> Stored(c, b)
  {
    var o := c.hashByNumber.order;
    CollectFacts(c, o);
    SortAscends(Collect(c, o));
    forall b ensures b in Drain(c) <==> Stored(c, b) {
      assert b.header.number in o <==> b.header.number in Elems(o);
    }
  }

  lemma AscendingTail(a: seq<Block>)
    requires Ascending(a) && a != []
    ensures forall x :: x in a[1..] <==> x in a && x != a[0]
  {
    assert a == [a[0]] + a[1..];
  }

  /** Two ascending lists of the same blocks are the same list. */
  lemma {:induction false} AscendingUnique(a: seq<Block>, b: seq<Block>)
    requires Ascending(a) && Ascending(b) && forall x :: x in a <==> x in b
    ensures a == b
  {
    assert a != [] ==> a[0] in b;
    assert b != [] ==> b[0] in a;
    if a != [] {
      assert a[0] in b;
      assert b[0] in a;
      assert a[0] == b[0];
      AscendingTail(a);
      AscendingTail(b);
      AscendingUnique(a[1..], b[1..]);
      assert a == [a[0]] + a[1..] && b == [b[0]] + b[1..];
    }
  }
}
