/** The bounded map under every cache of the node: least recently used key evicted first. */
module LruMap {
  import opened Recency

  datatype Option<+T> = None | Some(value: T)

  /** The abstract state: keys by recency (most recent first) and the value of each. */
  datatype Lru<K(==, !new), V> = Lru(cap: nat, order: seq<K>, vals: map<K, V>) {

    ghost predicate Valid() {
      && 1 <= cap
      && |order| <= cap
      && NoDup(order)
      && Elems(order) == vals.Keys
    }

    function Lookup(k: K): Option<V> {
      if k in vals then Some(vals[k]) else None
    }

    /** k becomes the most recent key with value v; whatever no longer fits at the old end is dropped. */
    function Push(k: K, v: V): Lru<K, V> {
      var o := Take(Bump(order, k), cap);
      var m := vals[k := v];
      Lru(cap, o, map x | x in m && x in o :: m[x])
    }

    /** A hit makes k the most recent key; a miss changes nothing. */
    function Touch(k: K): Lru<K, V> {
      if k in vals then Lru(cap, Bump(order, k), vals) else this
    }
  }

  function Fresh<K(!new), V>(cap: nat): Lru<K, V> {
    Lru(cap, [], map[])
  }

  lemma PushValid<K(!new), V>(l: Lru<K, V>, k: K, v: V)
    requires l.Valid()
    ensures l.Push(k, v).Valid() && l.Push(k, v).cap == l.cap
    ensures l.Push(k, v).order == Take(Bump(l.order, k), l.cap)
    ensures l.Push(k, v).Lookup(k) == Some(v)
    ensures Above(l.Push(k, v).order, k) == {}
  {
    BumpNoDup(l.order, k);
    var b := Bump(l.order, k);
    var p := l.Push(k, v);
    assert p.order[0] == k;
    forall x ensures x in Elems(p.order) <==> x in p.vals {
      if x in p.order {
        assert x in Elems(b);
      }
    }
  }

  /** Another key survives a push exactly while fewer than cap keys are then above it. */
  lemma PushOther<K(!new), V>(l: Lru<K, V>, k: K, v: V, x: K)
    requires l.Valid() && x != k
    ensures x in l.Push(k, v).vals <==> x in l.vals && |Above(l.order, x) + {k}| < l.cap
    ensures x in l.Push(k, v).vals ==>
              && l.Push(k, v).vals[x] == l.vals[x]
              && Above(l.Push(k, v).order, x) == Above(l.order, x) + {k}
  {
    PushValid(l, k, v);
    var b := Bump(l.order, k);
    BumpNoDup(l.order, k);
    assert x in l.Push(k, v).vals <==> x in Elems(Take(b, l.cap));
    if x in l.vals {
      assert x in Elems(l.order);
      assert x in Elems(b);
      AboveBump(l.order, k, x);
      AboveRank(b, l.cap, x);
    } else {
      assert x !in Elems(b);
    }
  }

  /** While there is room, or when the key is already present, a push evicts nothing. */
  lemma PushRoom<K(!new), V>(l: Lru<K, V>, k: K, v: V)
    requires l.Valid() && (k in l.vals || |l.order| < l.cap)
    ensures l.Push(k, v).vals == l.vals[k := v]
    ensures l.Push(k, v).order == Bump(l.order, k)
  {
    assert k in Elems(l.order) <==> k in l.vals;
    BumpNoDup(l.order, k);
    assert Take(Bump(l.order, k), l.cap) == Bump(l.order, k);
    forall x ensures x in l.vals || x == k <==> x in Bump(l.order, k) {
      assert x in Elems(Bump(l.order, k)) <==> x in Elems(l.order) || x == k;
    }
  }

  lemma PushPresent<K(!new), V>(l: Lru<K, V>, k: K, v: V)
    requires l.Valid() && k in l.vals
    ensures l.Push(k, v) == Lru(l.cap, Bump(l.order, k), l.vals[k := v])
  {
    PushRoom(l, k, v);
  }

  lemma PushAbsent<K(!new), V>(l: Lru<K, V>, k: K, v: V)
    requires l.Valid() && k !in l.vals && |l.order| < l.cap
    ensures l.Push(k, v) == Lru(l.cap, [k] + l.order, l.vals[k := v])
  {
    PushRoom(l, k, v);
    assert k !in Elems(l.order);
    RemoveNoDup(l.order, k);
  }

  /** A push of a new key into a full cache evicts the least recent key and no other. */
  lemma PushFull<K(!new), V>(l: Lru<K, V>, k: K, v: V)
    requires l.Valid() && k !in l.vals && |l.order| == l.cap
    ensures var n := l.cap - 1;
            l.Push(k, v) == Lru(l.cap, [k] + l.order[..n], (l.vals - {l.order[n]})[k := v])
  {
    var n := l.cap - 1;
    var p := l.Push(k, v);
    assert k !in Elems(l.order);
    RemoveAbsent(l.order, k);
    PushValid(l, k, v);
    TakeCons(k, l.order, n);
    assert p.order == [k] + l.order[..n];
    ElemsCons(k, l.order[..n]);
    ElemsButLast(l.order);
    hide Elems, NoDup, Remove, Take, Bump;
    assert p.vals.Keys == (l.vals - {l.order[n]})[k := v].Keys;
  }

  lemma TouchFacts<K(!new), V>(l: Lru<K, V>, k: K)
    requires l.Valid()
    ensures l.Touch(k).Valid() && l.Touch(k).cap == l.cap && l.Touch(k).vals == l.vals
    ensures Elems(l.Touch(k).order) == Elems(l.order) && |l.Touch(k).order| == |l.order|
  {
    assert k in Elems(l.order) <==> k in l.vals;
    BumpNoDup(l.order, k);
  }

  lemma TouchAbove<K(!new), V>(l: Lru<K, V>, k: K, x: K)
    requires l.Valid() && k in l.vals
    ensures Above(l.Touch(k).order, x) == if x == k then {} else Above(l.order, x) + {k}
  {
    AboveBump(l.order, k, x);
  }

  function PushAll<K(!new), V>(l: Lru<K, V>, kvs: seq<(K, V)>): Lru<K, V> {
    if kvs == [] then l else PushAll(l, kvs[..|kvs| - 1]).Push(kvs[|kvs| - 1].0, kvs[|kvs| - 1].1)
  }

  /** A key stays, with its value, through fewer than cap later pushes of other keys. */
  lemma {:induction false} PushedSurvives<K(!new), V>(l: Lru<K, V>, kvs: seq<(K, V)>, i: nat)
    requires l.Valid() && i < |kvs| && |kvs| - i <= l.cap
    requires forall j :: i < j < |kvs| ==> kvs[j].0 != kvs[i].0
    ensures var m := PushAll(l, kvs);
            && m.Valid() && m.cap == l.cap
            && m.Lookup(kvs[i].0) == Some(kvs[i].1)
            && |Above(m.order, kvs[i].0)| <= |kvs| - 1 - i
  {
    var g, kv := kvs[..|kvs| - 1], kvs[|kvs| - 1];
    PushAllValid(l, g);
    PushValid(PushAll(l, g), kv.0, kv.1);
    if i < |g| {
      PushedSurvives(l, g, i);
      PushOther(PushAll(l, g), kv.0, kv.1, kvs[i].0);
    }
  }

  lemma {:induction false} PushAllValid<K(!new), V>(l: Lru<K, V>, kvs: seq<(K, V)>)
    requires l.Valid()
    ensures PushAll(l, kvs).Valid() && PushAll(l, kvs).cap == l.cap
  {
    if kvs != [] {
      PushAllValid(l, kvs[..|kvs| - 1]);
      PushValid(PushAll(l, kvs[..|kvs| - 1]), kvs[|kvs| - 1].0, kvs[|kvs| - 1].1);
    }
  }

  // ---------- whole histories ----------

  datatype LruOp<K, V> = Push(key: K, value: V) | Get(key: K) | Promote(key: K) | Peek(key: K)

  function ApplyOp<K(!new), V>(l: Lru<K, V>, op: LruOp<K, V>): Lru<K, V> {
    match op
    case Push(k, v) => l.Push(k, v)
    case Get(k) => l.Touch(k)
    case Promote(k) => l.Touch(k)
    case Peek(_) => l
  }

  function RunOps<K(!new), V>(l: Lru<K, V>, ops: seq<LruOp<K, V>>): Lru<K, V> {
    if ops == [] then l else ApplyOp(RunOps(l, ops[..|ops| - 1]), ops[|ops| - 1])
  }

  /** The keys an operation makes most recent: a pushed key, or a key that get or promote finds. */
  function Touched<K(!new), V>(l: Lru<K, V>, op: LruOp<K, V>): seq<K> {
    if op.Push? || (!op.Peek? && op.key in l.vals) then [op.key] else []
  }

  function Touches<K(!new), V>(l: Lru<K, V>, ops: seq<LruOp<K, V>>): seq<K> {
    if ops == [] then []
    else Touches(l, ops[..|ops| - 1]) + Touched(RunOps(l, ops[..|ops| - 1]), ops[|ops| - 1])
  }

  function LastPushed<K(==), V>(ops: seq<LruOp<K, V>>, k: K): Option<V> {
    if ops == [] then None
    else if ops[|ops| - 1].Push? && ops[|ops| - 1].key == k then Some(ops[|ops| - 1].value)
    else LastPushed(ops[..|ops| - 1], k)
  }

  /** Over every history of a fresh cache: the keys are the last cap distinct touched keys, in
      recency order, and each carries the value last pushed for it. */
  lemma {:induction false} KeepsMostRecent<K(!new), V>(cap: nat, ops: seq<LruOp<K, V>>)
    requires 1 <= cap
    ensures var l := RunOps(Fresh(cap), ops);
            && l.Valid() && l.cap == cap
            && l.order == Take(Recent(Touches(Fresh(cap), ops)), cap)
            && forall k :: k in l.vals ==> LastPushed(ops, k) == Some(l.vals[k])
  {
    if ops != [] {
      var g, op := ops[..|ops| - 1], ops[|ops| - 1];
      var l := RunOps<K, V>(Fresh(cap), g);
      KeepsMostRecent(cap, g);
      var t := Touches<K, V>(Fresh(cap), g);
      RecentIsHistory(t);
      if Touched(l, op) == [] {
        assert t + [] == t;
      } else {
        var k := op.key;
        assert (t + [k])[..|t|] == t;
        assert Recent(t + [k]) == Bump(Recent(t), k);
        TakeBump(Recent(t), cap, k);
        if op.Push? {
          PushValid(l, k, op.value);
          forall x | x in ApplyOp(l, op).vals ensures LastPushed(ops, x) == Some(ApplyOp(l, op).vals[x]) {
            if x != k { PushOther(l, k, op.value, x); }
          }
        } else {
          TouchFacts(l, k);
          assert |Bump(l.order, k)| <= cap;
        }
      }
    }
  }

  // ---------- the cache object ----------

  class LruCache<K(==, !new), V> {
    const cap: nat
    var order: seq<K>
    var vals: map<K, V>

    ghost function View(): Lru<K, V>
      reads this
    {
      Lru(cap, order, vals)
    }

    ghost predicate Valid()
      reads this
    {
      View().Valid()
    }

    constructor (cap: nat)
      requires 1 <= cap
      ensures Valid() && View() == Fresh(cap)
    {
      this.cap := cap;
      order := [];
      vals := map[];
    }

    /** Overwrite and move to the front, or evict the least recent key when full. */
    method Push(k: K, v: V)
      requires Valid()
      modifies this
      ensures Valid() && View() == old(View()).Push(k, v)
    {
      hide NoDup, Elems, Take, Bump;
      PushValid(View(), k, v);
      if k in vals {
        PushPresent(View(), k, v);
        order := Bump(order, k);
        vals := vals[k := v];
      } else if |order| < cap {
        PushAbsent(View(), k, v);
        order := [k] + order;
        vals := vals[k := v];
      } else {
        PushFull(View(), k, v);
        var victim := order[|order| - 1];
        order := [k] + order[..|order| - 1];
        vals := (vals - {victim})[k := v];
      }
    }

    method Get(k: K) returns (r: Option<V>)
      requires Valid()
      modifies this
      ensures Valid() && View() == old(View()).Touch(k)
      ensures r == old(View()).Lookup(k)
    {
      TouchFacts(View(), k);
      if k in vals {
        order := Bump(order, k);
        r := Some(vals[k]);
      } else {
        r := None;
      }
    }

    method Promote(k: K)
      requires Valid()
      modifies this
      ensures Valid() && View() == old(View()).Touch(k)
    {
      TouchFacts(View(), k);
      if k in vals {
        order := Bump(order, k);
      }
    }

    method Contains(k: K) returns (b: bool)
      ensures b == (k in vals)
    {
      b := k in vals;
    }

    method Peek(k: K) returns (r: Option<V>)
      ensures r == View().Lookup(k)
    {
      r := if k in vals then Some(vals[k]) else None;
    }
  }
}
