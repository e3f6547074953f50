/** Sequences ordered by recency, most recent first, without repetition. */
module Recency {

  function Elems<K>(s: seq<K>): set<K> {
    set x | x in s
  }

  ghost predicate NoDup<K>(s: seq<K>) {
    forall i, j :: 0 <= i < j < |s| ==> s[i] != s[j]
  }

  lemma ElemsCons<K(!new)>(k: K, s: seq<K>)
    ensures Elems([k] + s) == Elems(s) + {k}
  {
  }

  lemma ElemsButLast<K(!new)>(s: seq<K>)
    requires NoDup(s) && s != []
    ensures Elems(s[..|s| - 1]) == Elems(s) - {s[|s| - 1]}
  {
    var g, x := s[..|s| - 1], s[|s| - 1];
    assert s == g + [x];
    assert x !in g;
  }

  lemma {:induction false} ElemsSize<K(!new)>(s: seq<K>)
    ensures |Elems(s)| <= |s|
  {
    if s != [] {
      ElemsSize(s[1..]);
      ElemsCons(s[0], s[1..]);
      assert s == [s[0]] + s[1..];
    }
  }

  lemma {:induction false} SizeOfElems<K(!new)>(s: seq<K>)
    requires NoDup(s)
    ensures |Elems(s)| == |s|
  {
    if s != [] {
      SizeOfElems(s[..|s| - 1]);
      ElemsButLast(s);
      assert s[|s| - 1] in Elems(s);
    }
  }

  lemma {:induction false} SubsetCard<T>(a: set<T>, b: set<T>)
    requires a <= b
    ensures |a| <= |b|
  {
    if a != {} {
      var x :| x in a;
      SubsetCard(a - {x}, b - {x});
    }
  }

  function Take<K>(s: seq<K>, n: nat): seq<K> {
    if n <= |s| then s[..n] else s
  }

  function Remove<K(==, !new)>(s: seq<K>, k: K): (r: seq<K>)
    ensures forall x :: x in r <==> x in s && x != k
  {
    if s == [] then []
    else if s[0] == k then Remove(s[1..], k)
    else [s[0]] + Remove(s[1..], k)
  }

  /** k becomes the most recent key. */
  function Bump<K(==, !new)>(s: seq<K>, k: K): seq<K> {
    [k] + Remove(s, k)
  }

  /** The keys become the most recent in turn. */
  function BumpAll<K(==, !new)>(s: seq<K>, ks: seq<K>): seq<K> {
    if ks == [] then s else Bump(BumpAll(s, ks[..|ks| - 1]), ks[|ks| - 1])
  }

  lemma BumpAllStep<K(!new)>(s: seq<K>, ks: seq<K>, k: K)
    ensures BumpAll(s, ks + [k]) == Bump(BumpAll(s, ks), k)
  {
    assert (ks + [k])[..|ks|] == ks;
  }

  /** The keys more recent than k. */
  function Above<K(==, !new)>(s: seq<K>, k: K): set<K> {
    if s == [] || s[0] == k then {} else {s[0]} + Above(s[1..], k)
  }

  lemma {:induction false} RemoveNoDup<K(!new)>(s: seq<K>, k: K)
    requires NoDup(s)
    ensures NoDup(Remove(s, k))
    ensures |Remove(s, k)| == if k in s then |s| - 1 else |s|
    ensures k !in s ==> Remove(s, k) == s
  {
    if s != [] {
      var r := Remove(s[1..], k);
      RemoveNoDup(s[1..], k);
      assert s[0] !in s[1..];
      if s[0] != k {
        NoDupCons(s[0], r);
      }
    }
  }

  lemma {:induction false} RemoveAbsent<K(!new)>(s: seq<K>, k: K)
    requires k !in s
    ensures Remove(s, k) == s
  {
    if s != [] {
      RemoveAbsent(s[1..], k);
      assert s == [s[0]] + s[1..];
    }
  }

  lemma ElemsNonEmpty<K(!new)>(s: seq<K>)
    ensures s != [] ==> Elems(s) != {}
  {
    if s != [] {
      assert s[0] in Elems(s);
    }
  }

  lemma NoDupCons<K(!new)>(x: K, s: seq<K>)
    requires NoDup(s) && x !in s
    ensures NoDup([x] + s)
  {
    forall i, j | 0 <= i < j < |s| + 1 ensures ([x] + s)[i] != ([x] + s)[j] {
      assert ([x] + s)[j] == s[j - 1];
    }
  }

  lemma BumpNoDup<K(!new)>(s: seq<K>, k: K)
    requires NoDup(s)
    ensures NoDup(Bump(s, k))
    ensures |Bump(s, k)| == if k in s then |s| else |s| + 1
    ensures Elems(Bump(s, k)) == Elems(s) + {k}
  {
    RemoveNoDup(s, k);
    forall x ensures x in Bump(s, k) <==> x == k || x in s {
      assert x in Bump(s, k) <==> x == k || x in Remove(s, k);
    }
  }

  lemma {:induction false} AboveIn<K(!new)>(s: seq<K>, k: K)
    ensures Above(s, k) <= Elems(s) - {k}
  {
    if s != [] && s[0] != k {
      AboveIn(s[1..], k);
    }
  }

  lemma {:induction false} AboveRemove<K(!new)>(s: seq<K>, k: K, x: K)
    requires x != k
    ensures Above(Remove(s, k), x) == Above(s, x) - {k}
  {
    if s != [] {
      AboveRemove(s[1..], k, x);
      if s[0] != k {
        assert Remove(s, k)[1..] == Remove(s[1..], k);
      }
    }
  }

  /** Touching k puts k above every other key and changes nothing else in what is above it. */
  lemma AboveBump<K(!new)>(s: seq<K>, k: K, x: K)
    ensures Above(Bump(s, k), x) == if x == k then {} else Above(s, x) + {k}
  {
    if x != k {
      AboveRemove(s, k, x);
      assert Bump(s, k)[1..] == Remove(s, k);
    }
  }

  lemma {:induction false} AboveAt<K(!new)>(s: seq<K>, i: nat)
    requires NoDup(s) && i < |s|
    ensures |Above(s, s[i])| == i
  {
    if i > 0 {
      var t := s[1..];
      AboveAt(t, i - 1);
      AboveIn(t, t[i - 1]);
      assert s[0] !in Above(t, t[i - 1]);
    }
  }

  lemma {:induction false} AboveTake<K(!new)>(s: seq<K>, n: nat, k: K)
    requires k in Take(s, n)
    ensures Above(Take(s, n), k) == Above(s, k)
  {
    if s[0] != k {
      assert Take(s, n)[1..] == Take(s[1..], n - 1);
      AboveTake(s[1..], n - 1, k);
    }
  }

  /** A key is among the first n exactly when fewer than n keys are above it. */
  lemma AboveRank<K(!new)>(s: seq<K>, n: nat, k: K)
    requires NoDup(s) && k in s
    ensures k in Take(s, n) <==> |Above(s, k)| < n
    ensures k in Take(s, n) ==> Above(Take(s, n), k) == Above(s, k)
  {
    var i :| 0 <= i < |s| && s[i] == k;
    AboveAt(s, i);
    if i < n {
      assert Take(s, n)[i] == k;
      AboveTake(s, n, k);
    }
  }

  lemma TakeCons<K(!new)>(x: K, t: seq<K>, n: nat)
    ensures Take([x] + t, n + 1) == [x] + Take(t, n)
  {
  }

  lemma {:induction false} TakeRemove<K(!new)>(s: seq<K>, n: nat, k: K)
    requires NoDup(s)
    ensures Take(Remove(Take(s, n + 1), k), n) == Take(Remove(s, k), n)
  {
    if s != [] {
      var x, t := s[0], s[1..];
      var u := Take(t, n);
      assert s == [x] + t && x !in t && NoDup(t) && x !in u && Take(u, n) == u;
      assert Take(Remove(s, k), 0) == [] && Take(Remove([x] + u, k), 0) == [];
      TakeCons(x, t, n);
      assert ([x] + u)[1..] == u;
      hide NoDup, Take;
      if x == k {
        RemoveAbsent(t, k);
        RemoveAbsent(u, k);
      } else if n > 0 {
        TakeRemove(t, n - 1, k);
        TakeCons(x, Remove(t, k), n - 1);
        TakeCons(x, Remove(u, k), n - 1);
      }
    }
  }

  /** The stack property of LRU: what a bounded list keeps is a prefix of what an unbounded one keeps. */
  lemma TakeBump<K(!new)>(s: seq<K>, n: nat, k: K)
    requires NoDup(s) && n >= 1
    ensures Take(Bump(Take(s, n), k), n) == Take(Bump(s, k), n)
  {
    TakeRemove(s, n - 1, k);
    assert Take(Bump(s, k), n) == [k] + Take(Remove(s, k), n - 1);
    assert Take(Bump(Take(s, n), k), n) == [k] + Take(Remove(Take(s, n), k), n - 1);
  }

  // ---------- histories of touches, oldest first ----------

  /** The distinct keys of a history, most recently touched first. */
  function Recent<K(==, !new)>(h: seq<K>): seq<K> {
    if h == [] then [] else Bump(Recent(h[..|h| - 1]), h[|h| - 1])
  }

  /** One past the last position of k in h; 0 when k does not occur. */
  function AfterLast<K(==, !new)>(h: seq<K>, k: K): (i: nat)
    ensures i <= |h|
    ensures i == 0 <==> k !in h
    ensures i > 0 ==> h[i - 1] == k
    ensures k !in h[i..]
  {
    if h == [] then 0
    else if h[|h| - 1] == k then |h|
    else
      var i := AfterLast(h[..|h| - 1], k);
      assert h == h[..|h| - 1] + [h[|h| - 1]];
      assert h[i..] == h[..|h| - 1][i..] + [h[|h| - 1]];
      i
  }

  /** The distinct keys touched since k was last touched. */
  function Since<K(==, !new)>(h: seq<K>, k: K): set<K> {
    Elems(h[AfterLast(h, k)..])
  }

  lemma {:induction false} RecentIsHistory<K(!new)>(h: seq<K>)
    ensures NoDup(Recent(h)) && Elems(Recent(h)) == Elems(h)
  {
    if h != [] {
      var g, k := h[..|h| - 1], h[|h| - 1];
      RecentIsHistory(g);
      BumpNoDup(Recent(g), k);
      assert h == g + [k];
      assert Elems(h) == Elems(g) + {k};
    }
  }

  /** The keys ahead of k in the recency order are those touched since k. */
  lemma {:induction false} RecentAbove<K(!new)>(h: seq<K>, k: K)
    requires k in h
    ensures Above(Recent(h), k) == Since(h, k)
  {
    var g, l := h[..|h| - 1], h[|h| - 1];
    AboveBump(Recent(g), l, k);
    if l != k {
      assert h == g + [l];
      RecentAbove(g, k);
      var i := AfterLast(g, k);
      assert h[i..] == g[i..] + [l];
      assert AfterLast(h, k) == i;
    }
  }

  /** k was touched, and fewer than n others since. */
  predicate Recently<K(==, !new)>(h: seq<K>, n: nat, k: K) {
    k in h && |Since(h, k)| < n
  }

  /** Stack distance: k is among the n most recent keys iff it occurred and fewer than n others followed it. */
  lemma StackDistance<K(!new)>(h: seq<K>, n: nat, k: K)
    ensures k in Take(Recent(h), n) <==> Recently(h, n, k)
  {
    RecentIsHistory(h);
    assert k in Elems(Recent(h)) <==> k in Elems(h);
    if k in h {
      RecentAbove(h, k);
      AboveRank(Recent(h), n, k);
    }
  }

  lemma RecentStep<K(!new)>(h: seq<K>, k: K)
    ensures Recent(h + [k]) == Bump(Recent(h), k)
  {
    assert (h + [k])[..|h|] == h;
  }

  function Reversed<K>(s: seq<K>): seq<K> {
    if s == [] then [] else Reversed(s[1..]) + [s[0]]
  }

  /** A recency list is what its keys leave when touched from the oldest to the most recent. */
  lemma {:induction false} RecentReversed<K(!new)>(s: seq<K>)
    requires NoDup(s)
    ensures Recent(Reversed(s)) == s
  {
    if s != [] {
      RecentReversed(s[1..]);
      RecentStep(Reversed(s[1..]), s[0]);
      assert s == [s[0]] + s[1..] && s[0] !in s[1..];
      RemoveAbsent(s[1..], s[0]);
    }
  }
}
