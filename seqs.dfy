/**
 * Sequence and map facts used by the query layer: order-preserving
 * sublists, `Array.prototype.filter`, counting by key and summing the
 * values of a map.
 */
module Seqs {

  /** `r` is `s` with some elements left out and the rest in their original order. */
  predicate Sublist<T(==)>(r: seq<T>, s: seq<T>)
  {
    if r == [] then true
    else if s == [] then false
    else if r[0] == s[0] then Sublist(r[1..], s[1..])
    else Sublist(r, s[1..])
  }

  lemma {:induction false} SublistOfSelf<T>(s: seq<T>)
    ensures Sublist(s, s)
  {
    if s != [] {
      SublistOfSelf(s[1..]);
    }
  }

  /** Every prefix of a sublist is a sublist. */
  lemma {:induction false} SublistPrefix<T>(r: seq<T>, s: seq<T>, k: nat)
    requires Sublist(r, s) && k <= |r|
    ensures Sublist(r[..k], s)
  {
    if k > 0 {
      if r[0] == s[0] {
        assert r[..k][1..] == r[1..][..k - 1];
        SublistPrefix(r[1..], s[1..], k - 1);
      } else {
        SublistPrefix(r, s[1..], k);
      }
    }
  }

  lemma {:induction false} SublistLength<T>(r: seq<T>, s: seq<T>)
    requires Sublist(r, s)
    ensures |r| <= |s|
  {
    if r != [] {
      if r[0] == s[0] {
        SublistLength(r[1..], s[1..]);
      } else {
        SublistLength(r, s[1..]);
      }
    }
  }

  /** `s.filter(p)`. */
  function Filter<T(==, !new)>(p: T -> bool, s: seq<T>): (r: seq<T>)
    ensures |r| <= |s|
    ensures forall x :: x in r <==> x in s && p(x)
    ensures Sublist(r, s)
  {
    if s == [] then []
    else if p(s[0]) then
      var rest := Filter(p, s[1..]);
      assert ([s[0]] + rest)[1..] == rest;
      [s[0]] + rest
    else Filter(p, s[1..])
  }

  /** `filter` keeps every occurrence of what passes the test and no occurrence of anything else. */
  lemma {:induction false} FilterCount<T(!new)>(p: T -> bool, s: seq<T>, x: T)
    ensures multiset(Filter(p, s))[x] == if p(x) then multiset(s)[x] else 0
  {
    if s != [] {
      FilterCount(p, s[1..], x);
      assert s == [s[0]] + s[1..];
    }
  }

  /** Two tests that agree on every element filter alike. */
  lemma {:induction false} FilterAgree<T(!new)>(p: T -> bool, q: T -> bool, s: seq<T>)
    requires forall x :: x in s ==> p(x) == q(x)
    ensures Filter(p, s) == Filter(q, s)
  {
    if s != [] {
      FilterAgree(p, q, s[1..]);
    }
  }

  /** Filtering by a test every element passes changes nothing. */
  lemma {:induction false} FilterAll<T(!new)>(p: T -> bool, s: seq<T>)
    requires forall x :: x in s ==> p(x)
    ensures Filter(p, s) == s
  {
    if s != [] {
      FilterAll(p, s[1..]);
      assert [s[0]] + s[1..] == s;
    }
  }

  /** Filtering a list with one more element at the end extends the result by that element if it passes. */
  lemma {:induction false} FilterSnoc<T(!new)>(p: T -> bool, s: seq<T>, x: T)
    ensures Filter(p, s + [x]) == Filter(p, s) + if p(x) then [x] else []
  {
    if s != [] {
      assert (s + [x])[1..] == s[1..] + [x];
      FilterSnoc(p, s[1..], x);
    }
  }

  // ---------- Counting by key ----------

  /** `counts[k] = (counts[k] || 0) + 1`. */
  function TallyAdd(counts: map<string, nat>, k: string): map<string, nat>
  {
    counts[k := (if k in counts then counts[k] else 0) + 1]
  }

  /** How many times each key occurs, counting the keys one by one. */
  function Tally(keys: seq<string>): map<string, nat>
  {
    if keys == [] then map[]
    else TallyAdd(Tally(keys[..|keys| - 1]), keys[|keys| - 1])
  }

  /** The tally has exactly the keys that occur, each with its number of occurrences. */
  lemma {:induction false} TallyCounts(keys: seq<string>)
    ensures forall k :: k in Tally(keys) <==> k in keys
    ensures forall k :: k in Tally(keys) ==> Tally(keys)[k] == multiset(keys)[k]
  {
    if keys != [] {
      var init := keys[..|keys| - 1];
      TallyCounts(init);
      assert keys == init + [keys[|keys| - 1]];
    }
  }

  /** The sum of the values of a map. */
  ghost function MapSum<K>(m: map<K, nat>): nat
  {
    if m == map[] then 0 else var k :| k in m; m[k] + MapSum(m - {k})
  }

  /** The sum does not depend on which key is taken out first. */
  lemma {:induction false} MapSumRemove<K>(m: map<K, nat>, k: K)
    requires k in m
    ensures MapSum(m) == m[k] + MapSum(m - {k})
    decreases |m|
  {
    var j :| j in m && MapSum(m) == m[j] + MapSum(m - {j});
    if j != k {
      MapSumRemove(m - {j}, k);
      MapSumRemove(m - {k}, j);
      assert m - {j} - {k} == m - {k} - {j};
    }
  }

  /** Maps with the same entries have the same sum. */
  lemma MapSumSame<K>(m1: map<K, nat>, m2: map<K, nat>)
    requires forall k :: k in m1 ==> k in m2 && m1[k] == m2[k]
    requires forall k :: k in m2 ==> k in m1
    ensures MapSum(m1) == MapSum(m2)
  {
    assert m1 == m2;
  }

  /** Counting one more occurrence adds one to the sum. */
  lemma {:induction false} MapSumBump(t: map<string, nat>, k: string)
    ensures MapSum(TallyAdd(t, k)) == MapSum(t) + 1
  {
    var u := TallyAdd(t, k);
    MapSumRemove(u, k);
    if k in t {
      MapSumRemove(t, k);
      assert u - {k} == t - {k};
    } else {
      assert u - {k} == t;
    }
  }

  /** The counts of a tally add up to the number of keys tallied. */
  lemma {:induction false} TallyTotal(keys: seq<string>)
    ensures MapSum(Tally(keys)) == |keys|
  {
    if keys != [] {
      var init := keys[..|keys| - 1];
      TallyTotal(init);
      MapSumBump(Tally(init), keys[|keys| - 1]);
    }
  }
}
