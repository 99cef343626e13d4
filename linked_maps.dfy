/**
 * Java's `LinkedHashMap` as a value: the entries in insertion order.
 * `put` on a key already present replaces the value in the key's original
 * position; `put` on a new key appends it; `putAll` puts the entries of the
 * argument one after the other in its iteration order.
 */
module LinkedMaps {
  import opened Wrappers

  type Entries<K, V> = seq<(K, V)>

  function Keys<K(==, !new), V>(m: Entries<K, V>): seq<K> {
    seq(|m|, i requires 0 <= i < |m| => m[i].0)
  }

  function KeySet<K(==, !new), V>(m: Entries<K, V>): set<K> {
    set i | 0 <= i < |m| :: m[i].0
  }

  /** No key occurs twice: the shape of every map built by `Put`. */
  ghost predicate Distinct<K(!new), V>(m: Entries<K, V>) {
    forall i, j :: 0 <= i < j < |m| ==> m[i].0 != m[j].0
  }

  /** The position of the first occurrence of `k` in `ks`, or -1. */
  function Find<K(==)>(ks: seq<K>, k: K): (i: int)
    ensures -1 <= i < |ks|
    ensures 0 <= i ==> ks[i] == k && forall j :: 0 <= j < i ==> ks[j] != k
    ensures i < 0 <==> k !in ks
  {
    if ks == [] then -1
    else if ks[0] == k then 0
    else
      var j := Find(ks[1..], k);
      if j < 0 then -1 else j + 1
  }

  /** `LinkedHashMap.get`, with `None` for an absent key. */
  function Get<K(==, !new), V>(m: Entries<K, V>, k: K): (r: Option<V>)
    ensures r.Some? <==> k in KeySet(m)
    ensures r.Some? ==> (k, r.value) in m
  {
    var i := Find(Keys(m), k);
    assert i >= 0 ==> m[i] == (k, m[i].1);
    assert k in KeySet(m) ==> k in Keys(m) by {
      if k in KeySet(m) {
        var n :| 0 <= n < |m| && m[n].0 == k;
        assert Keys(m)[n] == k;
      }
    }
    if i < 0 then None else Some(m[i].1)
  }

  /** In a map whose keys are distinct, an entry's key finds that entry's value. */
  lemma GetDistinct<K(!new), V>(m: Entries<K, V>, i: int)
    requires Distinct(m) && 0 <= i < |m|
    ensures Get(m, m[i].0) == Some(m[i].1)
  {
  }

  /** `LinkedHashMap.put`. */
  function Put<K(==, !new), V>(m: Entries<K, V>, k: K, v: V): (r: Entries<K, V>)
    ensures Get(r, k) == Some(v)
    ensures forall j :: j != k ==> Get(r, j) == Get(m, j)
    ensures KeySet(r) == KeySet(m) + {k}
    ensures forall e :: e in r ==> e in m || e == (k, v)
    ensures k in KeySet(m) ==> Keys(r) == Keys(m)
    ensures k !in KeySet(m) ==> r == m + [(k, v)] && Keys(r) == Keys(m) + [k]
    ensures Distinct(m) ==> Distinct(r)
  {
    var i := Find(Keys(m), k);
    KeySetIsKeys(m, k);
    if i < 0 then
      PutNew(m, k, v);
      m + [(k, v)]
    else
      PutExisting(m, i, v);
      m[i := (k, v)]
  }

  lemma KeySetIsKeys<K(!new), V>(m: Entries<K, V>, k: K)
    ensures k in KeySet(m) <==> k in Keys(m)
  {
    if k in KeySet(m) {
      var n :| 0 <= n < |m| && m[n].0 == k;
      assert Keys(m)[n] == k;
    }
  }

  /** `put` of a new key appends it. */
  lemma PutNew<K(!new), V>(m: Entries<K, V>, k: K, v: V)
    requires k !in Keys(m)
    ensures var r := m + [(k, v)];
      && Keys(r) == Keys(m) + [k]
      && KeySet(r) == KeySet(m) + {k}
      && Get(r, k) == Some(v)
      && (forall j :: j != k ==> Get(r, j) == Get(m, j))
      && (forall e :: e in r ==> e in m || e == (k, v))
      && (Distinct(m) ==> Distinct(r))
  {
    var r := m + [(k, v)];
    assert Keys(r) == Keys(m) + [k];
    FindAppend(Keys(m), k);
    assert r[|m|].0 == k;
    assert forall n :: 0 <= n < |m| ==> r[n] == m[n];
    assert forall n :: 0 <= n < |m| ==> Keys(m)[n] == m[n].0;
  }

  /** `put` of a key present at position `i` replaces the value there. */
  lemma PutExisting<K(!new), V>(m: Entries<K, V>, i: int, v: V)
    requires 0 <= i < |m|
    ensures var r := m[i := (m[i].0, v)];
      && Keys(r) == Keys(m)
      && KeySet(r) == KeySet(m)
      && (Find(Keys(m), m[i].0) == i ==> Get(r, m[i].0) == Some(v))
      && (forall j :: j != m[i].0 ==> Get(r, j) == Get(m, j))
      && (forall e :: e in r ==> e in m || e == (m[i].0, v))
      && (Distinct(m) ==> Distinct(r))
  {
    var r := m[i := (m[i].0, v)];
    assert Keys(r) == Keys(m);
    forall x | x in KeySet(m) ensures x in KeySet(r) {
      var n :| 0 <= n < |m| && m[n].0 == x;
      assert r[n].0 == x;
    }
  }

  /** Appending a key absent from `ks` finds it last and leaves every other key's position alone. */
  lemma FindAppend<K>(ks: seq<K>, k: K)
    requires k !in ks
    ensures Find(ks + [k], k) == |ks|
    ensures forall j :: j != k ==> Find(ks + [k], j) == Find(ks, j)
  {
    forall j | j != k ensures Find(ks + [k], j) == Find(ks, j) {
      var a, b := Find(ks, j), Find(ks + [k], j);
      if a >= 0 {
        assert (ks + [k])[a] == j;
      }
      if b >= 0 {
        assert b < |ks| && ks[b] == j;
      }
    }
  }

  /** `putAll(n)` on `m`: the entries of `n` put one after the other. */
  function PutAll<K(==, !new), V>(m: Entries<K, V>, n: Entries<K, V>): (r: Entries<K, V>)
    ensures KeySet(r) == KeySet(m) + KeySet(n)
    ensures |m| <= |r| <= |m| + |n|
    ensures Keys(r)[..|m|] == Keys(m)
    ensures forall e :: e in r ==> e in m || e in n
    ensures Distinct(m) ==> Distinct(r)
  {
    if n == [] then m
    else
      var rest := PutAll(m, n[..|n| - 1]);
      var r := Put(rest, n[|n| - 1].0, n[|n| - 1].1);
      PutAllStep(m, n, rest, r);
      r
  }

  /** One more entry of `n` put keeps the contract of `PutAll`. */
  lemma PutAllStep<K(!new), V>(m: Entries<K, V>, n: Entries<K, V>, rest: Entries<K, V>, r: Entries<K, V>)
    requires n != []
    requires KeySet(rest) == KeySet(m) + KeySet(n[..|n| - 1])
    requires |m| <= |rest| <= |m| + |n| - 1 && Keys(rest)[..|m|] == Keys(m)
    requires forall e :: e in rest ==> e in m || e in n[..|n| - 1]
    requires KeySet(r) == KeySet(rest) + {n[|n| - 1].0}
    requires Keys(r) == Keys(rest) || Keys(r) == Keys(rest) + [n[|n| - 1].0]
    requires forall e :: e in r ==> e in rest || e == n[|n| - 1]
    ensures KeySet(r) == KeySet(m) + KeySet(n)
    ensures |m| <= |r| <= |m| + |n|
    ensures Keys(r)[..|m|] == Keys(m)
    ensures forall e :: e in r ==> e in m || e in n
  {
  }

  /** The elements of `ks` in the order of their first appearance, later repeats dropped. */
  function FirstOccurrences<K(==)>(ks: seq<K>): seq<K> {
    if ks == [] then []
    else
      var init := ks[..|ks| - 1];
      if ks[|ks| - 1] in init then FirstOccurrences(init)
      else FirstOccurrences(init) + [ks[|ks| - 1]]
  }

  /** Dropping repeats keeps every element. */
  lemma {:induction false} FirstOccurrencesMembers<K>(ks: seq<K>)
    ensures forall x :: x in FirstOccurrences(ks) <==> x in ks
  {
    if ks != [] {
      var init := ks[..|ks| - 1];
      FirstOccurrencesMembers(init);
      assert ks == init + [ks[|ks| - 1]];
    }
  }

  /** A sequence without repeats is its own first occurrences. */
  lemma {:induction false} FirstOccurrencesOfDistinct<K>(ks: seq<K>)
    requires forall i, j :: 0 <= i < j < |ks| ==> ks[i] != ks[j]
    ensures FirstOccurrences(ks) == ks
  {
    if ks != [] {
      var init, last := ks[..|ks| - 1], ks[|ks| - 1];
      FirstOccurrencesOfDistinct(init);
      assert last !in init by {
        assert forall i :: 0 <= i < |init| ==> init[i] == ks[i] != last;
      }
      assert init + [last] == ks;
    }
  }

  lemma FirstOccurrencesSnoc<K>(ks: seq<K>, x: K)
    ensures FirstOccurrences(ks + [x]) == if x in ks then FirstOccurrences(ks) else FirstOccurrences(ks) + [x]
  {
    assert (ks + [x])[..|ks|] == ks;
  }

  lemma KeysSnoc<K(!new), V>(n: Entries<K, V>)
    requires n != []
    ensures Keys(n) == Keys(n[..|n| - 1]) + [n[|n| - 1].0]
  {
  }

  lemma KeysOfDistinct<K(!new), V>(m: Entries<K, V>)
    requires Distinct(m)
    ensures forall i, j :: 0 <= i < j < |m| ==> Keys(m)[i] != Keys(m)[j]
  {
  }

  /** One `put` extends the first-occurrence order by its key. */
  lemma PutOrder<K(!new), V>(rest: Entries<K, V>, ks: seq<K>, k: K, v: V)
    requires Keys(rest) == FirstOccurrences(ks)
    ensures Keys(Put(rest, k, v)) == FirstOccurrences(ks + [k])
  {
    FirstOccurrencesSnoc(ks, k);
    FirstOccurrencesMembers(ks);
    KeySetIsKeys(rest, k);
  }

  /**
   * `putAll` order: the keys of `m` in their order, then the new keys of `n`
   * in the order they first appear in `n`.
   */
  lemma {:induction false} PutAllOrder<K(!new), V>(m: Entries<K, V>, n: Entries<K, V>)
    requires Distinct(m)
    ensures Keys(PutAll(m, n)) == FirstOccurrences(Keys(m) + Keys(n))
  {
    if n == [] {
      assert Keys(m) + Keys(n) == Keys(m);
      KeysOfDistinct(m);
      FirstOccurrencesOfDistinct(Keys(m));
    } else {
      var init, last := n[..|n| - 1], n[|n| - 1];
      PutAllOrder(m, init);
      KeysSnoc(n);
      assert Keys(m) + Keys(n) == (Keys(m) + Keys(init)) + [last.0];
      PutOrder(PutAll(m, init), Keys(m) + Keys(init), last.0, last.1);
    }
  }

  /** A key `n` does not mention keeps its value from `m`. */
  lemma {:induction false} PutAllFrame<K(!new), V>(m: Entries<K, V>, n: Entries<K, V>, k: K)
    requires k !in KeySet(n)
    ensures Get(PutAll(m, n), k) == Get(m, k)
  {
    if n != [] {
      var init := n[..|n| - 1];
      assert n == init + [n[|n| - 1]];
      PutAllFrame(m, init, k);
    }
  }

  /** Last writer wins: the last entry of `n` for a key supplies its value. */
  lemma {:induction false} PutAllLastWins<K(!new), V>(m: Entries<K, V>, n: Entries<K, V>, i: int)
    requires 0 <= i < |n|
    requires forall j :: i < j < |n| ==> n[j].0 != n[i].0
    ensures Get(PutAll(m, n), n[i].0) == Some(n[i].1)
  {
    var init := n[..|n| - 1];
    if i < |n| - 1 {
      PutAllLastWins(m, init, i);
    }
  }

  /** Putting a map with distinct keys into an empty map yields that map. */
  lemma {:induction false} PutAllIntoEmpty<K(!new), V>(s: Entries<K, V>)
    requires Distinct(s)
    ensures PutAll([], s) == s
  {
    if s != [] {
      var init, last := s[..|s| - 1], s[|s| - 1];
      assert Distinct(init);
      PutAllIntoEmpty(init);
      assert last.0 !in KeySet(init) by {
        assert forall n :: 0 <= n < |init| ==> init[n].0 == s[n].0 != last.0;
      }
      assert PutAll([], s) == Put(init, last.0, last.1);
      assert init + [last] == s;
    }
  }

}
