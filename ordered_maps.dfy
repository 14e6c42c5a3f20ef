/**
 * Kotlin's `mutableMapOf()`, `toMap()` and `Map.plus` build insertion-ordered
 * hash maps: iteration follows the order in which keys were first inserted,
 * and putting a key that is already present replaces its value in place.
 * The renderer depends on that order (the face tweaker takes the first
 * matching entry), so such a map is modelled as its list of entries.
 */
module OrderedMaps {
  import opened Seqs

  type Entries<K, V> = seq<(K, V)>

  function Keys<K, V>(m: Entries<K, V>): (r: seq<K>)
    ensures |r| == |m|
    ensures forall i :: 0 <= i < |m| ==> r[i] == m[i].0
  {
    seq(|m|, i requires 0 <= i < |m| => m[i].0)
  }

  /** A map never holds two entries for one key. */
  predicate Valid<K(==), V>(m: Entries<K, V>)
  {
    Distinct(Keys(m))
  }

  /** `m[k]`. */
  function Get<K(==), V>(m: Entries<K, V>, k: K): (r: Option<V>)
    ensures r.None? <==> k !in Keys(m)
    ensures r.Some? ==> exists i :: 0 <= i < |m| && m[i] == (k, r.value)
  {
    var i := IndexOf(Keys(m), k);
    if i == -1 then None else Some(m[i].1)
  }

  /** In a valid map the entry at index i is what a lookup of its key returns. */
  lemma GetAt<K, V>(m: Entries<K, V>, i: int)
    requires Valid(m) && 0 <= i < |m|
    ensures Get(m, m[i].0) == Some(m[i].1)
  {
    IndexOfDistinct(Keys(m), i);
  }

  /** `m.put(k, v)` on an insertion-ordered map. */
  function Put<K(==), V>(m: Entries<K, V>, k: K, v: V): (r: Entries<K, V>)
    ensures Keys(r) == AppendNew(Keys(m), k)
  {
    var i := IndexOf(Keys(m), k);
    if i == -1 then m + [(k, v)] else m[i := (k, v)]
  }

  /** After a put, the key maps to the new value and every other key keeps its value. */
  lemma PutGet<K, V>(m: Entries<K, V>, k: K, v: V, k': K)
    ensures Get(Put(m, k, v), k') == if k' == k then Some(v) else Get(m, k')
  {
    var keys := Keys(m);
    var i := IndexOf(keys, k);
    if i == -1 {
      IndexOfAppend(keys, k, k');
    }
  }

  /** Looking up in a list with one more element at its end. */
  lemma IndexOfAppend<T>(s: seq<T>, x: T, y: T)
    requires x !in s
    ensures IndexOf(s + [x], y) == if y == x then |s| else IndexOf(s, y)
  {
    var t := s + [x];
    var k := IndexOf(t, y);
    if y == x {
      assert t[|s|] == x;
      assert t[..|s|] == s;
    } else if y in s {
      var j := IndexOf(s, y);
      assert t[..j] == s[..j];
      assert t[j] == y;
    } else {
      assert forall i :: 0 <= i < |t| ==> t[i] != y;
    }
  }

  /** The keys of a nonempty map: the first entry's key, then the rest's. */
  lemma KeysOfTail<K, V>(n: Entries<K, V>)
    requires |n| > 0
    ensures Keys(n) == [n[0].0] + Keys(n[1..])
  {
  }

  /** A put keeps the keys already present, in order, at the front. */
  lemma PutKeepsKeys<K, V>(m: Entries<K, V>, k: K, v: V)
    ensures |m| <= |Put(m, k, v)| && Keys(Put(m, k, v))[..|m|] == Keys(m)
  {
    assert |Keys(Put(m, k, v))| == |Put(m, k, v)|;
  }

  /** `m.putAll(n)` (also `m + n`): entries of n are put one by one, in order. */
  function PutAll<K(==,!new), V>(m: Entries<K, V>, n: Entries<K, V>): (r: Entries<K, V>)
    ensures Valid(m) ==> Valid(r)
    ensures forall k :: k in Keys(r) <==> k in Keys(m) || k in Keys(n)
    ensures |m| <= |r| && Keys(r)[..|m|] == Keys(m)
    decreases |n|
  {
    if |n| == 0 then m
    else
      var m' := Put(m, n[0].0, n[0].1);
      var r := PutAll(m', n[1..]);
      KeysOfTail(n);
      PutKeepsKeys(m, n[0].0, n[0].1);
      assert Keys(r)[..|m|] == Keys(r)[..|m'|][..|m|];
      r
  }

  /** Merging maps: on a key present in both, the later map's value wins. */
  lemma {:induction false} PutAllGet<K(!new), V>(m: Entries<K, V>, n: Entries<K, V>, k: K)
    requires Valid(n)
    ensures Get(PutAll(m, n), k) == if k in Keys(n) then Get(n, k) else Get(m, k)
    decreases |n|
  {
    if |n| > 0 {
      var m' := Put(m, n[0].0, n[0].1);
      var rest := n[1..];
      assert Keys(n) == [n[0].0] + Keys(rest);
      assert Valid(rest) by {
        assert Keys(rest) == Keys(n)[1..];
      }
      PutAllGet(m', rest, k);
      PutGet(m, n[0].0, n[0].1, k);
      if k in Keys(rest) {
        assert k != n[0].0;
        GetTail(n, k);
      } else if k == n[0].0 {
        GetAt(n, 0);
      }
    }
  }

  /** Looking up a key other than the first entry's skips that entry. */
  lemma GetTail<K, V>(n: Entries<K, V>, k: K)
    requires |n| > 0 && k != n[0].0
    ensures Get(n, k) == Get(n[1..], k)
  {
    assert Keys(n) == [n[0].0] + Keys(n[1..]);
  }

  /** The first entry, in iteration order, whose key satisfies `wanted`. */
  function FirstEntryWhere<K, V>(m: Entries<K, V>, wanted: K -> bool): (r: Option<(K, V)>)
    ensures r.None? <==> forall i :: 0 <= i < |m| ==> !wanted(m[i].0)
    ensures r.Some? ==> exists i :: 0 <= i < |m| && m[i] == r.value && wanted(m[i].0)
                                   && forall j :: 0 <= j < i ==> !wanted(m[j].0)
  {
    if |m| == 0 then None
    else if wanted(m[0].0) then Some(m[0])
    else
      var r := FirstEntryWhere(m[1..], wanted);
      if r.Some? then
        ghost var i :| 0 <= i < |m[1..]| && m[1..][i] == r.value && wanted(m[1..][i].0)
                       && forall j :: 0 <= j < i ==> !wanted(m[1..][j].0);
        assert m[i + 1] == r.value;
        r
      else r
  }

  /** Putting a new key appends its entry. */
  lemma PutFresh<K, V>(m: Entries<K, V>, k: K, v: V)
    requires k !in Keys(m)
    ensures Put(m, k, v) == m + [(k, v)]
    ensures Keys(m + [(k, v)]) == Keys(m) + [k]
  {
  }

  /** The rest of a valid map is valid and does not hold the first key. */
  lemma ValidTail<K, V>(n: Entries<K, V>)
    requires Valid(n) && |n| > 0
    ensures Valid(n[1..]) && n[0].0 !in Keys(n[1..])
  {
    KeysOfTail(n);
    assert Keys(n[1..]) == Keys(n)[1..];
  }

  /** Putting entries whose keys are all new appends them in order. */
  lemma {:induction false} PutAllFresh<K(!new), V>(m: Entries<K, V>, n: Entries<K, V>)
    requires Valid(n)
    requires forall k :: k in Keys(n) ==> k !in Keys(m)
    ensures PutAll(m, n) == m + n
    decreases |n|
  {
    if |n| > 0 {
      var rest := n[1..];
      var m' := m + [n[0]];
      KeysOfTail(n);
      ValidTail(n);
      PutFresh(m, n[0].0, n[0].1);
      assert PutAll(m, n) == PutAll(m', rest);
      forall k | k in Keys(rest) ensures k !in Keys(m') {
        assert k in Keys(n);
      }
      PutAllFresh(m', rest);
      SplitAppend(m, n);
    }
  }

  /**
   * A map built by putting, item after item, the whole map each item
   * yields (`items.forEach { result.putAll(f(it)) }`).
   */
  function PutAllEach<T, K(==,!new), V>(items: seq<T>, f: T -> Entries<K, V>): (r: Entries<K, V>)
    ensures Valid(r)
  {
    if |items| == 0 then []
    else PutAll(PutAllEach(items[..|items| - 1], f), f(items[|items| - 1]))
  }

  /** The keys of the merged map are the keys some item yields. */
  lemma {:induction false} PutAllEachKeys<T, K(!new), V>(items: seq<T>, f: T -> Entries<K, V>, k: K)
    ensures k in Keys(PutAllEach(items, f)) <==> exists j :: 0 <= j < |items| && k in Keys(f(items[j]))
  {
    if |items| > 0 {
      var n := |items| - 1;
      var prefix := items[..n];
      var prev := PutAllEach(prefix, f);
      var last := f(items[n]);
      assert PutAllEach(items, f) == PutAll(prev, last);
      assert k in Keys(PutAllEach(items, f)) <==> k in Keys(prev) || k in Keys(last);
      PutAllEachKeys(prefix, f, k);
      if k in Keys(prev) {
        var j :| 0 <= j < n && k in Keys(f(prefix[j]));
        assert prefix[j] == items[j];
      }
      if j :| 0 <= j < n && k in Keys(f(items[j])) {
        assert prefix[j] == items[j];
      }
    }
  }

  /** A key several items yield takes the value the last of them gives it. */
  lemma {:induction false} LaterItemWins<T, K(!new), V>(items: seq<T>, f: T -> Entries<K, V>, j: nat, k: K)
    requires forall t :: Valid(f(t))
    requires j < |items| && k in Keys(f(items[j]))
    requires forall l :: j < l < |items| ==> k !in Keys(f(items[l]))
    ensures Get(PutAllEach(items, f), k) == Get(f(items[j]), k)
  {
    var n := |items| - 1;
    var prefix := items[..n];
    PutAllGet(PutAllEach(prefix, f), f(items[n]), k);
    if j < n {
      assert prefix[j] == items[j];
      forall l | j < l < |prefix| ensures k !in Keys(f(prefix[l])) {
        assert prefix[l] == items[l];
      }
      LaterItemWins(prefix, f, j, k);
    }
  }
}
