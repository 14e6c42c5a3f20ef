/**
 * List operations the renderer uses from the Kotlin standard library:
 * `indexOf`, `reversed`/`asReversed`, `drop`/`take` rotations, `map` for a
 * replacement, and `add` on an insertion-ordered set.
 */
module Seqs {

  datatype Option<T> = None | Some(value: T)

  predicate Distinct<T(==)>(s: seq<T>)
  {
    forall i, j :: 0 <= i < j < |s| ==> s[i] != s[j]
  }

  /** `s.indexOf(x)`: the first index holding `x`, or -1 when there is none. */
  function IndexOf<T(==)>(s: seq<T>, x: T): (r: int)
    ensures r == -1 <==> x !in s
    ensures r != -1 ==> 0 <= r < |s| && s[r] == x && x !in s[..r]
  {
    if |s| == 0 then -1
    else if s[0] == x then 0
    else
      var k := IndexOf(s[1..], x);
      if k == -1 then -1
      else
        assert s[..k + 1] == [s[0]] + s[1..][..k];
        k + 1
  }

  /** In a list without repeats, the element found at an index is found at that index. */
  lemma IndexOfDistinct<T>(s: seq<T>, i: int)
    requires Distinct(s) && 0 <= i < |s|
    ensures IndexOf(s, s[i]) == i
  {
    assert s[i] in s;
  }

  /** `reversed()` / `asReversed()`. */
  function Reverse<T>(s: seq<T>): (r: seq<T>)
    ensures |r| == |s|
    ensures forall i :: 0 <= i < |s| ==> r[i] == s[|s| - 1 - i]
  {
    if |s| == 0 then [] else Reverse(s[1..]) + [s[0]]
  }

  /** Reversing twice gives the list back. */
  lemma ReverseReverse<T>(s: seq<T>)
    ensures Reverse(Reverse(s)) == s
  {
  }

  /** `s.drop(k) + s.take(k)`: the list rotated left by k places. */
  function RotateLeft<T>(s: seq<T>, k: nat): (r: seq<T>)
    requires k <= |s|
    ensures |r| == |s|
    ensures forall i :: 0 <= i < |s| - k ==> r[i] == s[i + k]
    ensures forall i :: |s| - k <= i < |s| ==> r[i] == s[i + k - |s|]
  {
    s[k..] + s[..k]
  }

  /** The element at index i of the rotated list, as a cyclic index into the original. */
  lemma RotateLeftAt<T>(s: seq<T>, k: nat, i: nat)
    requires k <= |s| && i < |s|
    ensures RotateLeft(s, k)[i] == s[(i + k) % |s|]
  {
    if i + k < |s| {
      assert (i + k) % |s| == i + k;
    } else {
      assert (i + k) % |s| == i + k - |s|;
    }
  }

  /** Rotation only moves elements around: the result is a permutation of the input. */
  lemma RotateLeftPermutes<T>(s: seq<T>, k: nat)
    requires k <= |s|
    ensures multiset(RotateLeft(s, k)) == multiset(s)
  {
    assert s == s[..k] + s[k..];
  }

  /** `s.map { if (it == x) y else it }`. */
  function ReplaceAll<T(==)>(s: seq<T>, x: T, y: T): (r: seq<T>)
    ensures |r| == |s|
    ensures forall i :: 0 <= i < |s| ==> r[i] == (if s[i] == x then y else s[i])
  {
    seq(|s|, i requires 0 <= i < |s| => if s[i] == x then y else s[i])
  }

  /** `add` on an insertion-ordered set: an element already present keeps its place. */
  function AppendNew<T(==)>(s: seq<T>, x: T): (r: seq<T>)
    ensures Distinct(s) ==> Distinct(r)
    ensures x in r
    ensures forall i :: 0 <= i < |r| ==> r[i] in s || r[i] == x
    ensures |s| <= |r| && r[..|s|] == s
  {
    if x in s then s else s + [x]
  }

  /** The list with the element at index k taken out. */
  function RemoveAt<T>(s: seq<T>, k: nat): (r: seq<T>)
    requires k < |s|
    ensures |r| == |s| - 1
  {
    s[..k] + s[k + 1..]
  }

  /** A prefix of a list that starts with a + [x] starts with a. */
  lemma PrefixOfExtension<T>(r: seq<T>, a: seq<T>, x: T)
    requires |r| >= |a| + 1 && r[..|a| + 1] == a + [x]
    ensures r[..|a|] == a
  {
    assert r[..|a|] == r[..|a| + 1][..|a|];
  }

  /** A nonempty list is its head followed by its tail, and appending associates. */
  lemma SplitAppend<T>(a: seq<T>, s: seq<T>)
    requires |s| > 0
    ensures (a + [s[0]]) + s[1..] == a + s
  {
    assert [s[0]] + s[1..] == s;
    assert (a + [s[0]]) + s[1..] == a + ([s[0]] + s[1..]);
  }

  /** The elements of a list, as a set (`toSet`). */
  function ElementsOf<T>(s: seq<T>): set<T>
  {
    set x | x in s
  }

  /** Appending an element not yet present keeps a list without repetitions. */
  lemma DistinctAppend<T>(s: seq<T>, x: T)
    requires Distinct(s) && x !in s
    ensures Distinct(s + [x])
  {
  }

  /** A list without repetitions whose every element is x, and which holds x, is [x]. */
  lemma DistinctSingleton<T>(s: seq<T>, x: T)
    requires Distinct(s) && x in s
    requires forall y :: y in s ==> y == x
    ensures s == [x]
  {
    DistinctElements(s);
    assert (set y | y in s) == {x};
  }

  /** A list without repetitions has as many elements as its set of elements. */
  lemma {:induction false} DistinctElements<T>(s: seq<T>)
    requires Distinct(s)
    ensures |set y | y in s| == |s|
  {
    if |s| > 0 {
      var prefix := s[..|s| - 1];
      var last := s[|s| - 1];
      assert Distinct(prefix);
      DistinctElements(prefix);
      assert last !in prefix;
      assert (set y | y in s) == (set y | y in prefix) + {last} by {
        assert s == prefix + [last];
      }
    }
  }
}
