/**
 * The corner and edge calculators scan a face's edge list written twice
 * (`edges + edges`) so that the neighbours of every edge, the closing one
 * included, sit at consecutive indices. This module relates an index of the
 * doubled list to the cyclic position of an edge on the face's boundary.
 */
module CyclicEdges {
  import opened Figures

  /** The position before k on a cycle of m positions. */
  function Pred(k: nat, m: nat): (r: nat)
    requires k < m
    ensures r < m && Succ(r, m) == k
  {
    if k == 0 then m - 1 else k - 1
  }

  /** The cyclic position of index i of a list of m elements written twice. */
  function Wrap(i: nat, m: nat): (k: nat)
    requires i < 2 * m
    ensures k < m && (k == i || k + m == i)
  {
    if i < m then i else i - m
  }

  /** `edges + edges` for the edge list of a face with vertices vs. */
  function DoubledEdges(vs: seq<Vertex>): (es2: seq<Edge>)
    ensures |es2| == 2 * |vs|
  {
    EdgeList(vs) + EdgeList(vs)
  }

  /**
   * Whether index lies in the scanned range `1..size - 3` of the doubled
   * edge list of a face with m vertices (`minIndex..maxIndex`).
   */
  predicate InScan(index: int, m: nat)
  {
    1 <= index <= 2 * m - 3
  }

  /**
   * With at least three edges the scan of indices 1..2m - 3 reaches every
   * cyclic position: position k at index k, position 0 at index m.
   */
  lemma ScanReachesEveryPosition(m: nat, k: nat)
    requires m >= 3 && k < m
    ensures var index := if k == 0 then m else k;
            InScan(index, m) && Wrap(index, m) == k
  {
  }

  /** Edge k of a face joins vertex k to the vertex after it. */
  lemma EdgeAt(vs: seq<Vertex>, k: nat)
    requires k < |vs|
    ensures EdgeList(vs)[k] == Edge(vs[k], vs[Succ(k, |vs|)])
  {
  }

  /** Index i of the doubled list is the edge at cyclic position `Wrap(i)`. */
  lemma DoubledEdgeAt(vs: seq<Vertex>, i: nat)
    requires i < 2 * |vs|
    ensures DoubledEdges(vs)[i] == EdgeList(vs)[Wrap(i, |vs|)]
    ensures DoubledEdges(vs)[i] == Edge(vs[Wrap(i, |vs|)], vs[Succ(Wrap(i, |vs|), |vs|)])
  {
    EdgeAt(vs, Wrap(i, |vs|));
  }

  /** Moving one index along the doubled list moves one position along the cycle. */
  lemma WrapNext(i: nat, m: nat)
    requires i + 1 < 2 * m
    ensures Wrap(i + 1, m) == Succ(Wrap(i, m), m)
  {
  }

  /**
   * Consecutive edges of the doubled list meet: the end of one is the start
   * of the next, so they share a vertex.
   */
  lemma DoubledEdgesChain(vs: seq<Vertex>, i: nat)
    requires i + 1 < 2 * |vs|
    ensures DoubledEdges(vs)[i].b == DoubledEdges(vs)[i + 1].a
  {
    DoubledEdgeAt(vs, i);
    DoubledEdgeAt(vs, i + 1);
    WrapNext(i, |vs|);
  }

  /** Both ends of every edge of the doubled list are vertices of the face. */
  lemma DoubledEdgeEnds(vs: seq<Vertex>, i: nat)
    requires i < 2 * |vs|
    ensures DoubledEdges(vs)[i].a in vs && DoubledEdges(vs)[i].b in vs
  {
    DoubledEdgeAt(vs, i);
  }
}
