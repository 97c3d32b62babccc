/**
  The packed adjacency structure of one level of the hierarchy: one
  contiguous buffer of weighted links plus a table of offsets, vertex i's
  neighbours being links[offsets[i] .. offsets[i+1]].
 */
module Graph {

  /** The "no vertex" sentinel of the 32-bit index maps, uint32_t(-1). */
  const INVALID: nat := 0xFFFF_FFFF

  /** One weighted directed link to vertex `id`. */
  datatype Link = Link(id: nat, weight: real)

  /** A packed adjacency matrix: a per-vertex offset table and one link buffer. */
  datatype Adjacency = Adjacency(offsets: seq<nat>, links: seq<Link>)

  /** A to_upper column: the one or two finer vertices a coarse vertex was
      made from; `second` is INVALID for a vertex carried over on its own. */
  datatype Upper = Upper(first: nat, second: nat)

  /** to_upper (coarse -> finer) and to_lower (finer -> coarse) between a
      level of n vertices and the next coarser one are mutual inverses:
      every column names one or two distinct fine vertices that map back to
      it, and every fine vertex lies in the column it maps to. */
  ghost predicate IndexMapsInverse(toUpper: seq<Upper>, toLower: seq<nat>, n: nat) {
    && |toLower| == n
    && (forall c :: 0 <= c < |toUpper| ==>
          && toUpper[c].first < n && toLower[toUpper[c].first] == c
          && (toUpper[c].second == INVALID ||
                (toUpper[c].second < n && toUpper[c].second != toUpper[c].first && toLower[toUpper[c].second] == c)))
    && (forall v :: 0 <= v < n ==> toLower[v] < |toUpper|)
    && (forall v {:trigger toUpper[toLower[v]]} :: 0 <= v < n ==>
          toUpper[toLower[v]].first == v || toUpper[toLower[v]].second == v)
  }

  /** A to_upper column whose ids index a finer level of n vertices. */
  ghost predicate Parents(up: Upper, n: nat) {
    up.first < n && (up.second == INVALID || up.second < n)
  }

  /** Every column of inverse index maps names vertices of the finer level. */
  lemma ColumnsAreParents(toUpper: seq<Upper>, toLower: seq<nat>, n: nat)
    requires IndexMapsInverse(toUpper, toLower, n)
    ensures forall c :: 0 <= c < |toUpper| ==> Parents(toUpper[c], n)
  {
  }

  /** The offset table covers n vertices, is non-decreasing, starts at 0 and
      ends at the buffer's length (every offset lies within the buffer); every link names one of the n vertices. */
  ghost predicate WellFormed(adj: Adjacency, n: nat) {
    && |adj.offsets| == n + 1
    && adj.offsets[0] == 0
    && adj.offsets[n] == |adj.links|
    && (forall i :: 0 <= i < n ==> adj.offsets[i] <= adj.offsets[i + 1])
    && (forall i :: 0 <= i <= n ==> adj.offsets[i] <= |adj.links|)
    && (forall k :: 0 <= k < |adj.links| ==> adj.links[k].id < n)
  }

  /** The neighbour list of vertex i (adj[i] .. adj[i+1] in the source). */
  function Neighbors(adj: Adjacency, n: nat, i: nat): (r: seq<Link>)
    requires WellFormed(adj, n) && i < n
    ensures forall l :: l in r ==> l.id < n
  {
    adj.links[adj.offsets[i]..adj.offsets[i + 1]]
  }

  /** v is one of u's neighbours. */
  ghost predicate IsNeighbor(adj: Adjacency, n: nat, u: nat, v: nat)
    requires WellFormed(adj, n) && u < n
  {
    exists l :: l in Neighbors(adj, n, u) && l.id == v
  }

  /** No vertex lists itself as a neighbour. */
  ghost predicate LoopFree(adj: Adjacency, n: nat)
    requires WellFormed(adj, n)
  {
    forall i, l :: 0 <= i < n && l in Neighbors(adj, n, i) ==> l.id != i
  }

  /** Every link has its reverse link. */
  ghost predicate Symmetric(adj: Adjacency, n: nat)
    requires WellFormed(adj, n)
  {
    forall u, v :: 0 <= u < n && 0 <= v < n && IsNeighbor(adj, n, u, v) ==> IsNeighbor(adj, n, v, u)
  }

  /** Each neighbour list is strictly ascending by id, hence duplicate-free. */
  ghost predicate StrictlyAscending(links: seq<Link>) {
    forall a, b :: 0 <= a < b < |links| ==> links[a].id < links[b].id
  }

  /** Sum of the weights of the links in `links` that point to d. */
  function WeightTo(links: seq<Link>, d: nat): real {
    if links == [] then 0.0
    else WeightTo(links[..|links| - 1], d)
         + (if links[|links| - 1].id == d then links[|links| - 1].weight else 0.0)
  }

  /** Sum of the weights of the links in `links` that are sent to d by `toLower`. */
  function WeightInto(links: seq<Link>, toLower: seq<nat>, d: nat): real
    requires forall l :: l in links ==> l.id < |toLower|
  {
    if links == [] then 0.0
    else WeightInto(links[..|links| - 1], toLower, d)
         + (if toLower[links[|links| - 1].id] == d then links[|links| - 1].weight else 0.0)
  }

  lemma {:induction false} WeightToConcat(a: seq<Link>, b: seq<Link>, d: nat)
    ensures WeightTo(a + b, d) == WeightTo(a, d) + WeightTo(b, d)
  {
    if b == [] {
      assert a + b == a;
    } else {
      assert (a + b)[..|a + b| - 1] == a + b[..|b| - 1];
      WeightToConcat(a, b[..|b| - 1], d);
    }
  }

  /** The weight sent to d does not depend on the order of the links. */
  lemma {:induction false} WeightToPermutation(a: seq<Link>, b: seq<Link>, d: nat)
    requires multiset(a) == multiset(b)
    ensures WeightTo(a, d) == WeightTo(b, d)
  {
    if a != [] {
      var x := a[|a| - 1];
      assert a == a[..|a| - 1] + [x];
      assert multiset(a[..|a| - 1]) == multiset(a) - multiset{x};
      assert x in multiset(b);
      var k :| 0 <= k < |b| && b[k] == x;
      var rest := b[..k] + b[k + 1..];
      RemoveAt(b, k, d);
      WeightToPermutation(a[..|a| - 1], rest, d);
    }
  }

  /** Taking out the link at k removes it from the multiset and its weight
      from the total sent to its id. */
  lemma RemoveAt(b: seq<Link>, k: nat, d: nat)
    requires k < |b|
    ensures multiset(b[..k] + b[k + 1..]) == multiset(b) - multiset{b[k]}
    ensures WeightTo(b, d) == WeightTo(b[..k] + b[k + 1..], d) + (if b[k].id == d then b[k].weight else 0.0)
  {
    assert b == b[..k] + [b[k]] + b[k + 1..];
    assert multiset(b) == multiset(b[..k]) + multiset([b[k]]) + multiset(b[k + 1..]);
    WeightToConcat(b[..k] + [b[k]], b[k + 1..], d);
    WeightToConcat(b[..k], b[k + 1..], d);
    assert (b[..k] + [b[k]])[..k] == b[..k];
  }

  /** The set {0, .., m-1}. */
  function Below(m: nat): (r: set<nat>)
    ensures forall v: nat :: v in r <==> v < m
    ensures |r| == m
  {
    if m == 0 then {} else assert m - 1 !in Below(m - 1); Below(m - 1) + {m - 1}
  }

  /** A subset is no larger than its superset. */
  lemma SubsetCard(a: set<nat>, b: set<nat>)
    requires a <= b
    ensures |a| <= |b|
  {
    assert b == a + (b - a);
  }

  /** A subset as large as its (finite) superset is the superset. */
  lemma SubsetCardEq(a: set<nat>, b: set<nat>)
    requires a <= b && |a| == |b|
    ensures a == b
  {
    assert b == a + (b - a);
    assert |b - a| == 0;
  }
}
